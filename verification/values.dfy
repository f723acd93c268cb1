/**
  The JavaScript values the app handles: what JSON.parse returns, and the plain
  objects (tips, selected tips, parsed details) built from it.
*/
module Values {

  datatype Option<+T> = None | Some(value: T)

  /** A value as JSON.parse produces it. Numbers are modelled as integers. */
  datatype Json =
    | JNull
    | JBool(b: bool)
    | JNum(n: int)
    | JStr(s: string)
    | JArr(items: seq<Json>)
    | JObj(fields: map<string, Json>)

  /** The own enumerable properties of a JavaScript object, by key. */
  type Obj = map<string, Json>

  /** Property read `o[key]`; `None` stands for `undefined`. */
  function Get(o: Obj, key: string): (r: Option<Json>)
    ensures r.Some? <==> key in o
    ensures r.Some? ==> r.value == o[key]
  {
    if key in o then Some(o[key]) else None
  }

  /** `tip.title`, the only field tips are identified by. */
  function Title(o: Obj): Option<Json>
  {
    Get(o, "title")
  }

  /**
    The object literal `{ ...base, ...over }`: every key of either object,
    the later spread winning where both have one.
  */
  function Spread(base: Obj, over: Obj): (r: Obj)
    ensures r.Keys == base.Keys + over.Keys
    ensures forall k :: k in over ==> r[k] == over[k]
    ensures forall k :: k in base && k !in over ==> r[k] == base[k]
  {
    base + over
  }

  /** A tip as the app writes one: `{ title, preview }` with two strings. */
  function TipObj(title: string, preview: string): Obj
  {
    map["title" := JStr(title), "preview" := JStr(preview)]
  }
}
