/**
  The two language-model requests, seen from the app: a request either
  yields a parsed payload or throws somewhere between `fetch` and
  `JSON.parse`, and a failure is replaced by a fixed fallback.
*/
module Requests {
  import opened Values
  import Fences

  /** What one awaited request produced. */
  datatype Outcome<T> = Success(payload: T) | Failure

  /**
    From the reply to the parsed payload. `reply` is `data.content[0].text`,
    `None` when `fetch`, `response.json()` or the field access throws;
    `parse` stands for JSON.parse, `None` when it throws.
  */
  function Receive<T>(reply: Option<string>, parse: string -> Option<T>): (o: Outcome<T>)
    ensures o.Success? ==> reply.Some? && parse(Fences.Clean(reply.value)) == Some(o.payload)
    ensures o.Failure? ==> reply.None? || parse(Fences.Clean(reply.value)).None?
  {
    match reply
    case None => Failure
    case Some(text) =>
      match parse(Fences.Clean(text))
      case Some(p) => Success(p)
      case None => Failure
  }

  /**
    The text JSON.parse is shown is already clean: a reply that was cleaned
    beforehand gives the same outcome as the raw reply, for any parser.
  */
  lemma CleanedReplyReceivesAlike<T>(t: string, parse: string -> Option<T>)
    ensures Receive(Some(Fences.Clean(t)), parse) == Receive(Some(t), parse)
  {
    Fences.CleanIdempotent(t);
  }

  /** A reply the model wrapped in a "```json" fence parses as the bare reply would. */
  lemma FencedReplyParsesAlike<T>(u: string, parse: string -> Option<T>)
    ensures Receive(Some(Fences.JsonFence + u + Fences.Fence), parse) == Receive(Some(u), parse)
  {
    Fences.CleanUnwrapsJsonFence(u);
  }

  /** The five tips shown when generation fails, in source order. */
  const FallbackTips: seq<Obj> := [
    TipObj("Start with Morning Hydration", "Drink water within 30 minutes of waking to boost metabolism"),
    TipObj("Practice Mindful Eating", "Slow down and savor each bite to improve digestion"),
    TipObj("Move Every Hour", "Set reminders for brief movement breaks throughout the day"),
    TipObj("Create a Sleep Sanctuary", "Optimize your bedroom environment for better rest"),
    TipObj("Build a Gratitude Practice", "Journal three things you're grateful for each evening")
  ]

  const FallbackExplanation: string :=
    "This wellness practice can significantly improve your health and wellbeing when incorporated consistently into your daily routine."

  const FallbackSteps: seq<string> := [
    "Start small and build the habit gradually",
    "Set a specific time each day for this practice",
    "Track your progress in a journal or app",
    "Adjust based on how your body responds",
    "Celebrate small wins along the way"
  ]

  /** The first fallback tip is about hydration and the fourth about sleep. */
  lemma FallbackTitles()
    ensures Title(FallbackTips[0]) == Some(JStr("Start with Morning Hydration"))
    ensures Title(FallbackTips[3]) == Some(JStr("Create a Sleep Sanctuary"))
  {
    assert FallbackTips[0] == TipObj("Start with Morning Hydration", "Drink water within 30 minutes of waking to boost metabolism");
    assert FallbackTips[3] == TipObj("Create a Sleep Sanctuary", "Optimize your bedroom environment for better rest");
  }

  /** Turns a list of strings into a JSON array of strings. */
  function StrArray(items: seq<string>): (a: seq<Json>)
    ensures |a| == |items|
    ensures forall i :: 0 <= i < |items| ==> a[i] == JStr(items[i])
  {
    if items == [] then [] else [JStr(items[0])] + StrArray(items[1..])
  }

  /** The fields written into the selected tip when the detail request fails. */
  function FallbackDetail(): Obj
  {
    map["explanation" := JStr(FallbackExplanation), "steps" := JArr(StrArray(FallbackSteps))]
  }

  /**
    The tip list after a generation request: whatever was parsed, unchecked
    (so not necessarily five tips), or the fallback list.
  */
  function TipsFrom(o: Outcome<seq<Obj>>): (tips: seq<Obj>)
    ensures o.Success? ==> tips == o.payload
    ensures o.Failure? ==> |tips| == 5 && Title(tips[0]) == Some(JStr("Start with Morning Hydration"))
    ensures o.Failure? ==> forall i :: 0 <= i < 5 ==> Title(tips[i]).Some? && Get(tips[i], "preview").Some?
  {
    match o
    case Success(p) => p
    case Failure => FallbackTips
  }

  /** The detail fields after a detail request: the parsed object, unchecked, or the fallback fields. */
  function DetailFrom(o: Outcome<Obj>): (d: Obj)
    ensures o.Success? ==> d == o.payload
    ensures o.Failure? ==> d.Keys == {"explanation", "steps"}
  {
    match o
    case Success(p) => p
    case Failure => FallbackDetail()
  }

  /** `{ ...tip, index }`: the selection shown while the detail is loading. */
  function WithIndex(tip: Obj, index: int): (r: Obj)
    ensures Get(r, "index") == Some(JNum(index))
    ensures forall k :: k != "index" ==> Get(r, k) == Get(tip, k)
  {
    Spread(tip, map["index" := JNum(index)])
  }

  /**
    `{ ...tip, index, ...detail }`: every key of the detail wins, so a payload
    may replace even `title`, `preview` and `index`; keys it lacks keep the
    tip's values and the index.
  */
  function MergeDetail(tip: Obj, index: int, detail: Obj): (r: Obj)
    ensures forall k :: k in detail ==> Get(r, k) == Some(detail[k])
    ensures "index" !in detail ==> Get(r, "index") == Some(JNum(index))
    ensures forall k :: k !in detail && k != "index" ==> Get(r, k) == Get(tip, k)
  {
    Spread(WithIndex(tip, index), detail)
  }

  /**
    A failed detail request keeps the tip's title, preview and index and
    adds the fallback explanation and exactly the five fallback steps.
  */
  lemma FailedDetailKeepsTip(tip: Obj, index: int)
    ensures var r := MergeDetail(tip, index, DetailFrom(Failure));
      && Title(r) == Title(tip)
      && Get(r, "preview") == Get(tip, "preview")
      && Get(r, "index") == Some(JNum(index))
      && Get(r, "explanation") == Some(JStr(FallbackExplanation))
      && Get(r, "steps") == Some(JArr(StrArray(FallbackSteps)))
      && |StrArray(FallbackSteps)| == 5
  {
    var d := DetailFrom(Failure);
    assert "title" !in d && "preview" !in d && "index" !in d;
    assert "steps" in d && "explanation" in d;
  }
}
