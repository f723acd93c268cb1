/**
  The five wellness goals a profile can pick, and the lookup
  `goals.find(g => g.id === profile.goal)?.label` that puts a goal's
  human-readable label into the tip prompt.
*/
module Goals {
  import opened Values

  datatype Goal = Goal(id: string, name: string)

  const All: seq<Goal> := [
    Goal("weight", "Weight Management"),
    Goal("nutrition", "Better Nutrition"),
    Goal("mental", "Mental Wellness"),
    Goal("fitness", "Build Fitness"),
    Goal("sleep", "Improve Sleep")
  ]

  /** `Array.prototype.find`: the first goal with the given id, if any. */
  function Find(goals: seq<Goal>, id: string): (r: Option<Goal>)
    ensures r.None? <==> forall g :: g in goals ==> g.id != id
    ensures r.Some? ==> exists i :: 0 <= i < |goals| && goals[i] == r.value && r.value.id == id
                                    && forall j :: 0 <= j < i ==> goals[j].id != id
  {
    if goals == [] then None
    else if goals[0].id == id then Some(goals[0])
    else
      var r := Find(goals[1..], id);
      assert goals == [goals[0]] + goals[1..];
      assert r.Some? ==> exists i :: 0 <= i < |goals| && goals[i] == r.value && r.value.id == id
                                       && forall j :: 0 <= j < i ==> goals[j].id != id by {
        if r.Some? {
          var i :| 0 <= i < |goals[1..]| && goals[1..][i] == r.value && r.value.id == id
                   && forall j :: 0 <= j < i ==> goals[1..][j].id != id;
          assert goals[i + 1] == r.value;
          forall j | 0 <= j < i + 1
            ensures goals[j].id != id
          {
            if j > 0 {
              assert goals[j] == goals[1..][j - 1];
            }
          }
        }
      }
      r
  }

  /**
    The goal's label as the prompt and the tips heading use it; `None` is
    `undefined`, which happens exactly when no goal has the id.
  */
  function Label(id: string): (r: Option<string>)
    ensures r.None? <==> forall i :: 0 <= i < |All| ==> All[i].id != id
    ensures r.Some? ==> exists i :: 0 <= i < |All| && All[i].id == id && All[i].name == r.value
  {
    match Find(All, id)
    case Some(g) => Some(g.name)
    case None => None
  }

  /** Every offered goal is found by its own id: the five ids are distinct. */
  lemma {:induction false} EveryGoalHasLabel(i: nat)
    requires i < |All|
    ensures Label(All[i].id) == Some(All[i].name)
  {
    var g := All[i];
    var r := Label(g.id);
    assert r.Some?;
    var k :| 0 <= k < |All| && All[k].id == g.id && All[k].name == r.value;
    assert k == i;
  }
}
