/**
  The app's controller: one state record, the transitions its handlers make,
  and the user and network events that trigger them on each screen.
*/
module App {
  import opened Values
  import SavedTips
  import Goals
  import opened Requests

  datatype Screen = ProfileScreen | TipsScreen | DetailScreen

  /** The profile form; every field is a string, "" while unset. */
  datatype Profile = Profile(age: string, gender: string, goal: string)

  /** The values of the gender select; "" is its "Select gender" option. */
  const GenderOptions: seq<string> := ["", "male", "female", "non-binary", "prefer-not-to-say"]

  /**
    The component's state hooks, plus `slot`: the contents of the
    'savedTips' storage key, `None` while the key is absent.
  */
  datatype State = State(
    screen: Screen,
    profile: Profile,
    tips: seq<Obj>,
    selectedTip: Option<Obj>,
    savedTips: seq<Obj>,
    loading: bool,
    detailLoading: bool,
    slot: Option<seq<Obj>>)

  /**
    The initial hook values, after the mount effect loaded a stored list if
    there is one.
  */
  function Start(slot: Option<seq<Obj>>): (s: State)
    ensures s.screen == ProfileScreen && s.profile == Profile("", "", "")
    ensures s.tips == [] && s.selectedTip == None && !s.loading && !s.detailLoading
    ensures s.savedTips == (if slot.Some? then slot.value else []) && s.slot == slot
  {
    var saved := match slot case Some(stored) => stored case None => [];
    State(ProfileScreen, Profile("", "", ""), [], None, saved, false, false, slot)
  }

  /**
    The submit button's enabled condition: it is disabled when age, gender
    or goal is empty or a generation is loading.
  */
  predicate CanGenerate(s: State): (b: bool)
    ensures !b <==> s.profile.age == "" || s.profile.gender == "" || s.profile.goal == "" || s.loading
  {
    s.profile.age != "" && s.profile.gender != "" && s.profile.goal != "" && !s.loading
  }

  /** `generateTips` up to its await: the loading flag is raised and nothing else changes. */
  function BeginTips(s: State): (r: State)
    ensures r.loading
    ensures r.(loading := s.loading) == s
  {
    s.(loading := true)
  }

  /**
    `generateTips` after its await, on either path: the tips screen shows the
    parsed list or the fallback list, the flag is lowered, and the profile,
    selection and saved list are untouched.
  */
  function FinishTips(s: State, o: Outcome<seq<Obj>>): (r: State)
    ensures r.screen == TipsScreen && !r.loading
    ensures o.Success? ==> r.tips == o.payload
    ensures o.Failure? ==> r.tips == FallbackTips
    ensures r.(tips := s.tips, screen := s.screen, loading := s.loading) == s
  {
    s.(tips := TipsFrom(o), screen := TipsScreen, loading := false)
  }

  /**
    `generateDetail(tip, index)` up to its await: the selection is the card
    with `index` set to its position, the detail flag is raised and the
    detail screen shows; tips, profile and saved list are untouched.
  */
  function BeginDetail(s: State, index: nat): (r: State)
    requires index < |s.tips|
    ensures r.screen == DetailScreen && r.detailLoading && r.selectedTip.Some?
    ensures Get(r.selectedTip.value, "index") == Some(JNum(index))
    ensures forall k :: k != "index" ==> Get(r.selectedTip.value, k) == Get(s.tips[index], k)
    ensures r.(selectedTip := s.selectedTip, detailLoading := s.detailLoading, screen := s.screen) == s
  {
    s.(selectedTip := Some(WithIndex(s.tips[index], index)), detailLoading := true, screen := DetailScreen)
  }

  /**
    `generateDetail` after its await: the detail fields are spread over the
    selection made by the begin step, so every detail key wins and every
    other key keeps the selection's value; the flag is lowered.
  */
  function FinishDetail(s: State, o: Outcome<Obj>): (r: State)
    requires s.selectedTip.Some?
    ensures !r.detailLoading && r.selectedTip.Some?
    ensures forall k :: k in DetailFrom(o) ==> Get(r.selectedTip.value, k) == Some(DetailFrom(o)[k])
    ensures forall k :: k !in DetailFrom(o) ==> Get(r.selectedTip.value, k) == Get(s.selectedTip.value, k)
    ensures r.(selectedTip := s.selectedTip, detailLoading := s.detailLoading) == s
  {
    s.(selectedTip := Some(Spread(s.selectedTip.value, DetailFrom(o))), detailLoading := false)
  }

  /**
    `toggleSave(tip)`: the tip's saved status flips, the new list goes into
    the state and, whole, into the storage slot, and nothing else changes.
  */
  function Toggle(s: State, tip: Obj): (r: State)
    ensures SavedTips.IsSaved(r.savedTips, tip) == !SavedTips.IsSaved(s.savedTips, tip)
    ensures r.slot == Some(r.savedTips)
    ensures r.(savedTips := s.savedTips, slot := s.slot) == s
  {
    var saved := SavedTips.ToggleSave(s.savedTips, tip);
    s.(savedTips := saved, slot := Some(saved))
  }

  datatype Event =
    | EditAge(age: string)             // the age input
    | EditGender(gender: string)       // the gender select
    | PickGoal(goal: nat)              // one of the goal buttons, by position
    | Generate                         // "Generate My Tips"
    | Regenerate                       // "Regenerate" on the tips screen
    | TipsArrive(tips: Outcome<seq<Obj>>)   // the tip request settles
    | Open(index: nat)                 // a tip card is clicked
    | DetailArrives(detail: Outcome<Obj>)   // the detail request settles
    | Back                             // "Back" or "Back to Tips"
    | SaveCard(card: nat)              // bookmark on a tip card
    | SaveListed(entry: nat)           // bookmark in the saved-tips panel
    | SaveSelected                     // bookmark on the detail screen

  /**
    One event. `None` when the event cannot happen: its control is not on
    the current screen or is disabled, or no request of that kind is awaited.
  */
  function Step(s: State, e: Event): (r: Option<State>)
    ensures r.Some? && !e.TipsArrive? ==> r.value.tips == s.tips
    ensures r.Some? && !(e.SaveCard? || e.SaveListed? || e.SaveSelected?) ==>
      r.value.savedTips == s.savedTips && r.value.slot == s.slot
  {
    match e
    case EditAge(v) =>
      if s.screen == ProfileScreen then Some(s.(profile := s.profile.(age := v))) else None
    case EditGender(v) =>
      if s.screen == ProfileScreen && v in GenderOptions then Some(s.(profile := s.profile.(gender := v))) else None
    case PickGoal(i) =>
      if s.screen == ProfileScreen && i < |Goals.All| then Some(s.(profile := s.profile.(goal := Goals.All[i].id))) else None
    case Generate =>
      if s.screen == ProfileScreen && CanGenerate(s) then Some(BeginTips(s)) else None
    case Regenerate =>
      if s.screen == TipsScreen && !s.loading then Some(BeginTips(s)) else None
    case TipsArrive(o) =>
      if s.loading then Some(FinishTips(s, o)) else None
    case Open(i) =>
      if s.screen == TipsScreen && i < |s.tips| then Some(BeginDetail(s, i)) else None
    case DetailArrives(o) =>
      if s.detailLoading && s.selectedTip.Some? then Some(FinishDetail(s, o)) else None
    case Back =>
      (match s.screen
       case ProfileScreen => None
       case TipsScreen => Some(s.(screen := ProfileScreen))
       case DetailScreen => Some(s.(screen := TipsScreen)))
    case SaveCard(i) =>
      if s.screen == TipsScreen && i < |s.tips| then Some(Toggle(s, s.tips[i])) else None
    case SaveListed(i) =>
      if s.screen == TipsScreen && i < |s.savedTips| then Some(Toggle(s, s.savedTips[i])) else None
    case SaveSelected =>
      if s.screen == DetailScreen && s.selectedTip.Some? then Some(Toggle(s, s.selectedTip.value)) else None
  }

  /** A sequence of events, `None` as soon as one of them cannot happen. */
  function Run(s: State, es: seq<Event>): Option<State>
    decreases |es|
  {
    if es == [] then Some(s)
    else match Step(s, es[0])
      case None => None
      case Some(t) => Run(t, es[1..])
  }

  /**
    What holds in every reachable state: the detail screen and a pending
    detail request always have a selection, the goal is empty or one of the
    five, and it is set once the profile screen has been left or a
    generation is pending; saved titles are distinct, and the storage slot
    holds the saved list (or is still absent with nothing saved).
  */
  predicate Inv(s: State)
  {
    && (s.screen == DetailScreen || s.detailLoading ==> s.selectedTip.Some?)
    && (s.profile.goal == "" || Goals.Label(s.profile.goal).Some?)
    && (s.screen != ProfileScreen || s.loading ==> s.profile.goal != "")
    && SavedTips.TitlesUnique(s.savedTips)
    && (s.slot == Some(s.savedTips) || (s.slot == None && s.savedTips == []))
  }

  /** A stored list with distinct titles gives a start state satisfying the invariant. */
  lemma StartInv(slot: Option<seq<Obj>>)
    requires slot.None? || SavedTips.TitlesUnique(slot.value)
    ensures Inv(Start(slot))
  {
  }

  /** A bookmark keeps the invariant: titles stay distinct and the slot follows the list. */
  lemma ToggleKeepsInv(s: State, tip: Obj)
    requires Inv(s)
    ensures Inv(Toggle(s, tip))
  {
  }

  /**
    Every handler keeps the invariant; picking a goal keeps it because each
    goal button sets an id the lookup finds.
  */
  lemma StepPreservesInv(s: State, e: Event)
    requires Inv(s)
    requires Step(s, e).Some?
    ensures Inv(Step(s, e).value)
  {
    match e
    case EditAge(_) =>
    case EditGender(_) =>
    case PickGoal(i) =>
      Goals.EveryGoalHasLabel(i);
    case Generate =>
    case Regenerate =>
    case TipsArrive(_) =>
    case Open(_) =>
    case DetailArrives(_) =>
    case Back =>
    case SaveCard(i) =>
      ToggleKeepsInv(s, s.tips[i]);
    case SaveListed(i) =>
      ToggleKeepsInv(s, s.savedTips[i]);
    case SaveSelected =>
      ToggleKeepsInv(s, s.selectedTip.value);
  }

  lemma {:induction false} RunPreservesInv(s: State, es: seq<Event>)
    requires Inv(s)
    requires Run(s, es).Some?
    ensures Inv(Run(s, es).value)
    decreases |es|
  {
    if es != [] {
      StepPreservesInv(s, es[0]);
      RunPreservesInv(Step(s, es[0]).value, es[1..]);
    }
  }

  /**
    Whatever the session did, a restart that loads the storage slot starts
    with exactly the saved list the session ended with.
  */
  lemma ReloadRestoresSaved(slot: Option<seq<Obj>>, es: seq<Event>)
    requires slot.None? || SavedTips.TitlesUnique(slot.value)
    requires Run(Start(slot), es).Some?
    ensures var t := Run(Start(slot), es).value;
      Start(t.slot).savedTips == t.savedTips && SavedTips.TitlesUnique(t.savedTips)
  {
    StartInv(slot);
    RunPreservesInv(Start(slot), es);
  }

  /** Two events in a row: the second acts on the state the first produced. */
  lemma RunPair(s: State, a: Event, b: Event)
    ensures Run(s, [a, b]) == match Step(s, a) case None => None case Some(m) => Step(m, b)
  {
    assert [a, b][1..] == [b];
    match Step(s, a)
    case None =>
    case Some(m) =>
      assert [b][1..] == [];
      match Step(m, b)
      case None =>
      case Some(t) => assert Run(t, []) == Some(t);
  }

  /**
    Generation can be started from the profile screen exactly when age,
    gender and goal are all set and no generation is loading, and from the
    tips screen exactly when none is loading.
  */
  lemma GenerateGuard(s: State)
    ensures Step(s, Generate).Some? <==>
      s.screen == ProfileScreen && s.profile.age != "" && s.profile.gender != "" && s.profile.goal != "" && !s.loading
    ensures Step(s, Regenerate).Some? <==> s.screen == TipsScreen && !s.loading
  {
  }

  /**
    In a reachable state, a generation that may start, from either button,
    finds a label for the goal.
  */
  lemma GenerateHasGoalLabel(s: State)
    requires Inv(s)
    requires (s.screen == ProfileScreen && s.profile.goal != "" && !s.loading) || (s.screen == TipsScreen && !s.loading)
    ensures Goals.Label(s.profile.goal).Some?
  {
  }

  /**
    `generateTips`, both phases: the begin raises only the loading flag; the
    settle always lands on the tips screen with the flag lowered, the parsed
    list as is on success and exactly the fallback list on failure.
  */
  lemma TipsRoundTrip(s: State, trigger: Event, o: Outcome<seq<Obj>>)
    requires trigger == Generate || trigger == Regenerate
    requires Step(s, trigger).Some?
    ensures Step(s, trigger).value == s.(loading := true)
    ensures Step(s.(loading := true), TipsArrive(o)).Some?
    ensures var t := Run(s, [trigger, TipsArrive(o)]);
      && t.Some?
      && t.value.screen == TipsScreen && !t.value.loading
      && (o.Success? ==> t.value.tips == o.payload)
      && (o.Failure? ==> t.value.tips == FallbackTips)
      && t.value.savedTips == s.savedTips && t.value.selectedTip == s.selectedTip
  {
    var m := Step(s, trigger).value;
    var t := FinishTips(m, o);
    assert Step(m, TipsArrive(o)) == Some(t);
    RunPair(s, trigger, TipsArrive(o));
  }

  /**
    `generateDetail`, both phases: opening a card selects `{ ...tip, index }`,
    raises the detail flag and shows the detail screen; the settle spreads
    the detail (or the fallback) over it and lowers the flag.
  */
  lemma DetailRoundTrip(s: State, i: nat, o: Outcome<Obj>)
    requires s.screen == TipsScreen && i < |s.tips|
    ensures var m := Step(s, Open(i));
      && m.Some?
      && m.value.selectedTip == Some(WithIndex(s.tips[i], i))
      && m.value.detailLoading && m.value.screen == DetailScreen
      && m.value.tips == s.tips && m.value.savedTips == s.savedTips
    ensures var t := Run(s, [Open(i), DetailArrives(o)]);
      && t.Some?
      && t.value.selectedTip == Some(MergeDetail(s.tips[i], i, DetailFrom(o)))
      && !t.value.detailLoading && t.value.screen == DetailScreen
      && t.value.tips == s.tips && t.value.savedTips == s.savedTips
  {
    OpenThenSettle(s, i, o);
    var m := BeginDetail(s, i);
    assert FinishDetail(m, o).selectedTip == Some(MergeDetail(s.tips[i], i, DetailFrom(o)));
  }

  /** Opening card `i` and the settle of its request, as the two transitions. */
  lemma OpenThenSettle(s: State, i: nat, o: Outcome<Obj>)
    requires s.screen == TipsScreen && i < |s.tips|
    ensures Step(s, Open(i)) == Some(BeginDetail(s, i))
    ensures Run(s, [Open(i), DetailArrives(o)]) == Some(FinishDetail(BeginDetail(s, i), o))
  {
    var m := BeginDetail(s, i);
    assert Step(m, DetailArrives(o)) == Some(FinishDetail(m, o));
    RunPair(s, Open(i), DetailArrives(o));
  }

  /** Opening a card raises the detail flag at once, and the settle lowers it. */
  lemma OpenSettles(s: State, i: nat, o: Outcome<Obj>)
    requires s.screen == TipsScreen && i < |s.tips|
    ensures Step(s, Open(i)).Some? && Step(s, Open(i)).value.detailLoading
    ensures Run(s, [Open(i), DetailArrives(o)]).Some? && !Run(s, [Open(i), DetailArrives(o)]).value.detailLoading
  {
    DetailRoundTrip(s, i, o);
  }

  /**
    A failed detail request leaves the selected tip's title, preview and
    index as they were and shows exactly the five fallback steps.
  */
  lemma FailedDetailRun(s: State, i: nat)
    requires s.screen == TipsScreen && i < |s.tips|
    ensures var t := Run(s, [Open(i), DetailArrives(Failure)]);
      && t.Some? && t.value.selectedTip.Some?
      && Title(t.value.selectedTip.value) == Title(s.tips[i])
      && Get(t.value.selectedTip.value, "preview") == Get(s.tips[i], "preview")
      && Get(t.value.selectedTip.value, "index") == Some(JNum(i))
      && Get(t.value.selectedTip.value, "steps") == Some(JArr(StrArray(FallbackSteps)))
      && |StrArray(FallbackSteps)| == 5
  {
    DetailRoundTrip(s, i, Failure);
    FailedDetailKeepsTip(s.tips[i], i);
  }

  /**
    The back buttons change the screen and nothing else: tips goes back to
    profile, detail goes back to tips (keeping the selection), and the
    profile screen has none.
  */
  lemma BackOnlyMovesScreen(s: State)
    ensures Step(s, Back).None? <==> s.screen == ProfileScreen
    ensures Step(s, Back).Some? ==>
      var t := Step(s, Back).value;
      && t.tips == s.tips && t.selectedTip == s.selectedTip && t.savedTips == s.savedTips
      && t.profile == s.profile && t.loading == s.loading && t.detailLoading == s.detailLoading
      && t.slot == s.slot
      && (s.screen == TipsScreen ==> t.screen == ProfileScreen)
      && (s.screen == DetailScreen ==> t.screen == TipsScreen)
  {
  }

  /** Opening a card and going back returns to the same tips with the same saved list. */
  lemma OpenThenBack(s: State, i: nat)
    requires s.screen == TipsScreen && i < |s.tips|
    ensures var t := Run(s, [Open(i), Back]);
      && t.Some? && t.value.screen == TipsScreen
      && t.value.tips == s.tips && t.value.savedTips == s.savedTips && t.value.profile == s.profile
  {
    RunPair(s, Open(i), Back);
  }

  /**
    Every bookmark flips the saved status of its tip, writes the whole new
    list to the storage slot, and leaves screen, tips and selection alone.
  */
  lemma SaveFlips(s: State, e: Event)
    requires e.SaveCard? || e.SaveListed? || e.SaveSelected?
    requires Step(s, e).Some?
    ensures var tip := (match e
        case SaveCard(i) => s.tips[i]
        case SaveListed(i) => s.savedTips[i]
        case SaveSelected => s.selectedTip.value
        case _ => map[]);
      var t := Step(s, e).value;
      && SavedTips.IsSaved(t.savedTips, tip) == !SavedTips.IsSaved(s.savedTips, tip)
      && t.slot == Some(t.savedTips)
      && t.screen == s.screen && t.tips == s.tips && t.selectedTip == s.selectedTip
  {
  }

  /** Running `a + b` is running `a`, then `b` from where `a` ended. */
  lemma {:induction false} RunAppend(s: State, a: seq<Event>, b: seq<Event>)
    ensures Run(s, a + b) == match Run(s, a) case None => None case Some(m) => Run(m, b)
    decreases |a|
  {
    if a == [] {
      assert a + b == b;
    } else {
      assert (a + b)[0] == a[0];
      assert (a + b)[1..] == a[1..] + b;
      match Step(s, a[0])
      case None =>
      case Some(t) => RunAppend(t, a[1..], b);
    }
  }

  /** The profile steps of the sleep session: age 29, gender female, the fifth goal. */
  lemma SleepProfileRun()
    ensures Run(Start(None), [EditAge("29"), EditGender("female"), PickGoal(4)])
      == Some(Start(None).(profile := Profile("29", "female", "sleep")))
  {
    var s0 := Start(None);
    var s1 := s0.(profile := Profile("29", "", ""));
    assert Step(s0, EditAge("29")) == Some(s1);
    var s2 := s1.(profile := Profile("29", "female", ""));
    assert "female" in GenderOptions;
    assert Step(s1, EditGender("female")) == Some(s2);
    var s3 := s2.(profile := Profile("29", "female", "sleep"));
    assert Step(s2, PickGoal(4)) == Some(s3);
    assert Run(s3, []) == Some(s3);
    assert Run(s2, [PickGoal(4)]) == Some(s3);
    assert Run(s1, [EditGender("female"), PickGoal(4)]) == Some(s3);
  }

  /**
    A session: a 29-year-old female picks the sleep goal, the tip
    request fails, and the tips screen shows the five fallback tips,
    "Create a Sleep Sanctuary" among them; opening the first card raises the
    detail flag at once and the settle lowers it.
  */
  lemma SleepSession(o: Outcome<Obj>)
    ensures var t := Run(Start(None), [EditAge("29"), EditGender("female"), PickGoal(4), Generate, TipsArrive(Failure)]);
      && t.Some? && t.value.screen == TipsScreen && t.value.tips == FallbackTips
      && Title(t.value.tips[3]) == Some(JStr("Create a Sleep Sanctuary"))
      && Title(t.value.tips[0]) == Some(JStr("Start with Morning Hydration"))
      && Step(t.value, Open(0)).Some? && Step(t.value, Open(0)).value.detailLoading
      && Run(t.value, [Open(0), DetailArrives(o)]).Some?
      && !Run(t.value, [Open(0), DetailArrives(o)]).value.detailLoading
  {
    var profile := [EditAge("29"), EditGender("female"), PickGoal(4)];
    var tips := [Generate, TipsArrive(Failure)];
    var s3 := Start(None).(profile := Profile("29", "female", "sleep"));
    SleepProfileRun();
    RunAppend(Start(None), profile, tips);
    var all := [EditAge("29"), EditGender("female"), PickGoal(4), Generate, TipsArrive(Failure)];
    assert profile + tips == all;
    assert Run(Start(None), all) == Run(s3, tips);
    TipsRoundTrip(s3, Generate, Failure);
    var s5 := Run(s3, tips).value;
    assert s5.screen == TipsScreen && s5.tips == FallbackTips;
    FallbackTitles();
    OpenSettles(s5, 0, o);
  }
}
