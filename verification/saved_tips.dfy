/**
  The saved-tips list: an ordered list of tip objects in which a tip is
  identified by its `title` alone. Toggling a tip removes every entry with
  its title, or appends it at the end when there is none.
*/
module SavedTips {
  import opened Values

  /** `saved.some(t => t.title === tip.title)` */
  function IsSaved(saved: seq<Obj>, tip: Obj): (b: bool)
    ensures b <==> exists i :: 0 <= i < |saved| && Title(saved[i]) == Title(tip)
  {
    if saved == [] then false
    else if Title(saved[0]) == Title(tip) then true
    else
      var rest := IsSaved(saved[1..], tip);
      assert rest ==> exists i :: 0 <= i < |saved| && Title(saved[i]) == Title(tip) by {
        if rest {
          var j :| 0 <= j < |saved[1..]| && Title(saved[1..][j]) == Title(tip);
          assert saved[j + 1] == saved[1..][j];
        }
      }
      rest
  }

  /** `saved.filter(t => t.title !== title)` */
  function RemoveTitle(saved: seq<Obj>, title: Option<Json>): (r: seq<Obj>)
    ensures |r| <= |saved|
    ensures forall t :: t in r <==> t in saved && Title(t) != title
  {
    if saved == [] then []
    else
      assert saved == [saved[0]] + saved[1..];
      if Title(saved[0]) != title then [saved[0]] + RemoveTitle(saved[1..], title)
      else RemoveTitle(saved[1..], title)
  }

  /** No two entries share a title. */
  predicate TitlesUnique(s: seq<Obj>)
  {
    forall i, j :: 0 <= i < j < |s| ==> Title(s[i]) != Title(s[j])
  }

  /** The titles present in a list. */
  function Titles(s: seq<Obj>): set<Option<Json>>
  {
    set t | t in s :: Title(t)
  }

  /** Removal works entry by entry, so it keeps the relative order of what it keeps. */
  lemma {:induction false} RemoveTitleAppend(a: seq<Obj>, b: seq<Obj>, title: Option<Json>)
    ensures RemoveTitle(a + b, title) == RemoveTitle(a, title) + RemoveTitle(b, title)
    decreases |a|
  {
    if a == [] {
      assert a + b == b;
    } else {
      assert (a + b)[1..] == a[1..] + b;
      RemoveTitleAppend(a[1..], b, title);
    }
  }

  /** Removing a title nobody has leaves the list as it is. */
  lemma {:induction false} RemoveAbsentTitle(s: seq<Obj>, title: Option<Json>)
    requires forall i :: 0 <= i < |s| ==> Title(s[i]) != title
    ensures RemoveTitle(s, title) == s
    decreases |s|
  {
    if s != [] {
      assert Title(s[0]) != title;
      RemoveAbsentTitle(s[1..], title);
      assert s == [s[0]] + s[1..];
    }
  }

  /** Removal keeps the titles of a list distinct. */
  lemma {:induction false} RemoveTitleUnique(s: seq<Obj>, title: Option<Json>)
    requires TitlesUnique(s)
    ensures TitlesUnique(RemoveTitle(s, title))
    decreases |s|
  {
    if s != [] {
      var tail := s[1..];
      assert TitlesUnique(tail) by {
        forall i, j | 0 <= i < j < |tail|
          ensures Title(tail[i]) != Title(tail[j])
        {
          assert tail[i] == s[i + 1] && tail[j] == s[j + 1];
        }
      }
      RemoveTitleUnique(tail, title);
      var rest := RemoveTitle(tail, title);
      if Title(s[0]) != title {
        var r := [s[0]] + rest;
        forall i, j | 0 <= i < j < |r|
          ensures Title(r[i]) != Title(r[j])
        {
          if i == 0 {
            assert r[j] in rest;
            assert r[j] in tail;
            var k :| 0 <= k < |tail| && tail[k] == r[j];
            assert s[k + 1] == r[j];
          } else {
            assert r[i] == rest[i - 1] && r[j] == rest[j - 1];
          }
        }
      }
    }
  }

  /**
    `toggleSave`: the new list. The tip's saved status flips; an unsaved tip
    is appended after the unchanged old entries; when the title is saved
    (by this object or any other with the same title) the result is the
    title filter of the old list; titles stay distinct.
  */
  function ToggleSave(saved: seq<Obj>, tip: Obj): (r: seq<Obj>)
    ensures IsSaved(r, tip) == !IsSaved(saved, tip)
    ensures !IsSaved(saved, tip) ==> |r| == |saved| + 1 && r[..|saved|] == saved && r[|saved|] == tip
    ensures IsSaved(saved, tip) ==> r == RemoveTitle(saved, Title(tip))
    ensures IsSaved(saved, tip) ==> forall t :: t in r <==> t in saved && Title(t) != Title(tip)
    ensures TitlesUnique(saved) ==> TitlesUnique(r)
  {
    if IsSaved(saved, tip) then
      var r := RemoveTitle(saved, Title(tip));
      assert TitlesUnique(saved) ==> TitlesUnique(r) by {
        if TitlesUnique(saved) {
          RemoveTitleUnique(saved, Title(tip));
        }
      }
      assert !IsSaved(r, tip) by {
        forall i | 0 <= i < |r|
          ensures Title(r[i]) != Title(tip)
        {
          assert r[i] in r;
        }
      }
      r
    else
      var r := saved + [tip];
      assert r[|saved|] == tip;
      r
  }

  /**
    Un-saving keeps the other entries in their original order: when an
    entry `x` has the toggled tip's title (it need not be the same object,
    as on the detail screen, where the toggled tip carries extra fields),
    the result is the entries before and after `x` with other titles.
  */
  lemma RemoveKeepsOrder(a: seq<Obj>, x: Obj, b: seq<Obj>, tip: Obj)
    requires Title(x) == Title(tip)
    ensures ToggleSave(a + [x] + b, tip) == RemoveTitle(a, Title(tip)) + RemoveTitle(b, Title(tip))
  {
    var title := Title(tip);
    var s := a + [x] + b;
    assert s[|a|] == x;
    assert IsSaved(s, tip);
    RemoveTitleAppend(a + [x], b, title);
    RemoveTitleAppend(a, [x], title);
    var ra := RemoveTitle(a, title);
    assert RemoveTitle([x], title) == [];
    assert RemoveTitle(a + [x], title) == ra + [];
    assert ra + [] == ra;
  }

  /** Toggling an unsaved tip twice gives back exactly the original list. */
  lemma ToggleTwiceRestores(saved: seq<Obj>, tip: Obj)
    requires !IsSaved(saved, tip)
    ensures ToggleSave(ToggleSave(saved, tip), tip) == saved
  {
    var title := Title(tip);
    var once := ToggleSave(saved, tip);
    assert once == saved + [tip];
    RemoveTitleAppend(saved, [tip], title);
    RemoveAbsentTitle(saved, title);
    assert RemoveTitle([tip], title) == [];
  }

  /** Toggling any tip twice gives back the original set of titles. */
  lemma ToggleTwiceTitles(saved: seq<Obj>, tip: Obj)
    ensures Titles(ToggleSave(ToggleSave(saved, tip), tip)) == Titles(saved)
  {
    if IsSaved(saved, tip) {
      var once := ToggleSave(saved, tip);
      var twice := ToggleSave(once, tip);
      assert twice == once + [tip];
      var i :| 0 <= i < |saved| && Title(saved[i]) == Title(tip);
      assert saved[i] in saved;
      forall x | x in Titles(saved)
        ensures x in Titles(twice)
      {
        var t :| t in saved && Title(t) == x;
        if x == Title(tip) {
          assert tip in twice;
        } else {
          assert t in once;
          assert t in twice;
        }
      }
      forall x | x in Titles(twice)
        ensures x in Titles(saved)
      {
        var t :| t in twice && Title(t) == x;
        if t in once {
          assert t in saved;
        } else {
          assert twice[|once|] == t;
        }
      }
    } else {
      ToggleTwiceRestores(saved, tip);
    }
  }
}
