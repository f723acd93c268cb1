/**
  Cleaning of the text the language model returns before it is parsed:
  `text.replace(/```json|```/g, '').trim()`.

  The global replace scans left to right; at each position it tries the
  alternative "```json" before "```", deletes the first one that matches and
  resumes after it. The trim then drops leading and trailing white space.
*/
module Fences {

  const Fence: string := "```"
  const JsonFence: string := "```json"

  predicate StartsWith(s: string, p: string)
  {
    |p| <= |s| && s[..|p|] == p
  }

  /** A "```" begins at position `i` of `t`. */
  predicate FenceAt(t: string, i: int)
  {
    0 <= i && i + 3 <= |t| && t[i] == '`' && t[i + 1] == '`' && t[i + 2] == '`'
  }

  /** `t` has no "```" substring. */
  predicate FenceFree(t: string)
  {
    forall i :: 0 <= i < |t| ==> !FenceAt(t, i)
  }

  /** `t` starts with two backticks. */
  predicate DoubleTick(t: string)
  {
    |t| >= 2 && t[0] == '`' && t[1] == '`'
  }

  /** The global replace `/```json|```/g` with the empty string. */
  function StripFences(s: string): (r: string)
    ensures |r| <= |s|
    decreases |s|
  {
    if StartsWith(s, JsonFence) then StripFences(s[7..])
    else if FenceAt(s, 0) then StripFences(s[3..])
    else if s == [] then []
    else [s[0]] + StripFences(s[1..])
  }

  lemma JsonFenceAt(s: string)
    ensures StartsWith(s, JsonFence) ==> FenceAt(s, 0)
  {
    if StartsWith(s, JsonFence) {
      assert s[..7][0] == s[0] && s[..7][1] == s[1] && s[..7][2] == s[2];
    }
  }

  /** A fence-free suffix of a fence-free string. */
  lemma FenceFreeTail(s: string, k: nat)
    requires FenceFree(s)
    requires k <= |s|
    ensures FenceFree(s[k..])
  {
    forall i | 0 <= i < |s[k..]|
      ensures !FenceAt(s[k..], i)
    {
      assert !FenceAt(s, k + i);
    }
  }

  /** A fence-free slice of a fence-free string. */
  lemma FenceFreeSlice(s: string, i: nat, j: nat)
    requires FenceFree(s)
    requires i <= j <= |s|
    ensures FenceFree(s[i..j])
  {
    forall k | 0 <= k < |s[i..j]|
      ensures !FenceAt(s[i..j], k)
    {
      assert !FenceAt(s, i + k);
    }
  }

  /**
    Prepending one character keeps a string fence-free unless the character
    is a backtick and the string starts with two of them.
  */
  lemma ConsFenceFree(c: char, r: string)
    requires FenceFree(r)
    requires c != '`' || !DoubleTick(r)
    ensures FenceFree([c] + r)
  {
    var t := [c] + r;
    forall i | 0 <= i < |t|
      ensures !FenceAt(t, i)
    {
      if i == 0 {
        assert FenceAt(t, 0) ==> c == '`' && DoubleTick(r);
      } else {
        assert !FenceAt(r, i - 1);
      }
    }
  }

  /**
    A string that does not start with "``" is not turned into one that does:
    its first character is kept, and if that is a backtick the second is kept
    too.
  */
  lemma NoDoubleTickStart(t: string)
    requires !DoubleTick(t)
    ensures !DoubleTick(StripFences(t))
  {
    JsonFenceAt(t);
    if t != [] && t[0] == '`' && |t| > 1 {
      var u := t[1..];
      JsonFenceAt(u);
      assert u[0] != '`';
      assert StripFences(u) == [u[0]] + StripFences(u[1..]);
      assert StripFences(t) == [t[0]] + StripFences(u);
    }
  }

  /** The replace leaves no "```" behind. */
  lemma {:induction false} StripFencesFenceFree(s: string)
    ensures FenceFree(StripFences(s))
    decreases |s|
  {
    JsonFenceAt(s);
    if StartsWith(s, JsonFence) {
      StripFencesFenceFree(s[7..]);
    } else if FenceAt(s, 0) {
      StripFencesFenceFree(s[3..]);
    } else if s == [] {
    } else {
      StripFencesFenceFree(s[1..]);
      if s[0] == '`' {
        assert DoubleTick(s[1..]) ==> FenceAt(s, 0);
        NoDoubleTickStart(s[1..]);
      }
      ConsFenceFree(s[0], StripFences(s[1..]));
    }
  }

  /** On text without a fence the replace changes nothing. */
  lemma {:induction false} StripFencesIdentity(s: string)
    requires FenceFree(s)
    ensures StripFences(s) == s
    decreases |s|
  {
    JsonFenceAt(s);
    if s != [] {
      assert !FenceAt(s, 0);
      FenceFreeTail(s, 1);
      StripFencesIdentity(s[1..]);
    }
  }

  /** The replace keeps the length exactly when there is no fence to delete. */
  lemma {:induction false} StripFencesShrinks(s: string)
    ensures |StripFences(s)| == |s| <==> FenceFree(s)
    decreases |s|
  {
    JsonFenceAt(s);
    if FenceFree(s) {
      StripFencesIdentity(s);
    } else if FenceAt(s, 0) {
    } else {
      var i :| 0 <= i < |s| && FenceAt(s, i);
      assert i != 0;
      assert FenceAt(s[1..], i - 1);
      StripFencesShrinks(s[1..]);
    }
  }

  /** A closing "```" after fence-free text is deleted and the text kept. */
  lemma {:induction false} StripClosingFence(u: string)
    requires FenceFree(u)
    ensures StripFences(u + Fence) == u
    decreases |u|
  {
    var s := u + Fence;
    JsonFenceAt(s);
    if u == [] {
      assert s[3..] == [];
    } else if FenceAt(s, 0) {
      // u is one or two backticks, and the text after the match is u again
      assert |u| >= 3 ==> FenceAt(u, 0);
      assert !StartsWith(s, JsonFence) by {
        assert |s| < 7;
      }
      assert s[3..] == u by {
        forall k | 0 <= k < |u|
          ensures s[3 + k] == u[k]
        {
          assert s[k] == '`';
        }
      }
      StripFencesIdentity(u);
    } else {
      assert s[1..] == u[1..] + Fence;
      FenceFreeTail(u, 1);
      StripClosingFence(u[1..]);
    }
  }

  /**
    A trailing "```" never changes the result, whatever comes before it: it
    is deleted on its own, or, after one or two backticks, it is the match
    and those backticks are what remains.
  */
  lemma {:induction false} StripAppendFence(u: string)
    ensures StripFences(u + Fence) == StripFences(u)
    decreases |u|
  {
    var s := u + Fence;
    JsonFenceAt(u);
    if u == [] {
      assert s[3..] == [];
    } else if StartsWith(u, JsonFence) {
      assert s[..7] == u[..7];
      assert s[7..] == u[7..] + Fence;
      StripAppendFence(u[7..]);
    } else if FenceAt(u, 0) {
      assert |u| >= 7 ==> s[..7] == u[..7];
      assert |u| < 7 ==> s[|u|] == '`' && JsonFence[|u|] != '`';
      assert |u| < 7 <= |s| ==> s[..7][|u|] == s[|u|];
      assert !StartsWith(s, JsonFence);
      assert s[3..] == u[3..] + Fence;
      StripAppendFence(u[3..]);
    } else {
      assert |u| >= 3 ==> s[..3] == u[..3];
      assert |u| <= 3 ==> s[3] == '`';
      assert |s| >= 7 ==> s[..7][3] == s[3];
      assert !StartsWith(s, JsonFence);
      if FenceAt(s, 0) {
        // u is one or two backticks, and the text after the match is u again
        assert s[3..] == u by {
          forall k | 0 <= k < |u|
            ensures s[3 + k] == u[k]
          {
            assert s[k] == '`';
          }
        }
      } else {
        assert s[1..] == u[1..] + Fence;
        StripAppendFence(u[1..]);
      }
    }
  }

  /** A leading "```json" is deleted and the scan goes on after it. */
  lemma StripJsonPrefix(v: string)
    ensures StripFences(JsonFence + v) == StripFences(v)
  {
    var s := JsonFence + v;
    assert StartsWith(s, JsonFence);
    assert s[7..] == v;
  }

  /** A reply wrapped as "```json" + u + "```" comes back as u. */
  lemma StripJsonFenced(u: string)
    requires FenceFree(u)
    ensures StripFences(JsonFence + u + Fence) == u
  {
    var s := JsonFence + u + Fence;
    assert StartsWith(s, JsonFence);
    assert s[7..] == u + Fence;
    StripClosingFence(u);
  }

  /** The characters String.prototype.trim removes: ECMAScript WhiteSpace and LineTerminator. */
  predicate IsSpace(c: char)
  {
    || c == '\t' || c == '\n' || c == '\U{000B}' || c == '\U{000C}' || c == '\r'
    || c == ' ' || c == '\U{00A0}' || c == '\U{1680}'
    || ('\U{2000}' <= c <= '\U{200A}')
    || c == '\U{2028}' || c == '\U{2029}' || c == '\U{202F}' || c == '\U{205F}'
    || c == '\U{3000}' || c == '\U{FEFF}'
  }

  /** Drops leading white space. */
  function TrimStart(s: string): (r: string)
    ensures |r| <= |s| && r == s[|s| - |r|..]
    ensures forall i :: 0 <= i < |s| - |r| ==> IsSpace(s[i])
    ensures r == [] || !IsSpace(r[0])
  {
    if s != [] && IsSpace(s[0]) then TrimStart(s[1..]) else s
  }

  /** Drops trailing white space. */
  function TrimEnd(s: string): (r: string)
    ensures |r| <= |s| && r == s[..|r|]
    ensures forall i :: |r| <= i < |s| ==> IsSpace(s[i])
    ensures r == [] || !IsSpace(r[|r| - 1])
  {
    if s != [] && IsSpace(s[|s| - 1]) then TrimEnd(s[..|s| - 1]) else s
  }

  /** `r` occurs in `s` at position `i`. */
  predicate SliceAt(s: string, i: int, r: string)
  {
    0 <= i && i + |r| <= |s| && s[i..i + |r|] == r
  }

  /** A prefix of a suffix of `s` is a slice of `s`. */
  lemma PrefixOfSuffix(s: string, m: string, r: string)
    requires |m| <= |s| && m == s[|s| - |m|..]
    requires |r| <= |m| && r == m[..|r|]
    ensures SliceAt(s, |s| - |m|, r)
  {
    assert s[|s| - |m|..|s| - |m| + |r|] == m[..|r|];
  }

  /** White space after a prefix of a suffix of `s` is white space at the end of `s`. */
  lemma SpaceAfterSlice(s: string, m: string, r: string)
    requires |m| <= |s| && m == s[|s| - |m|..]
    requires |r| <= |m|
    requires forall i :: |r| <= i < |m| ==> IsSpace(m[i])
    ensures forall k :: |s| - |m| + |r| <= k < |s| ==> IsSpace(s[k])
  {
    forall k | |s| - |m| + |r| <= k < |s|
      ensures IsSpace(s[k])
    {
      assert s[k] == m[k - (|s| - |m|)];
    }
  }

  /** The text left by trimming both ends sits in `s` after the leading white space. */
  lemma {:induction false} TrimBothSlice(s: string)
    ensures var m := TrimStart(s);
      && SliceAt(s, |s| - |m|, TrimEnd(m))
      && forall k :: |s| - |m| + |TrimEnd(m)| <= k < |s| ==> IsSpace(s[k])
  {
    var m := TrimStart(s);
    PrefixOfSuffix(s, m, TrimEnd(m));
    SpaceAfterSlice(s, m, TrimEnd(m));
  }

  /**
    String.prototype.trim: the result is a slice of the input, only white
    space lies outside that slice, and the result neither starts nor ends
    with white space.
  */
  function Trim(s: string): (r: string)
    ensures exists i ::
              && SliceAt(s, i, r)
              && (forall k :: 0 <= k < i ==> IsSpace(s[k]))
              && (forall k :: i + |r| <= k < |s| ==> IsSpace(s[k]))
    ensures r == [] || (!IsSpace(r[0]) && !IsSpace(r[|r| - 1]))
  {
    TrimBothSlice(s);
    TrimEnd(TrimStart(s))
  }

  lemma TrimIdempotent(s: string)
    ensures Trim(Trim(s)) == Trim(s)
  {
    var r := Trim(s);
    assert TrimStart(r) == r;
    assert TrimEnd(r) == r;
  }

  /** A slice of fence-free text is fence-free. */
  lemma SliceFenceFree(s: string, i: int, r: string)
    requires FenceFree(s) && SliceAt(s, i, r)
    ensures FenceFree(r)
  {
    FenceFreeSlice(s, i, i + |r|);
  }

  /** Trimming cannot create a fence: the result is a slice of its input. */
  lemma {:induction false} TrimKeepsFenceFree(s: string)
    requires FenceFree(s)
    ensures FenceFree(Trim(s))
  {
    var m := TrimStart(s);
    TrimBothSlice(s);
    SliceFenceFree(s, |s| - |m|, TrimEnd(m));
  }

  /**
    The whole cleaning step applied to each reply before JSON.parse: the
    text handed on contains no "```" and has no white space at either end.
  */
  function Clean(s: string): (r: string)
    ensures FenceFree(r)
    ensures r == [] || (!IsSpace(r[0]) && !IsSpace(r[|r| - 1]))
  {
    StripFencesFenceFree(s);
    TrimKeepsFenceFree(StripFences(s));
    Trim(StripFences(s))
  }

  /** Cleaning twice is cleaning once. */
  lemma CleanIdempotent(s: string)
    ensures Clean(Clean(s)) == Clean(s)
  {
    var c := Clean(s);
    StripFencesIdentity(c);
    TrimIdempotent(StripFences(s));
  }

  /**
    A reply the model wrapped in a "```json" fence cleans to the same text as
    the unwrapped reply.
  */
  lemma CleanUnwrapsJsonFence(u: string)
    ensures Clean(JsonFence + u + Fence) == Clean(u)
  {
    assert JsonFence + u + Fence == JsonFence + (u + Fence);
    StripJsonPrefix(u + Fence);
    StripAppendFence(u);
  }
}
