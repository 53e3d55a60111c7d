/**
 Global replacement of pattern matches in a text. The matches are given as a table: for each
 place the end of the match that begins there, if there is one.
 */
module Replacing {
  import opened Wrappers
  import opened Patterns

  type Table = seq<Option<nat>>

  ghost predicate TableOf(ends: Table, t: string) {
    |ends| == |t| && forall i | 0 <= i < |t| :: ends[i].Some? ==> i < ends[i].value <= |t|
  }

  /** What is left from place `i` on when each match, from left to right, gives way to the marker. */
  function Replaced(t: string, ends: Table, m: string, i: nat): string
    requires TableOf(ends, t) && i <= |t|
    decreases |t| - i
  {
    if i == |t| then ""
    else
      match ends[i]
      case Some(e) => m + Replaced(t, ends, m, e)
      case None => [t[i]] + Replaced(t, ends, m, i + 1)
  }

  ghost predicate NoMatch(ends: Table) {
    forall i | 0 <= i < |ends| :: ends[i].None?
  }

  method ReplaceAll(t: string, ends: Table, m: string) returns (out: string, found: bool)
    requires TableOf(ends, t)
    ensures out == Replaced(t, ends, m, 0)
    ensures found <==> !NoMatch(ends)
  {
    out, found := "", false;
    var i := 0;
    while i < |t|
      invariant 0 <= i <= |t|
      invariant out + Replaced(t, ends, m, i) == Replaced(t, ends, m, 0)
      invariant found ==> !NoMatch(ends)
      invariant !found ==> forall k | 0 <= k < i :: ends[k].None?
      decreases |t| - i
    {
      if ends[i].Some? {
        assert (out + m) + Replaced(t, ends, m, ends[i].value) == out + Replaced(t, ends, m, i);
        out, found, i := out + m, true, ends[i].value;
      } else {
        assert (out + [t[i]]) + Replaced(t, ends, m, i + 1) == out + Replaced(t, ends, m, i);
        out, i := out + [t[i]], i + 1;
      }
    }
  }

  lemma {:induction false} NothingReplaced(t: string, ends: Table, m: string, i: nat)
    requires TableOf(ends, t) && i <= |t| && NoMatch(ends)
    ensures Replaced(t, ends, m, i) == t[i..]
    decreases |t| - i
  {
    if i == |t| {
    } else {
      NothingReplaced(t, ends, m, i + 1);
    }
  }

  lemma {:induction false} NotMatchedIsKept(t: string, ends: Table, m: string, i: nat, n: nat)
    requires TableOf(ends, t) && i + n <= |t| && forall k | i <= k < i + n :: ends[k].None?
    ensures Replaced(t, ends, m, i) == t[i..i + n] + Replaced(t, ends, m, i + n)
    decreases n
  {
    if n == 0 {
    } else {
      NotMatchedIsKept(t, ends, m, i + 1, n - 1);
    }
  }

  /** Place `j` of the output is where place `i` of the input went. */
  ghost predicate Continues(u: string, j: nat, t: string, ends: Table, m: string, i: nat) {
    TableOf(ends, t) && i <= |t| && j <= |u| && u[j..] == Replaced(t, ends, m, i)
  }

  lemma ContinuesOne(u: string, j: nat, t: string, ends: Table, m: string, i: nat)
    requires Continues(u, j, t, ends, m, i) && i < |t| && ends[i].None?
    ensures j < |u| && u[j] == t[i] && Continues(u, j + 1, t, ends, m, i + 1)
  {
    var r := u[j..];
    assert r[0] == u[j] && r[1..] == u[j + 1..];
    assert r == [t[i]] + Replaced(t, ends, m, i + 1);
  }

  lemma ContinuesMatch(u: string, j: nat, t: string, ends: Table, m: string, i: nat)
    requires Continues(u, j, t, ends, m, i) && i < |t| && ends[i].Some?
    ensures At(u, j, m) && Continues(u, j + |m|, t, ends, m, ends[i].value)
  {
    var r := u[j..];
    assert r == m + Replaced(t, ends, m, ends[i].value);
    assert r[|m|..] == u[j + |m|..];
    assert forall k | 0 <= k < |m| :: r[k] == u[j + k];
  }

  lemma MatchLeavesBracket(u: string, j: nat, t: string, ends: Table, m: string, i: nat)
    requires Continues(u, j, t, ends, m, i) && i < |t| && m != "" && m[0] == '['
    ensures ends[i].Some? ==> j < |u| && u[j] == '['
  {
    if ends[i].Some? {
      ContinuesMatch(u, j, t, ends, m, i);
      assert u[j + 0] == m[0];
    }
  }

  lemma LongerSlice(u: string, j: nat, t: string, i: nat, n: nat)
    requires n > 0 && j + n <= |u| && i + n <= |t| && u[j] == t[i] && u[j + 1..j + n] == t[i + 1..i + n]
    ensures u[j..j + n] == t[i..i + n]
  {
    assert u[j..j + n] == [u[j]] + u[j + 1..j + n];
    assert t[i..i + n] == [t[i]] + t[i + 1..i + n];
  }

  /** Output without an opening bracket was copied. */
  lemma {:induction false} Copied(u: string, j: nat, t: string, ends: Table, m: string, i: nat, n: nat)
    requires Continues(u, j, t, ends, m, i) && m != "" && m[0] == '['
    requires j + n <= |u| && forall k | j <= k < j + n :: u[k] != '['
    ensures i + n <= |t| && Continues(u, j + n, t, ends, m, i + n) && u[j..j + n] == t[i..i + n]
    decreases n
  {
    if n == 0 {
      assert u[j + n..] == u[j..];
    } else {
      assert u[j..] != "";
      MatchLeavesBracket(u, j, t, ends, m, i);
      ContinuesOne(u, j, t, ends, m, i);
      Copied(u, j + 1, t, ends, m, i + 1, n - 1);
      assert (i + 1) + (n - 1) == i + n && (j + 1) + (n - 1) == j + n;
      LongerSlice(u, j, t, i, n);
    }
  }

  /** Where the output goes on with copied text, a word ends in it if one ends in the input. */
  lemma EndsThere(u: string, x: nat, t: string, ends: Table, m: string, i: nat)
    requires Continues(u, x, t, ends, m, i) && (i < |t| ==> ends[i].None?)
    requires WordEnds(u, x)
    ensures WordEnds(t, i)
  {
    if i < |t| {
      ContinuesOne(u, x, t, ends, m, i);
    }
  }

  /** What stands before place `x` of the output: what stood before place `i` of the input, or a
      marker in place of a match that ended there. */
  ghost predicate Joint(u: string, x: nat, t: string, ends: Table, i: nat)
    requires x <= |u| && i <= |t| == |ends|
  {
    || (x == 0 && i == 0)
    || (x > 0 && i > 0 && u[x - 1] == t[i - 1])
    || (exists k :: 0 <= k < |t| && ends[k] == Some(i))
  }

  /** Every place of the output is inside a marker or was copied from a place where no match begins. */
  lemma {:induction false} Origin(u: string, j: nat, t: string, ends: Table, m: string, i: nat, x: nat)
    returns (inMarker: bool, place: nat)
    requires Continues(u, j, t, ends, m, i) && Joint(u, j, t, ends, i) && j <= x < |u|
    ensures inMarker ==> At(u, place, m) && place <= x < place + |m|
    ensures !inMarker ==>
      place < |t| && Continues(u, x, t, ends, m, place) && ends[place].None? && Joint(u, x, t, ends, place)
    decreases |t| - i
  {
    if i == |t| {
    } else {
      match ends[i]
      case Some(e) =>
        ContinuesMatch(u, j, t, ends, m, i);
        if x < j + |m| {
          inMarker, place := true, j;
        } else {
          inMarker, place := Origin(u, j + |m|, t, ends, m, e, x);
        }
      case None =>
        ContinuesOne(u, j, t, ends, m, i);
        if x == j {
          inMarker, place := false, i;
        } else {
          inMarker, place := Origin(u, j + 1, t, ends, m, i + 1, x);
        }
    }
  }

  // ----- markers in the output -----

  ghost predicate Contains(t: string, m: string) {
    exists k: nat :: At(t, k, m)
  }

  lemma Shifted(front: string, t: string, m: string)
    requires Contains(t, m)
    ensures Contains(front + t, m)
  {
    var k: nat :| At(t, k, m);
    forall x | 0 <= x < |m| ensures (front + t)[|front| + k + x] == m[x] {
      assert (front + t)[|front| + (k + x)] == t[k + x];
    }
    assert At(front + t, |front| + k, m);
  }

  /** Where something is replaced, the marker is in the output. */
  lemma {:induction false} FoundLeavesMarker(t: string, ends: Table, m: string, i: nat, k: nat)
    requires TableOf(ends, t) && i <= k < |t| && ends[k].Some?
    ensures Contains(Replaced(t, ends, m, i), m)
    decreases |t| - i
  {
    match ends[i]
    case Some(e) => assert At(Replaced(t, ends, m, i), 0, m);
    case None =>
      FoundLeavesMarker(t, ends, m, i + 1, k);
      Shifted([t[i]], Replaced(t, ends, m, i + 1), m);
  }

  ghost predicate NoBracketMatched(t: string, ends: Table)
    requires TableOf(ends, t)
  {
    forall i, k | 0 <= i <= k < |t| && ends[i].Some? && k < ends[i].value :: t[k] != '['
  }

  /** Text that begins with a bracket, and inside which no match begins, outlives the pass. */
  lemma {:induction false} Survives(t: string, ends: Table, m: string, i: nat, w: string, k: nat)
    requires TableOf(ends, t) && NoBracketMatched(t, ends)
    requires i <= k && At(t, k, w) && w != "" && w[0] == '['
    requires forall x | k <= x < k + |w| :: ends[x].None?
    ensures Contains(Replaced(t, ends, m, i), w)
    decreases k - i
  {
    if i == k {
      NotMatchedIsKept(t, ends, m, k, |w|);
      assert At(Replaced(t, ends, m, i), 0, w);
    } else {
      assert t[k + 0] == '[';
      match ends[i]
      case Some(e) =>
        Survives(t, ends, m, e, w, k);
        Shifted(m, Replaced(t, ends, m, e), w);
      case None =>
        Survives(t, ends, m, i + 1, w, k);
        Shifted([t[i]], Replaced(t, ends, m, i + 1), w);
    }
  }
}
