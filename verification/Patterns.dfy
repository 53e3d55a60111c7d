/**
 The three patterns of the contact filter: what they describe, and the matcher that finds the
 match the regular expression finds.
 */
module Patterns {
  import opened Characters
  import opened Wrappers

  function Lower(c: char): char {
    if 'A' <= c <= 'Z' then c - 'A' + 'a' else c
  }

  /** The word stands in the text at place `i`. */
  predicate At(t: string, i: nat, w: string) {
    i + |w| <= |t| && forall k | 0 <= k < |w| :: t[i + k] == w[k]
  }

  // ----- telephone numbers: (?:\+?\d[\s.-]?){8,}\d -----

  const MIN_UNITS := 8

  predicate IsSeparator(c: char) {
    IsSpace(c) || c == '.' || c == '-'
  }

  /** `\+?\d[\s.-]?`, from place `i` to place `j` */
  predicate IsUnit(w: string, i: nat, j: nat) {
    && i < j <= |w|
    && var d := if w[i] == '+' then i + 1 else i;
    && d < j && IsDigit(w[d])
    && (j == d + 1 || (j == d + 2 && IsSeparator(w[d + 1])))
  }

  /** From place `i`, the word is `n` units and a final digit. */
  ghost predicate Units(w: string, i: nat, n: nat)
    decreases n
  {
    if n == 0 then i + 1 == |w| && IsDigit(w[i])
    else exists j :: IsUnit(w, i, j) && Units(w, j, n - 1)
  }

  ghost predicate IsPhone(w: string) {
    exists n :: n >= MIN_UNITS && Units(w, 0, n)
  }

  /** The end of the unit at place `i`, its separator included if there is one. */
  function UnitEnd(t: string, i: nat): (j: Option<nat>)
    ensures j.Some? ==> IsUnit(t, i, j.value)
  {
    var d := if i < |t| && t[i] == '+' then i + 1 else i;
    if d >= |t| || !IsDigit(t[d]) then None
    else if d + 1 < |t| && IsSeparator(t[d + 1]) then Some(d + 2)
    else Some(d + 1)
  }

  /** The end of the match at place `i`, after `seen` units: as many units as possible. */
  function PhoneEnd(t: string, i: nat, seen: nat): (e: Option<nat>)
    ensures e.Some? ==> i < e.value <= |t|
    decreases |t| - i
  {
    var unit := UnitEnd(t, i);
    var more := if unit.Some? then PhoneEnd(t, unit.value, seen + 1) else None;
    if more.Some? then more
    else if seen >= MIN_UNITS && i < |t| && IsDigit(t[i]) then Some(i + 1)
    else None
  }

  /** The part of the match from place `i` on is units and a digit. */
  lemma {:induction false} PhoneSoundFrom(t: string, i: nat, seen: nat, b: nat, w: string) returns (n: nat)
    requires PhoneEnd(t, i, seen).Some? && b <= i
    requires At(t, b, w) && b + |w| == PhoneEnd(t, i, seen).value
    ensures seen + n >= MIN_UNITS && Units(w, i - b, n)
    decreases |t| - i
  {
    var unit := UnitEnd(t, i);
    if unit.Some? && PhoneEnd(t, unit.value, seen + 1).Some? {
      var m := PhoneSoundFrom(t, unit.value, seen + 1, b, w);
      n := m + 1;
      assert IsUnit(w, i - b, unit.value - b);
    } else {
      n := 0;
    }
  }

  /** A unit that a digit or a plus sign follows is the one the matcher takes. */
  lemma UnitUnique(t: string, b: nat, w: string, i: nat, j: nat)
    requires At(t, b, w) && IsUnit(w, i, j)
    requires j < |w| && (w[j] == '+' || IsDigit(w[j]))
    ensures UnitEnd(t, b + i) == Some(b + j)
  {
    assert t[b + i] == w[i] && t[b + j] == w[j] && t[b + j - 1] == w[j - 1];
    assert j > i + 1 ==> t[b + i + 1] == w[i + 1];
  }

  lemma UnitsHead(w: string, i: nat, n: nat)
    requires Units(w, i, n)
    ensures i < |w| && (w[i] == '+' || IsDigit(w[i]))
  {
  }

  lemma {:induction false} PhoneCompleteFrom(t: string, seen: nat, b: nat, w: string, i: nat, n: nat)
    requires At(t, b, w) && Units(w, i, n) && seen + n >= MIN_UNITS
    ensures PhoneEnd(t, b + i, seen).Some? && b + |w| <= PhoneEnd(t, b + i, seen).value
    decreases n
  {
    if n == 0 {
    } else {
      var j :| IsUnit(w, i, j) && Units(w, j, n - 1);
      UnitsHead(w, j, n - 1);
      UnitUnique(t, b, w, i, j);
      PhoneCompleteFrom(t, seen + 1, b, w, j, n - 1);
    }
  }

  lemma {:induction false} UnitsChars(w: string, i: nat, n: nat, k: nat)
    requires Units(w, i, n) && i <= k < |w|
    ensures w[k] == '+' || IsDigit(w[k]) || IsSeparator(w[k])
    decreases n
  {
    if n == 0 {
    } else {
      var j :| IsUnit(w, i, j) && Units(w, j, n - 1);
      if k >= j {
        UnitsChars(w, j, n - 1, k);
      }
    }
  }

  lemma PhoneSound(t: string, i: nat, w: string)
    requires PhoneEnd(t, i, 0) == Some(i + |w|) && At(t, i, w)
    ensures IsPhone(w)
  {
    var n := PhoneSoundFrom(t, i, 0, i, w);
  }

  /** The matcher finds a match if there is one, and a longest one. */
  lemma PhoneComplete(t: string, i: nat, w: string)
    requires At(t, i, w) && IsPhone(w)
    ensures PhoneEnd(t, i, 0).Some? && i + |w| <= PhoneEnd(t, i, 0).value
  {
    var n :| n >= MIN_UNITS && Units(w, 0, n);
    PhoneCompleteFrom(t, 0, i, w, 0, n);
  }

  lemma PhoneChars(w: string, k: nat)
    requires IsPhone(w) && k < |w|
    ensures w[k] == '+' || IsDigit(w[k]) || IsSeparator(w[k])
    ensures w[0] == '+' || IsDigit(w[0])
  {
    var n :| n >= MIN_UNITS && Units(w, 0, n);
    UnitsChars(w, 0, n, k);
    UnitsHead(w, 0, n);
  }

  // ----- messaging applications: \b(whatsapp|...)\b, ignoring case -----

  const KEYWORDS := ["whatsapp", "wapp", "telegram", "signal", "messenger", "imo", "viber"]

  /** There is a word boundary before a word character at place `i`. */
  predicate WordStarts(t: string, i: nat) {
    i == 0 || i > |t| || !IsWord(t[i - 1])
  }

  predicate WordEnds(t: string, e: nat) {
    e >= |t| || !IsWord(t[e])
  }

  /** The keyword, in whatever case, stands at place `i`. */
  predicate Spells(t: string, i: nat, keyword: string) {
    i + |keyword| <= |t| && forall k | 0 <= k < |keyword| :: Lower(t[i + k]) == keyword[k]
  }

  predicate KeywordAt(t: string, i: nat, keyword: string) {
    WordStarts(t, i) && Spells(t, i, keyword) && WordEnds(t, i + |keyword|)
  }

  function KeywordEnd(t: string, i: nat, from: nat): (e: Option<nat>)
    requires from <= |KEYWORDS|
    ensures e.Some? ==>
      exists j :: from <= j < |KEYWORDS| && KeywordAt(t, i, KEYWORDS[j]) && e.value == i + |KEYWORDS[j]|
    ensures e.None? ==> forall j | from <= j < |KEYWORDS| :: !KeywordAt(t, i, KEYWORDS[j])
    decreases |KEYWORDS| - from
  {
    if from == |KEYWORDS| then None
    else if KeywordAt(t, i, KEYWORDS[from]) then Some(i + |KEYWORDS[from]|)
    else KeywordEnd(t, i, from + 1)
  }

  // ----- addresses: [a-zA-Z0-9._%+-]+@[a-zA-Z0-9.-]+\.[a-zA-Z]{2,} -----

  datatype Class = Local | Domain | Letters {
    predicate Has(c: char) {
      match this
      case Local => IsLetter(c) || IsDigit(c) || c in "._%+-"
      case Domain => IsLetter(c) || IsDigit(c) || c in ".-"
      case Letters => IsLetter(c)
    }

    /** All characters from `i` to `j` are of this class. */
    predicate Fills(w: string, i: nat, j: nat) {
      i <= j <= |w| && forall k | i <= k < j :: Has(w[k])
    }
  }

  /** The at sign stands at `a`, the last dot at `d`. */
  ghost predicate EmailParts(w: string, a: nat, d: nat) {
    && 0 < a && a + 1 < d && d + 3 <= |w|
    && Local.Fills(w, 0, a) && w[a] == '@'
    && Domain.Fills(w, a + 1, d) && w[d] == '.'
    && Letters.Fills(w, d + 1, |w|)
  }

  ghost predicate IsEmail(w: string) {
    exists a: nat, d: nat :: EmailParts(w, a, d)
  }

  /** Where the characters of the class that begin at place `i` end. */
  function RunEnd(t: string, i: nat, c: Class): (e: nat)
    requires i <= |t|
    ensures c.Fills(t, i, e) && (e < |t| ==> !c.Has(t[e]))
    decreases |t| - i
  {
    if i == |t| || !c.Has(t[i]) then i else RunEnd(t, i + 1, c)
  }

  predicate DotAt(t: string, d: nat) {
    d < |t| && t[d] == '.' && RunEnd(t, d + 1, Letters) >= d + 3
  }

  /** The last dot after `low` and before `high` that two letters or more follow. */
  function LastDot(t: string, low: nat, high: nat): (d: Option<nat>)
    requires low <= high <= |t|
    ensures d.Some? ==> low < d.value < high && DotAt(t, d.value) && forall k | d.value < k < high :: !DotAt(t, k)
    ensures d.None? ==> forall k | low < k < high :: !DotAt(t, k)
    decreases high
  {
    if high <= low + 1 then None
    else if DotAt(t, high - 1) then Some(high - 1)
    else LastDot(t, low, high - 1)
  }

  function EmailEnd(t: string, i: nat): (e: Option<nat>)
    ensures e.Some? ==> i < e.value <= |t|
  {
    if i >= |t| then None
    else
      var a := RunEnd(t, i, Local);
      if a == i || a == |t| || t[a] != '@' then None
      else
        var dot := LastDot(t, a + 1, RunEnd(t, a + 1, Domain));
        if dot.None? then None else Some(RunEnd(t, dot.value + 1, Letters))
  }

  lemma EmailSound(t: string, i: nat, w: string)
    requires EmailEnd(t, i) == Some(i + |w|) && At(t, i, w)
    ensures IsEmail(w)
    ensures i + |w| < |t| ==> !IsLetter(t[i + |w|])
  {
    var a := RunEnd(t, i, Local);
    var domain := RunEnd(t, a + 1, Domain);
    var d := LastDot(t, a + 1, domain).value;
    assert t[a] == w[a - i] && t[d] == w[d - i];
    assert Domain.Fills(t, a + 1, d);
    FillsWord(t, i, w, Local, 0, a - i);
    FillsWord(t, i, w, Domain, a - i + 1, d - i);
    FillsWord(t, i, w, Letters, d - i + 1, |w|);
    assert EmailParts(w, a - i, d - i);
  }

  /** A class fills part of a word if and only if it fills that part of the text. */
  lemma FillsWord(t: string, b: nat, w: string, c: Class, i: nat, j: nat)
    requires At(t, b, w) && i <= j <= |w|
    ensures c.Fills(w, i, j) <==> c.Fills(t, b + i, b + j)
  {
    if c.Fills(t, b + i, b + j) {
      assert forall k | i <= k < j :: w[k] == t[b + k];
    }
    if c.Fills(w, i, j) {
      forall k | b + i <= k < b + j ensures c.Has(t[k]) {
        assert t[b + (k - b)] == w[k - b];
      }
    }
  }

  lemma RunIsLongest(t: string, i: nat, j: nat, c: Class)
    requires c.Fills(t, i, j)
    ensures j <= RunEnd(t, i, c)
  {
  }

  /** The matcher finds a match if there is one, and a longest one. */
  lemma EmailComplete(t: string, i: nat, w: string)
    requires At(t, i, w) && IsEmail(w)
    ensures EmailEnd(t, i).Some? && i + |w| <= EmailEnd(t, i).value
  {
    var a: nat, d: nat :| EmailParts(w, a, d);
    var e := i + |w|;
    FillsWord(t, i, w, Local, 0, a);
    FillsWord(t, i, w, Domain, a + 1, d);
    FillsWord(t, i, w, Letters, d + 1, |w|);
    assert t[i + a] == w[a] && t[i + d] == w[d];
    EmailFound(t, i, i + a, i + d, e);
  }

  lemma EmailFound(t: string, i: nat, a: nat, d: nat, e: nat)
    requires i < a && a + 1 < d && d + 3 <= e <= |t|
    requires Local.Fills(t, i, a) && t[a] == '@' && Domain.Fills(t, a + 1, d) && t[d] == '.'
    requires Letters.Fills(t, d + 1, e)
    ensures EmailEnd(t, i).Some? && e <= EmailEnd(t, i).value
  {
    RunIsLongest(t, i, a, Local);
    assert RunEnd(t, i, Local) == a;
    RunIsLongest(t, d + 1, e, Letters);
    assert Domain.Fills(t, a + 1, d + 1);
    RunIsLongest(t, a + 1, d + 1, Domain);
    var last := LastDot(t, a + 1, RunEnd(t, a + 1, Domain));
    assert DotAt(t, d);
    if d < last.value {
      RunIsLongest(t, last.value + 1, RunEnd(t, last.value + 1, Letters), Letters);
      assert !Letters.Has('.') && RunEnd(t, d + 1, Letters) <= last.value;
    }
  }

  lemma EmailChars(w: string, k: nat)
    requires IsEmail(w) && k < |w|
    ensures Local.Has(w[k]) || w[k] == '@'
  {
    var a: nat, d: nat :| EmailParts(w, a, d);
  }
}
