/** Amounts in the PDF documents: whole francs, in groups of three digits. */
module Fcfa {
  import opened Characters
  import opened Wrappers
  import opened Decimals

  const SUFFIX := " FCFA"

  // ----- the pattern of the code -----

  /** The `\B` assertion: characters of one kind on both sides. */
  predicate NoBoundary(s: string, i: nat)
    requires i <= |s|
  {
    (i > 0 && IsWord(s[i - 1])) == (i < |s| && IsWord(s[i]))
  }

  /** How many digits follow place `i` in a row. */
  function Run(s: string, i: nat): nat
    requires i <= |s|
    decreases |s| - i
  {
    if i < |s| && IsDigit(s[i]) then 1 + Run(s, i + 1) else 0
  }

  /** The place matches: inside a word, with a whole number of groups of three digits after it. */
  predicate Gap(s: string, i: nat)
    requires i <= |s|
  {
    NoBoundary(s, i) && Run(s, i) > 0 && Run(s, i) % 3 == 0
  }

  function Spaced(s: string, i: nat): string
    requires i <= |s|
    decreases |s| - i
  {
    (if Gap(s, i) then " " else "") + if i == |s| then "" else [s[i]] + Spaced(s, i + 1)
  }

  function FormatFcfa(amount: real): string {
    Spaced(Printed(Round(amount)), 0) + SUFFIX
  }

  // ----- what it is for -----

  /** Digits in groups of three, counted from the right. */
  function Grouped(d: string): string {
    if |d| <= 3 then d else Grouped(d[..|d| - 3]) + " " + d[|d| - 3..]
  }

  lemma {:induction false} GroupedLength(d: string)
    ensures |Grouped(d)| == if d == "" then 0 else |d| + (|d| - 1) / 3
  {
    if |d| <= 3 {
    } else {
      GroupedLength(d[..|d| - 3]);
    }
  }

  lemma LastThree(d: string) returns (front: string, last: string)
    requires |d| > 3
    ensures d == front + last && |last| == 3 && |d| == |front| + 3 && front != ""
    ensures Grouped(d) == Grouped(front) + " " + last
    ensures AllDigits(d) ==> AllDigits(front) && AllDigits(last)
  {
    front, last := d[..|d| - 3], d[|d| - 3..];
  }

  lemma FromTheRight(h: string, last: string, k: nat)
    requires |last| == 3 && k < |h| + 4
    ensures var g := h + " " + last;
            g[|g| - 1 - k] == if k < 3 then last[2 - k] else if k == 3 then ' ' else h[|h| - 1 - (k - 4)]
  {
  }

  /** Counted from the right, every fourth character is a space and no other. */
  lemma {:induction false} GroupsOfThree(d: string, k: nat)
    requires AllDigits(d) && k < |Grouped(d)|
    ensures var c := Grouped(d)[|Grouped(d)| - 1 - k]; if k % 4 == 3 then c == ' ' else IsDigit(c)
  {
    if |d| <= 3 {
    } else {
      var front, last := LastThree(d);
      FromTheRight(Grouped(front), last, k);
      if k >= 4 {
        GroupsOfThree(front, k - 4);
      }
    }
  }

  /** The first group has one to three digits. */
  lemma {:induction false} FirstGroup(d: string)
    requires d != "" && AllDigits(d)
    ensures IsDigit(Grouped(d)[0]) && |Grouped(d)| % 4 != 0
  {
    if |d| <= 3 {
    } else {
      FirstGroup(d[..|d| - 3]);
    }
  }

  /** What stands before the last `n` digits when others come before them. */
  function SpaceBefore(n: nat): string {
    if n > 0 && n % 3 == 0 then " " else ""
  }

  lemma SpaceEveryThree(n: nat)
    requires n > 0
    ensures SpaceBefore(n + 3) == SpaceBefore(n)
  {
  }

  lemma GroupedJoin(front: string, last: string, d: string)
    requires d == front + last && front != "" && |last| == 3
    ensures Grouped(d) == Grouped(front) + " " + last
  {
    assert d[..|d| - 3] == front && d[|d| - 3..] == last;
  }

  lemma Regroup(a: string, b: string, c: string)
    ensures (a + b) + c == a + (b + c)
  {
  }

  lemma Spread(c: char, space: string, g: string, last: string)
    ensures ([c] + (space + g)) + " " + last == [c] + (space + (g + " " + last))
  {
  }

  lemma {:induction false} GroupedCons(c: char, d: string)
    ensures Grouped([c] + d) == [c] + (SpaceBefore(|d|) + Grouped(d))
    decreases |d|
  {
    if |d| < 3 {
    } else if |d| == 3 {
      GroupedJoin([c], d, [c] + d);
    } else {
      var front, last := LastThree(d);
      GroupedCons(c, front);
      Regroup([c], front, last);
      SpaceEveryThree(|front|);
      GroupedLonger(c, [c] + front, last, [c] + d, SpaceBefore(|front|), Grouped(front));
    }
  }

  lemma GroupedLonger(c: char, front: string, last: string, all: string, space: string, g: string)
    requires all == front + last && front != "" && |last| == 3
    requires Grouped(front) == [c] + (space + g)
    ensures Grouped(all) == [c] + (space + (g + " " + last))
  {
    GroupedJoin(front, last, all);
    Spread(c, space, g, last);
  }

  /** The digit at a place, and those after it. */
  lemma FirstDigit(s: string, i: nat, d: string) returns (tail: string)
    requires i < |s| && d == s[i..] && AllDigits(d)
    ensures IsDigit(s[i]) && AllDigits(tail)
    ensures tail == s[i + 1..] && d == [s[i]] + tail && |tail| == |s| - i - 1
  {
    tail := s[i + 1..];
    assert d[0] == s[i] && d[1..] == tail;
  }

  lemma {:induction false} DigitsRun(s: string, i: nat)
    requires i <= |s| && AllDigits(s[i..])
    ensures Run(s, i) == |s| - i
    decreases |s| - i
  {
    if i == |s| {
    } else {
      assert s[i] == s[i..][0];
      assert s[i + 1..] == s[i..][1..];
      DigitsRun(s, i + 1);
    }
  }

  lemma SpacedStep(s: string, i: nat)
    requires 0 < i < |s| && IsDigit(s[i - 1]) && AllDigits(s[i..])
    ensures Spaced(s, i) == SpaceBefore(|s| - i) + ([s[i]] + Spaced(s, i + 1))
  {
    assert IsDigit(s[i..][0]);
    DigitsRun(s, i);
  }

  /** From a place inside the digits on, the code puts in just the spaces between groups. */
  lemma {:induction false} SpacedInside(s: string, i: nat, d: string)
    requires 0 < i <= |s| && IsDigit(s[i - 1]) && d == s[i..] && AllDigits(d)
    ensures Spaced(s, i) == SpaceBefore(|d|) + Grouped(d)
    decreases |d|
  {
    if i == |s| {
    } else {
      var tail := FirstDigit(s, i, d);
      SpacedStep(s, i);
      SpacedInside(s, i + 1, tail);
      GroupedCons(s[i], tail);
    }
  }

  lemma NoGapAtStart(s: string, i: nat)
    requires i < |s| && IsDigit(s[i]) && (i > 0 ==> !IsWord(s[i - 1]))
    ensures Spaced(s, i) == [s[i]] + Spaced(s, i + 1)
  {
    assert !Gap(s, i);
  }

  lemma SpacedFromStart(s: string, i: nat, d: string)
    requires i < |s| && (i > 0 ==> !IsWord(s[i - 1])) && d == s[i..] && AllDigits(d)
    ensures Spaced(s, i) == Grouped(d)
  {
    var tail := FirstDigit(s, i, d);
    NoGapAtStart(s, i);
    SpacedInside(s, i + 1, tail);
    GroupedCons(s[i], tail);
  }

  /** The number in groups of three, after its sign. */
  function Amount(n: int): string {
    if n < 0 then "-" + Grouped(Digits(-n)) else Grouped(Digits(n))
  }

  lemma FormatIsGrouped(amount: real)
    ensures FormatFcfa(amount) == Amount(Round(amount)) + " FCFA"
  {
    var n := Round(amount);
    var s := Printed(n);
    if n < 0 {
      assert s[1..] == Digits(-n);
      SpacedFromStart(s, 1, Digits(-n));
    } else {
      SpacedFromStart(s, 0, s);
    }
  }

  // ----- and back -----

  function Kept(c: char): string {
    if c == ' ' then "" else [c]
  }

  function WithoutSpaces(s: string): string {
    if s == "" then "" else Kept(s[0]) + WithoutSpaces(s[1..])
  }

  lemma FirstKept(c: char, s: string)
    ensures WithoutSpaces([c] + s) == Kept(c) + WithoutSpaces(s)
  {
    assert ([c] + s)[1..] == s;
  }

  lemma OneMoreKept(c: char, rest: string, t: string)
    requires WithoutSpaces(rest + t) == WithoutSpaces(rest) + WithoutSpaces(t)
    ensures WithoutSpaces(([c] + rest) + t) == WithoutSpaces([c] + rest) + WithoutSpaces(t)
  {
    Regroup([c], rest, t);
    FirstKept(c, rest);
    FirstKept(c, rest + t);
    Regroup(Kept(c), WithoutSpaces(rest), WithoutSpaces(t));
  }

  lemma {:induction false} SpacesGone(s: string, t: string)
    ensures WithoutSpaces(s + t) == WithoutSpaces(s) + WithoutSpaces(t)
  {
    if s == "" {
      assert s + t == t;
    } else {
      SpacesGone(s[1..], t);
      OneMoreKept(s[0], s[1..], t);
      assert s == [s[0]] + s[1..];
    }
  }

  lemma {:induction false} NoSpaces(s: string)
    requires ' ' !in s
    ensures WithoutSpaces(s) == s
  {
    if s == "" {
    } else {
      NoSpaces(s[1..]);
    }
  }

  lemma SpaceGone(g: string, last: string)
    ensures WithoutSpaces(g + " " + last) == WithoutSpaces(g) + WithoutSpaces(last)
  {
    FirstKept(' ', "");
    SpacesGone(g, " ");
    SpacesGone(g + " ", last);
  }

  lemma {:induction false} DigitsStay(d: string)
    requires AllDigits(d)
    ensures WithoutSpaces(Grouped(d)) == d
  {
    if |d| <= 3 {
      NoSpaces(d);
    } else {
      var front, last := LastThree(d);
      DigitsStay(front);
      NoSpaces(last);
      SpaceGone(Grouped(front), last);
    }
  }

  /** The text without its suffix and spaces. */
  function Stripped(text: string): string
    requires |text| >= |SUFFIX|
  {
    WithoutSpaces(text[..|text| - |SUFFIX|])
  }

  lemma AmountBack(n: int)
    ensures WithoutSpaces(Amount(n)) == Printed(n)
  {
    if n < 0 {
      DigitsStay(Digits(-n));
      SpacesGone("-", Grouped(Digits(-n)));
      NoSpaces("-");
    } else {
      DigitsStay(Digits(n));
    }
  }

  /** What is left is the number, and reads as the rounded amount. */
  lemma FormatBack(amount: real)
    ensures |FormatFcfa(amount)| >= |SUFFIX|
    ensures Stripped(FormatFcfa(amount)) == Printed(Round(amount))
    ensures Parsed(Stripped(FormatFcfa(amount))) == Round(amount)
  {
    FormatIsGrouped(amount);
    AmountBack(Round(amount));
    ParsedPrinted(Round(amount));
  }

  /** Amounts that print alike round to the same number of francs. */
  lemma FormatsDiffer(amount: real, other: real)
    ensures FormatFcfa(amount) == FormatFcfa(other) <==> Round(amount) == Round(other)
  {
    FormatIsGrouped(amount);
    FormatIsGrouped(other);
    FormatBack(amount);
    FormatBack(other);
  }
}
