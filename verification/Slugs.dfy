/**
 From the name of an agency to the address of its page. Lower case, decomposition and the loss of
 accents are a parameter.
 */
module Slugs {
  import opened Characters
  import opened Decimals

  /** `toLowerCase`, `normalize` and the removal of combining marks, one after the other. */
  type Folding = string -> string

  predicate SlugChar(c: char) {
    'a' <= c <= 'z' || '0' <= c <= '9' || c == '-'
  }

  predicate IsHyphen(c: char) {
    c == '-'
  }

  /** The folding has nothing to do on plain lower-case text. */
  ghost predicate KeepsPlain(fold: Folding) {
    forall s: string :: (forall c | c in s :: SlugChar(c)) ==> fold(s) == s
  }

  function Filtered(s: string): string {
    if s == "" then ""
    else (if SlugChar(s[0]) || IsSpace(s[0]) then [s[0]] else "") + Filtered(s[1..])
  }

  function TrimmedLeft(s: string): string {
    if s != "" && IsSpace(s[0]) then TrimmedLeft(s[1..]) else s
  }

  function TrimmedRight(s: string): string {
    if s != "" && IsSpace(s[|s| - 1]) then TrimmedRight(s[..|s| - 1]) else s
  }

  /** Each run of the given characters becomes one hyphen; `inRun` says that a run goes on. */
  function Hyphenated(s: string, run: char -> bool, inRun: bool): string {
    if s == "" then ""
    else if run(s[0]) then (if inRun then "" else "-") + Hyphenated(s[1..], run, true)
    else [s[0]] + Hyphenated(s[1..], run, false)
  }

  function Cut(s: string): string {
    if |s| > 70 then s[..70] else s
  }

  function SlugifyAgencyName(fold: Folding, name: string): string {
    var filtered := Filtered(fold(name));
    var trimmed := TrimmedRight(TrimmedLeft(filtered));
    var words := Hyphenated(trimmed, IsSpace, false);
    Cut(Hyphenated(words, IsHyphen, false))
  }

  // ----- what a slug looks like -----

  predicate SlugChars(s: string) {
    forall i | 0 <= i < |s| :: SlugChar(s[i])
  }

  predicate SingleHyphens(s: string) {
    forall i | 0 < i < |s| :: !(s[i - 1] == '-' && s[i] == '-')
  }

  predicate IsSlug(s: string) {
    |s| <= 70 && SlugChars(s) && SingleHyphens(s)
  }

  predicate FilteredChars(s: string) {
    forall i | 0 <= i < |s| :: SlugChar(s[i]) || IsSpace(s[i])
  }

  lemma {:induction false} FilteredShape(s: string)
    ensures FilteredChars(Filtered(s))
  {
    if s == "" {
    } else {
      FilteredShape(s[1..]);
    }
  }

  lemma {:induction false} TrimmedLeftShape(s: string)
    requires FilteredChars(s)
    ensures FilteredChars(TrimmedLeft(s))
  {
    if s != "" && IsSpace(s[0]) {
      TrimmedLeftShape(s[1..]);
    }
  }

  lemma {:induction false} TrimmedRightShape(s: string)
    requires FilteredChars(s)
    ensures FilteredChars(TrimmedRight(s))
  {
    if s != "" && IsSpace(s[|s| - 1]) {
      TrimmedRightShape(s[..|s| - 1]);
    }
  }

  lemma {:induction false} WordsShape(s: string, inRun: bool)
    requires FilteredChars(s)
    ensures SlugChars(Hyphenated(s, IsSpace, inRun))
  {
    if s == "" {
    } else {
      assert SlugChar(s[0]) || IsSpace(s[0]);
      WordsShape(s[1..], IsSpace(s[0]));
    }
  }

  /** Runs of hyphens are gone; a run that goes on leaves no hyphen in front. */
  lemma {:induction false} HyphensShape(s: string, inRun: bool)
    requires SlugChars(s)
    ensures var h := Hyphenated(s, IsHyphen, inRun);
            SlugChars(h) && SingleHyphens(h) && (inRun && h != "" ==> h[0] != '-')
  {
    if s == "" {
    } else {
      HyphensShape(s[1..], s[0] == '-');
    }
  }

  lemma SlugifyGivesSlug(fold: Folding, name: string)
    ensures IsSlug(SlugifyAgencyName(fold, name))
  {
    FilteredShape(fold(name));
    var filtered := Filtered(fold(name));
    TrimmedLeftShape(filtered);
    TrimmedRightShape(TrimmedLeft(filtered));
    var trimmed := TrimmedRight(TrimmedLeft(filtered));
    WordsShape(trimmed, false);
    HyphensShape(Hyphenated(trimmed, IsSpace, false), false);
  }

  // ----- what a slug becomes -----

  lemma {:induction false} FilteredKeeps(s: string)
    requires SlugChars(s)
    ensures Filtered(s) == s
  {
    if s == "" {
    } else {
      assert SlugChar(s[0]);
      FilteredKeeps(s[1..]);
    }
  }

  lemma TrimmedKeeps(s: string)
    requires SlugChars(s)
    ensures TrimmedRight(TrimmedLeft(s)) == s
  {
    if s != "" {
      assert SlugChar(s[0]) && SlugChar(s[|s| - 1]);
    }
  }

  lemma {:induction false} WordsKept(s: string)
    requires SlugChars(s)
    ensures Hyphenated(s, IsSpace, false) == s
  {
    if s == "" {
    } else {
      assert SlugChar(s[0]);
      WordsKept(s[1..]);
    }
  }

  lemma {:induction false} HyphensKept(s: string, inRun: bool)
    requires SingleHyphens(s) && (inRun && s != "" ==> s[0] != '-')
    ensures Hyphenated(s, IsHyphen, inRun) == s
  {
    if s == "" {
    } else {
      HyphensKept(s[1..], s[0] == '-');
    }
  }

  lemma SlugKept(fold: Folding, s: string)
    requires KeepsPlain(fold) && IsSlug(s)
    ensures SlugifyAgencyName(fold, s) == s
  {
    assert fold(s) == s by {
      assert forall c | c in s :: SlugChar(c);
    }
    FilteredKeeps(s);
    TrimmedKeeps(s);
    WordsKept(s);
    HyphensKept(s, false);
  }

  /** The texts that stay as they are, are exactly the slugs; so doing it twice changes nothing. */
  lemma SlugifyKeepsSlugs(fold: Folding, s: string)
    requires KeepsPlain(fold)
    ensures SlugifyAgencyName(fold, s) == s <==> IsSlug(s)
    ensures SlugifyAgencyName(fold, SlugifyAgencyName(fold, s)) == SlugifyAgencyName(fold, s)
  {
    SlugifyGivesSlug(fold, s);
    SlugKept(fold, SlugifyAgencyName(fold, s));
    if IsSlug(s) {
      SlugKept(fold, s);
    }
  }

  // ----- candidates -----

  /** The candidates of the search: the base, then the base with 2, 3, and so on. */
  function Candidate(base: string, k: nat): string {
    if k == 0 then base else base + "-" + Digits(k + 1)
  }

  lemma CandidatesDiffer(base: string, j: nat, k: nat)
    requires j < k
    ensures Candidate(base, j) != Candidate(base, k)
  {
    if j > 0 && Candidate(base, j) == Candidate(base, k) {
      assert Candidate(base, j)[|base| + 1..] == Digits(j + 1);
      assert Candidate(base, k)[|base| + 1..] == Digits(k + 1);
      DigitsDiffer(j + 1, k + 1);
    }
  }

  /** No more candidates can be taken than there are slugs taken. */
  lemma {:induction false} CandidatesCounted(base: string, k: nat, taken: set<string>)
    requires forall j | 0 <= j < k :: Candidate(base, j) in taken
    ensures k <= |taken|
  {
    if k == 0 {
    } else {
      var last := Candidate(base, k - 1);
      forall j | 0 <= j < k - 1 ensures Candidate(base, j) in taken - {last} {
        CandidatesDiffer(base, j, k - 1);
      }
      CandidatesCounted(base, k - 1, taken - {last});
    }
  }

  lemma {:induction false} DigitsFit(n: nat, width: nat, limit: nat)
    requires width > 0 && limit == Power(10, width) && n < limit
    ensures |Digits(n)| <= width
  {
    if n < 10 {
    } else {
      DigitsFit(n / 10, width - 1, limit / 10);
    }
  }

  function Power(b: nat, e: nat): nat {
    if e == 0 then 1 else b * Power(b, e - 1)
  }

  /** The margin of the column: a slug of 80 characters has room for a suffix below 10^9. */
  lemma CandidateFits(base: string, k: nat)
    requires |base| <= 70 && k + 1 < 1_000_000_000
    ensures |Candidate(base, k)| <= 80
  {
    if k > 0 {
      assert Power(10, 9) == 1_000_000_000;
      DigitsFit(k + 1, 9, 1_000_000_000);
    }
  }
}
