/**
 What a slug is for: the words of a name, in their order, with one hyphen between them, however they
 were set apart.
 */
module SlugWords {
  import opened Characters
  import opened Slugs

  predicate Plain(c: char) {
    'a' <= c <= 'z' || '0' <= c <= '9'
  }

  predicate IsWord(w: string) {
    w != "" && forall c | c in w :: Plain(c)
  }

  /** What sets words apart: a space or a hyphen, perhaps among more of them and other signs. */
  predicate IsGap(g: string) {
    (' ' in g || '-' in g) && forall c | c in g :: !Plain(c)
  }

  /** What may stand around a name: anything but letters, digits and hyphens. */
  predicate IsEdge(g: string) {
    forall c | c in g :: !Plain(c) && c != '-'
  }

  predicate Fit(words: seq<string>, gaps: seq<string>) {
    && |words| == |gaps| + 1
    && (forall w | w in words :: IsWord(w))
    && (forall g | g in gaps :: IsGap(g))
  }

  function Text(words: seq<string>, gaps: seq<string>): string
    requires |words| == |gaps| + 1
  {
    if gaps == [] then words[0] else words[0] + (gaps[0] + Text(words[1..], gaps[1..]))
  }

  function Hyphens(n: nat): seq<string> {
    seq(n, i => "-")
  }

  // ----- the signs that are dropped -----

  lemma Regrouped(a: string, b: string, c: string)
    ensures a + (b + c) == (a + b) + c
  {
  }

  lemma {:induction false} FilteredJoin(s: string, t: string)
    ensures Filtered(s + t) == Filtered(s) + Filtered(t)
  {
    if s == "" {
      assert s + t == t;
    } else {
      FilteredJoin(s[1..], t);
      assert (s + t)[0] == s[0] && (s + t)[1..] == s[1..] + t;
      Regrouped(if SlugChar(s[0]) || IsSpace(s[0]) then [s[0]] else "", Filtered(s[1..]), Filtered(t));
    }
  }

  lemma FilteredWord(w: string)
    requires IsWord(w)
    ensures Filtered(w) == w
  {
    assert forall i | 0 <= i < |w| :: w[i] in w;
    FilteredKeeps(w);
  }

  /** Nothing but hyphens and white space, and something of it. */
  predicate IsCleanGap(g: string) {
    g != "" && forall c | c in g :: c == '-' || IsSpace(c)
  }

  predicate IsBlank(g: string) {
    forall c | c in g :: IsSpace(c)
  }

  lemma {:induction false} FilteredFrom(s: string, c: char)
    ensures c in Filtered(s) <==> c in s && (SlugChar(c) || IsSpace(c))
  {
    if s == "" {
    } else {
      FilteredFrom(s[1..], c);
      assert s == [s[0]] + s[1..];
    }
  }

  lemma FilteredGap(g: string)
    requires IsGap(g)
    ensures IsCleanGap(Filtered(g))
  {
    forall c ensures c in Filtered(g) ==> c == '-' || IsSpace(c) {
      FilteredFrom(g, c);
    }
    FilteredFrom(g, ' ');
    FilteredFrom(g, '-');
  }

  lemma FilteredEdge(g: string)
    requires IsEdge(g)
    ensures IsBlank(Filtered(g))
  {
    forall c ensures c in Filtered(g) ==> IsSpace(c) {
      FilteredFrom(g, c);
    }
  }

  /** The gaps as the filter leaves them. */
  predicate FitClean(words: seq<string>, gaps: seq<string>) {
    && |words| == |gaps| + 1
    && (forall w | w in words :: IsWord(w))
    && (forall g | g in gaps :: IsCleanGap(g))
  }

  lemma {:induction false} FilteredText(words: seq<string>, gaps: seq<string>) returns (clean: seq<string>)
    requires Fit(words, gaps)
    ensures FitClean(words, clean) && Filtered(Text(words, gaps)) == Text(words, clean)
    decreases |gaps|
  {
    FilteredWord(words[0]);
    if gaps == [] {
      clean := [];
    } else {
      var rest := FilteredText(words[1..], gaps[1..]);
      FilteredGap(gaps[0]);
      FilteredJoin(words[0], gaps[0] + Text(words[1..], gaps[1..]));
      FilteredJoin(gaps[0], Text(words[1..], gaps[1..]));
      clean := [Filtered(gaps[0])] + rest;
      assert clean[1..] == rest;
    }
  }

  // ----- trimming -----

  lemma {:induction false} TrimsLeft(g: string, s: string)
    requires IsBlank(g) && s != "" && !IsSpace(s[0])
    ensures TrimmedLeft(g + s) == s
  {
    if g == "" {
      assert g + s == s;
    } else {
      assert g[0] in g;
      TrimsLeft(g[1..], s);
      assert (g + s)[1..] == g[1..] + s;
    }
  }

  lemma {:induction false} TrimsRight(s: string, g: string)
    requires IsBlank(g) && s != "" && !IsSpace(s[|s| - 1])
    ensures TrimmedRight(s + g) == s
  {
    if g == "" {
      assert s + g == s;
    } else {
      assert g[|g| - 1] in g;
      TrimsRight(s, g[..|g| - 1]);
      assert (s + g)[..|s + g| - 1] == s + g[..|g| - 1];
    }
  }

  lemma PlainIsNoSpace(c: char)
    requires Plain(c)
    ensures !IsSpace(c) && c != '-'
  {
  }

  lemma {:induction false} TextEdges(words: seq<string>, gaps: seq<string>)
    requires FitClean(words, gaps)
    ensures var t := Text(words, gaps); t != "" && Plain(t[0]) && Plain(t[|t| - 1])
    decreases |gaps|
  {
    assert words[0] in words && words[0][0] in words[0] && words[0][|words[0]| - 1] in words[0];
    if gaps != [] {
      TextEdges(words[1..], gaps[1..]);
    }
  }

  lemma Trimmed(lead: string, s: string, trail: string)
    requires IsBlank(lead) && IsBlank(trail) && s != "" && Plain(s[0]) && Plain(s[|s| - 1])
    ensures TrimmedRight(TrimmedLeft(lead + s + trail)) == s
  {
    PlainIsNoSpace(s[0]);
    PlainIsNoSpace(s[|s| - 1]);
    assert lead + s + trail == lead + (s + trail);
    TrimsLeft(lead, s + trail);
    TrimsRight(s, trail);
  }

  // ----- hyphens -----

  lemma {:induction false} WordStays(w: string, rest: string, run: char -> bool, inRun: bool)
    requires w != "" && forall c | c in w :: !run(c)
    ensures Hyphenated(w + rest, run, inRun) == w + Hyphenated(rest, run, false)
    decreases |w|
  {
    assert w[0] in w;
    assert (w + rest)[1..] == w[1..] + rest;
    if |w| == 1 {
      assert w[1..] + rest == rest;
    } else {
      WordStays(w[1..], rest, run, false);
    }
  }

  /** A run before a character outside it. */
  lemma {:induction false} RunBecomesOne(g: string, rest: string, run: char -> bool, inRun: bool)
    requires (forall c | c in g :: run(c)) && (rest == "" || !run(rest[0]))
    ensures Hyphenated(g + rest, run, inRun)
         == (if g == "" || inRun then "" else "-") + Hyphenated(rest, run, false)
    decreases |g|
  {
    if g == "" {
      assert g + rest == rest;
    } else {
      assert g[0] in g;
      assert (g + rest)[1..] == g[1..] + rest;
      RunBecomesOne(g[1..], rest, run, true);
    }
  }

  /** White space and hyphens become hyphens. */
  lemma {:induction false} GapBecomesHyphens(g: string, rest: string, inRun: bool) returns (h: string)
    requires (forall c | c in g :: c == '-' || IsSpace(c)) && (rest == "" || !IsSpace(rest[0]))
    ensures Hyphenated(g + rest, IsSpace, inRun) == h + Hyphenated(rest, IsSpace, false)
    ensures (forall c | c in h :: c == '-') && (g != "" && !inRun ==> h != "")
    decreases |g|
  {
    if g == "" {
      assert g + rest == rest;
      h := "";
    } else {
      assert g[0] in g;
      assert (g + rest)[1..] == g[1..] + rest;
      var tail := GapBecomesHyphens(g[1..], rest, IsSpace(g[0]));
      var first := if IsSpace(g[0]) && inRun then "" else "-";
      Regrouped(first, tail, Hyphenated(rest, IsSpace, false));
      assert Hyphenated(g + rest, IsSpace, inRun) == first + Hyphenated(g[1..] + rest, IsSpace, IsSpace(g[0]));
      h := first + tail;
    }
  }

  predicate IsHyphens(g: string) {
    g != "" && forall c | c in g :: c == '-'
  }

  predicate FitHyphens(words: seq<string>, gaps: seq<string>) {
    && |words| == |gaps| + 1
    && (forall w | w in words :: IsWord(w))
    && (forall g | g in gaps :: IsHyphens(g))
  }

  lemma WordIsOutside(w: string)
    requires IsWord(w)
    ensures w != "" && forall c | c in w :: !IsSpace(c) && c != '-'
  {
    forall c | c in w ensures !IsSpace(c) && c != '-' {
      PlainIsNoSpace(c);
    }
  }

  lemma {:induction false} SpacesToHyphens(words: seq<string>, gaps: seq<string>) returns (hyphens: seq<string>)
    requires FitClean(words, gaps)
    ensures FitHyphens(words, hyphens) && Hyphenated(Text(words, gaps), IsSpace, false) == Text(words, hyphens)
    decreases |gaps|
  {
    WordIsOutside(words[0]);
    if gaps == [] {
      WordStays(words[0], "", IsSpace, false);
      assert words[0] + "" == words[0];
      hyphens := [];
    } else {
      var rest := Text(words[1..], gaps[1..]);
      var others := SpacesToHyphens(words[1..], gaps[1..]);
      TextEdges(words[1..], gaps[1..]);
      PlainIsNoSpace(rest[0]);
      WordStays(words[0], gaps[0] + rest, IsSpace, false);
      assert gaps[0] in gaps;
      var h := GapBecomesHyphens(gaps[0], rest, false);
      hyphens := [h] + others;
      assert hyphens[1..] == others;
      forall g | g in hyphens ensures IsHyphens(g) {
        assert g == h || g in others;
      }
    }
  }

  lemma {:induction false} HyphensToOne(words: seq<string>, gaps: seq<string>)
    requires FitHyphens(words, gaps)
    ensures Hyphenated(Text(words, gaps), IsHyphen, false) == Text(words, Hyphens(|gaps|))
    decreases |gaps|
  {
    assert words[0] in words;
    WordIsOutside(words[0]);
    if gaps == [] {
      WordStays(words[0], "", IsHyphen, false);
      assert words[0] + "" == words[0];
    } else {
      var rest := Text(words[1..], gaps[1..]);
      assert gaps[0] in gaps && FitHyphens(words[1..], gaps[1..]);
      HyphensToOne(words[1..], gaps[1..]);
      HyphenTextEdge(words[1..], gaps[1..]);
      WordStays(words[0], gaps[0] + rest, IsHyphen, false);
      RunBecomesOne(gaps[0], rest, IsHyphen, false);
      assert Hyphens(|gaps|)[1..] == Hyphens(|gaps| - 1);
    }
  }

  lemma HyphenTextEdge(words: seq<string>, gaps: seq<string>)
    requires FitHyphens(words, gaps)
    ensures Text(words, gaps) != "" && Text(words, gaps)[0] != '-'
  {
    assert words[0] in words;
    WordIsOutside(words[0]);
    assert words[0][0] in words[0];
  }

  /** A name whose folded text is words set apart, perhaps with something around them, becomes these words
      with single hyphens between them, up to seventy characters. */
  lemma WordsToSlug(fold: Folding, name: string, lead: string, words: seq<string>, gaps: seq<string>, trail: string)
    requires Fit(words, gaps) && IsEdge(lead) && IsEdge(trail)
    requires fold(name) == lead + Text(words, gaps) + trail
    ensures var s := Text(words, Hyphens(|gaps|));
            SlugifyAgencyName(fold, name) == if |s| > 70 then s[..70] else s
  {
    FilteredJoin(lead + Text(words, gaps), trail);
    FilteredJoin(lead, Text(words, gaps));
    FilteredEdge(lead);
    FilteredEdge(trail);
    var clean := FilteredText(words, gaps);
    TextEdges(words, clean);
    Trimmed(Filtered(lead), Text(words, clean), Filtered(trail));
    var hyphens := SpacesToHyphens(words, clean);
    HyphensToOne(words, hyphens);
  }

  /** A name without letters, digits and hyphens has an empty slug. */
  lemma NoWordsNoSlug(fold: Folding, name: string)
    requires IsEdge(fold(name))
    ensures SlugifyAgencyName(fold, name) == ""
  {
    FilteredEdge(fold(name));
    AllTrimmed(Filtered(fold(name)));
  }

  lemma {:induction false} AllTrimmed(g: string)
    requires IsBlank(g)
    ensures TrimmedLeft(g) == ""
  {
    if g != "" {
      assert g[0] in g;
      AllTrimmed(g[1..]);
    }
  }
}
