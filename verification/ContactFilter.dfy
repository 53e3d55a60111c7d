/**
 The contact filter replaces telephone numbers, names of messaging applications and addresses,
 one pattern after another. What is left matches none of the three patterns.
 */
module ContactFilter {
  import opened Characters
  import opened Wrappers
  import opened Patterns
  import opened Replacing

  datatype Pattern = Phone | App | Email

  function Marker(p: Pattern): string {
    match p
    case Phone => "[numéro " + "masqué]"
    case App => ("[appli" + "cation ") + "masquée]"
    case Email => "[email " + "masqué]"
  }

  /** The end of the match that begins at place `i`, if there is one. */
  function MatchEnd(p: Pattern, t: string, i: nat): (e: Option<nat>)
    ensures e.Some? ==> i < e.value <= |t|
  {
    match p
    case Phone => PhoneEnd(t, i, 0)
    case App => KeywordEnd(t, i, 0)
    case Email => EmailEnd(t, i)
  }

  function Ends(p: Pattern, t: string): (ends: Table)
    ensures TableOf(ends, t)
    ensures forall i | 0 <= i < |t| :: ends[i] == MatchEnd(p, t, i)
  {
    seq(|t|, i requires 0 <= i < |t| => MatchEnd(p, t, i))
  }

  /** No match begins anywhere in the text. */
  ghost predicate Clean(p: Pattern, t: string) {
    NoMatch(Ends(p, t))
  }

  function Pass(p: Pattern, t: string): string {
    Replaced(t, Ends(p, t), Marker(p), 0)
  }

  function Sanitized(raw: string): string {
    Pass(Email, Pass(App, Pass(Phone, raw)))
  }

  // ----- what a match can look like -----

  /** The first two letters of the keywords. */
  predicate KeywordPair(c: char, d: char) {
    || (c == 'w' && (d == 'h' || d == 'a')) || (c == 't' && d == 'e') || (c == 's' && d == 'i')
    || (c == 'm' && d == 'e') || (c == 'i' && d == 'm') || (c == 'v' && d == 'i')
  }

  lemma KeywordShape(k: nat)
    requires k < |KEYWORDS|
    ensures |KEYWORDS[k]| > 1 && KeywordPair(KEYWORDS[k][0], KEYWORDS[k][1])
    ensures forall c | c in KEYWORDS[k] :: 'a' <= c <= 'z'
  {
  }

  lemma KeywordLetters(t: string, i: nat, keyword: string)
    requires Spells(t, i, keyword) && forall c | c in keyword :: 'a' <= c <= 'z'
    ensures forall x | i <= x < i + |keyword| :: IsLetter(t[x])
  {
    forall x | i <= x < i + |keyword| ensures IsLetter(t[x]) {
      assert Lower(t[i + (x - i)]) == keyword[x - i] && keyword[x - i] in keyword;
    }
  }

  lemma AppMatch(t: string, i: nat) returns (k: nat)
    requires KeywordEnd(t, i, 0).Some?
    ensures k < |KEYWORDS| && KEYWORDS[k] != "" && KeywordAt(t, i, KEYWORDS[k])
    ensures KeywordEnd(t, i, 0).value == i + |KEYWORDS[k]|
    ensures forall x | i <= x < i + |KEYWORDS[k]| :: IsLetter(t[x])
  {
    k :| 0 <= k < |KEYWORDS| && KeywordAt(t, i, KEYWORDS[k]) && KeywordEnd(t, i, 0).value == i + |KEYWORDS[k]|;
    KeywordShape(k);
    KeywordLetters(t, i, KEYWORDS[k]);
  }

  lemma PhoneWord(t: string, i: nat) returns (w: string)
    requires PhoneEnd(t, i, 0).Some?
    ensures At(t, i, w) && i + |w| == PhoneEnd(t, i, 0).value && IsPhone(w)
    ensures forall c | c in w :: c != '['
  {
    w := t[i..PhoneEnd(t, i, 0).value];
    PhoneSound(t, i, w);
    forall c | c in w ensures c != '[' {
      var k :| 0 <= k < |w| && w[k] == c;
      PhoneChars(w, k);
    }
  }

  lemma EmailWord(t: string, i: nat) returns (w: string)
    requires EmailEnd(t, i).Some?
    ensures At(t, i, w) && i + |w| == EmailEnd(t, i).value && IsEmail(w)
    ensures forall c | c in w :: c != '['
    ensures i + |w| < |t| ==> !IsLetter(t[i + |w|])
  {
    w := t[i..EmailEnd(t, i).value];
    EmailSound(t, i, w);
    forall c | c in w ensures c != '[' {
      var k :| 0 <= k < |w| && w[k] == c;
      EmailChars(w, k);
    }
  }

  lemma NoBracketInWord(t: string, i: nat, w: string, k: nat)
    requires At(t, i, w) && i <= k < i + |w| && forall c | c in w :: c != '['
    ensures t[k] != '['
  {
    assert t[i + (k - i)] == w[k - i] && w[k - i] in w;
  }

  /** No match contains an opening bracket. */
  lemma NoBracketInMatch(p: Pattern, t: string, i: nat, k: nat)
    requires MatchEnd(p, t, i).Some? && i <= k < MatchEnd(p, t, i).value
    ensures t[k] != '['
  {
    match p
    case Phone =>
      var w := PhoneWord(t, i);
      NoBracketInWord(t, i, w, k);
    case App =>
      var j := AppMatch(t, i);
    case Email =>
      var w := EmailWord(t, i);
      NoBracketInWord(t, i, w, k);
  }

  // ----- no match begins inside a marker -----

  predicate NoSigns(m: string) {
    forall k | 0 <= k < |m| :: m[k] != '@' && m[k] != '+' && !IsDigit(m[k])
  }

  predicate NoPairs(m: string) {
    forall k | 0 < k < |m| :: !KeywordPair(Lower(m[k - 1]), Lower(m[k]))
  }

  predicate MarkerShape(m: string) {
    |m| > 1 && m[0] == '[' && m[|m| - 1] == ']' && NoSigns(m) && NoPairs(m)
  }

  predicate Piece(m: string) {
    m != "" && NoSigns(m) && NoPairs(m)
  }

  lemma Joined(m: string, n: string)
    requires Piece(m) && Piece(n) && !KeywordPair(Lower(m[|m| - 1]), Lower(n[0]))
    ensures Piece(m + n) && (m + n)[0] == m[0] && (m + n)[|m + n| - 1] == n[|n| - 1]
  {
  }

  lemma NumberSigns()
    ensures NoSigns("[numéro ")
  {
  }

  lemma NumberPairs()
    ensures NoPairs("[numéro ")
  {
  }

  lemma ApplicationSigns()
    ensures NoSigns("[appli")
  {
  }

  lemma ApplicationPairs()
    ensures NoPairs("[appli")
  {
  }

  lemma EndingSigns()
    ensures NoSigns("cation ")
  {
  }

  lemma EndingPairs()
    ensures NoPairs("cation ")
  {
  }

  lemma EmailSigns()
    ensures NoSigns("[email ")
  {
  }

  lemma EmailPairs()
    ensures NoPairs("[email ")
  {
  }

  lemma MaskedSigns()
    ensures NoSigns("masqué]")
  {
  }

  lemma MaskedPairs()
    ensures NoPairs("masqué]")
  {
  }

  lemma MaskedFeminineSigns()
    ensures NoSigns("masquée]")
  {
  }

  lemma MaskedFemininePairs()
    ensures NoPairs("masquée]")
  {
  }

  lemma MarkersShaped(p: Pattern)
    ensures MarkerShape(Marker(p))
  {
    match p
    case Phone =>
      NumberSigns();
      NumberPairs();
      MaskedSigns();
      MaskedPairs();
      Joined("[numéro ", "masqué]");
    case App =>
      ApplicationSigns();
      ApplicationPairs();
      EndingSigns();
      EndingPairs();
      MaskedFeminineSigns();
      MaskedFemininePairs();
      Joined("[appli", "cation ");
      Joined("[appli" + "cation ", "masquée]");
    case Email =>
      EmailSigns();
      EmailPairs();
      MaskedSigns();
      MaskedPairs();
      Joined("[email ", "masqué]");
  }

  lemma SpellsHead(t: string, i: nat, w: string)
    requires |w| > 1 && Spells(t, i, w)
    ensures i + 1 < |t| && Lower(t[i]) == w[0] && Lower(t[i + 1]) == w[1]
  {
    assert Lower(t[i + 0]) == w[0];
  }

  lemma NoKeywordInMarker(m: string, t: string, b: nat, x: nat)
    requires MarkerShape(m) && At(t, b, m) && b <= x < b + |m|
    ensures KeywordEnd(t, x, 0).None?
  {
    assert t[b + (x - b)] == m[x - b];
    if x + 1 < b + |m| {
      assert t[b + (x + 1 - b)] == m[x + 1 - b];
    }
    forall k | 0 <= k < |KEYWORDS| ensures !Spells(t, x, KEYWORDS[k]) {
      KeywordShape(k);
      if Spells(t, x, KEYWORDS[k]) {
        SpellsHead(t, x, KEYWORDS[k]);
      }
    }
  }

  lemma NoMatchInMarker(q: Pattern, m: string, t: string, b: nat, x: nat)
    requires MarkerShape(m) && At(t, b, m) && b <= x < b + |m|
    ensures MatchEnd(q, t, x).None?
  {
    assert t[b + (x - b)] == m[x - b];
    match q
    case Phone =>
    case App => NoKeywordInMarker(m, t, b, x);
    case Email =>
      var a, close := RunEnd(t, x, Local), b + |m| - 1;
      assert t[b + (close - b)] == m[close - b];
      assert a <= close;
      assert t[b + (a - b)] == m[a - b];
  }

  // ----- no new match begins in copied text -----

  lemma AtSlice(t: string, i: nat, w: string)
    ensures At(t, i, w) <==> i + |w| <= |t| && t[i..i + |w|] == w
  {
    if i + |w| <= |t| && t[i..i + |w|] == w {
      forall k | 0 <= k < |w| ensures t[i + k] == w[k] {
        assert t[i..i + |w|][k] == w[k];
      }
    }
  }

  lemma NotInside(u: string, x: nat, w: string)
    requires At(u, x, w) && forall c | c in w :: c != '['
    ensures x + |w| <= |u| && forall y | x <= y < x + |w| :: u[y] != '['
  {
    forall y | x <= y < x + |w| ensures u[y] != '[' {
      assert u[x + (y - x)] == w[y - x] && w[y - x] in w;
    }
  }

  lemma WordCopied(u: string, x: nat, t: string, ends: Table, m: string, i: nat, w: string)
    requires Continues(u, x, t, ends, m, i) && m != "" && m[0] == '['
    requires At(u, x, w) && forall c | c in w :: c != '['
    ensures At(t, i, w)
  {
    NotInside(u, x, w);
    Copied(u, x, t, ends, m, i, |w|);
    AtSlice(u, x, w);
    AtSlice(t, i, w);
  }

  /** The word that begins at a copied place of the output stands in the input. */
  lemma WordWasThere(p: Pattern, t: string, i: nat, u: string, x: nat, w: string)
    requires Continues(u, x, t, Ends(p, t), Marker(p), i)
    requires At(u, x, w) && forall c | c in w :: c != '['
    ensures At(t, i, w)
  {
    MarkersShaped(p);
    WordCopied(u, x, t, Ends(p, t), Marker(p), i, w);
  }

  lemma NoNewPhone(p: Pattern, t: string, i: nat, u: string, x: nat)
    requires Continues(u, x, t, Ends(p, t), Marker(p), i)
    requires PhoneEnd(t, i, 0).None?
    ensures PhoneEnd(u, x, 0).None?
  {
    if PhoneEnd(u, x, 0).Some? {
      var w := PhoneWord(u, x);
      WordWasThere(p, t, i, u, x, w);
      PhoneComplete(t, i, w);
    }
  }

  lemma NoNewEmail(p: Pattern, t: string, i: nat, u: string, x: nat)
    requires Continues(u, x, t, Ends(p, t), Marker(p), i)
    requires EmailEnd(t, i).None?
    ensures EmailEnd(u, x).None?
  {
    if EmailEnd(u, x).Some? {
      var w := EmailWord(u, x);
      WordWasThere(p, t, i, u, x, w);
      EmailComplete(t, i, w);
    }
  }

  /** Application names and addresses end where no letter follows. */
  lemma NoLetterAfter(p: Pattern, t: string, i: nat)
    requires !p.Phone? && MatchEnd(p, t, i).Some?
    ensures var e := MatchEnd(p, t, i).value; e < |t| ==> !IsLetter(t[e])
  {
    if p.App? {
      var k := AppMatch(t, i);
    } else {
      var w := EmailWord(t, i);
    }
  }

  lemma {:induction false} RunsJoin(t: string, i: nat, k: nat)
    requires i <= k <= |t| && Local.Fills(t, i, k)
    ensures RunEnd(t, i, Local) == RunEnd(t, k, Local)
    decreases k - i
  {
    if i == k {
    } else {
      RunsJoin(t, i + 1, k);
    }
  }

  /** After letters from `i` on where no match begins, no match begins either. */
  lemma NoMatchAfterLetters(p: Pattern, t: string, i: nat, e: nat)
    requires !p.Phone? && i < e < |t| && MatchEnd(p, t, i).None?
    requires forall x | i <= x < e :: IsLetter(t[x])
    ensures MatchEnd(p, t, e).None?
  {
    match p
    case Phone =>
    case App => assert IsLetter(t[e - 1]) && !WordStarts(t, e);
    case Email => RunsJoin(t, i, e);
  }

  lemma SpellsWithin(t: string, i: nat, w: string)
    ensures Spells(t, i, w) <==> i + |w| <= |t| && Spells(t[i..i + |w|], 0, w)
  {
  }

  lemma SpelledThere(u: string, x: nat, t: string, ends: Table, m: string, i: nat, w: string)
    requires Continues(u, x, t, ends, m, i) && m != "" && m[0] == '['
    requires Spells(u, x, w) && forall y | x <= y < x + |w| :: IsLetter(u[y])
    ensures Spells(t, i, w) && forall y | i <= y < i + |w| :: IsLetter(t[y])
    ensures Continues(u, x + |w|, t, ends, m, i + |w|)
  {
    Copied(u, x, t, ends, m, i, |w|);
    SpellsWithin(u, x, w);
    SpellsWithin(t, i, w);
    forall y | i <= y < i + |w| ensures IsLetter(t[y]) {
      assert t[y] == t[i..i + |w|][y - i] == u[x..x + |w|][y - i] == u[x + (y - i)];
    }
  }

  /** A name that begins at a copied place: its letters are copied, no match begins after them, and
      what stands before it is no part of a word. */
  lemma NameCopied(u: string, x: nat, t: string, ends: Table, m: string, i: nat, w: string)
    requires Continues(u, x, t, ends, m, i) && m != "" && m[0] == '[' && w != ""
    requires KeywordAt(u, x, w) && forall y | x <= y < x + |w| :: IsLetter(u[y])
    requires forall e | i < e < |t| && (forall y | i <= y < e :: IsLetter(t[y])) :: ends[e].None?
    requires i < |t| && IsLetter(t[i]) ==> WordStarts(t, i)
    ensures KeywordAt(t, i, w)
  {
    SpelledThere(u, x, t, ends, m, i, w);
    EndsThere(u, x + |w|, t, ends, m, i + |w|);
  }

  /** A name in the output at a copied place was a name in the input. */
  lemma NameWasThere(p: Pattern, t: string, i: nat, u: string, x: nat, w: string)
    requires !p.Phone? && i < |t| && MatchEnd(p, t, i).None? && w != ""
    requires Continues(u, x, t, Ends(p, t), Marker(p), i) && Joint(u, x, t, Ends(p, t), i)
    requires KeywordAt(u, x, w) && forall y | x <= y < x + |w| :: IsLetter(u[y])
    ensures KeywordAt(t, i, w)
  {
    var ends, m := Ends(p, t), Marker(p);
    forall e | i < e < |t| && (forall y | i <= y < e :: IsLetter(t[y])) ensures ends[e].None? {
      NoMatchAfterLetters(p, t, i, e);
    }
    if IsLetter(t[i]) {
      StartsAlike(p, t, i, u, x);
    }
    MarkersShaped(p);
    NameCopied(u, x, t, ends, m, i, w);
  }

  lemma StartsAlike(p: Pattern, t: string, i: nat, u: string, x: nat)
    requires !p.Phone? && i < |t| && x <= |u| && Joint(u, x, t, Ends(p, t), i) && IsLetter(t[i])
    ensures WordStarts(u, x) ==> WordStarts(t, i)
  {
    if k :| 0 <= k < |t| && Ends(p, t)[k] == Some(i) {
      NoLetterAfter(p, t, k);
    }
  }

  lemma NoNewName(p: Pattern, t: string, i: nat, u: string, x: nat)
    requires !p.Phone? && i < |t| && MatchEnd(p, t, i).None? && KeywordEnd(t, i, 0).None?
    requires Continues(u, x, t, Ends(p, t), Marker(p), i) && Joint(u, x, t, Ends(p, t), i)
    ensures KeywordEnd(u, x, 0).None?
  {
    if KeywordEnd(u, x, 0).Some? {
      var k := AppMatch(u, x);
      NameWasThere(p, t, i, u, x, KEYWORDS[k]);
    }
  }

  // ----- the normal form -----

  /** The pass of `p` keeps `q` out: its own pattern, and one that was out before. Only the names of
      applications depend on what surrounds them; their pass comes after that of the numbers. */
  lemma PassKeepsOut(q: Pattern, p: Pattern, t: string)
    requires q == p || Clean(q, t)
    requires q.App? ==> !p.Phone?
    ensures Clean(q, Pass(p, t))
  {
    var u, ends, m := Pass(p, t), Ends(p, t), Marker(p);
    assert u[0..] == u;
    MarkersShaped(p);
    forall x | 0 <= x < |u| ensures MatchEnd(q, u, x).None? {
      var inMarker, place := Origin(u, 0, t, ends, m, 0, x);
      if inMarker {
        NoMatchInMarker(q, m, u, place, x);
      } else {
        assert MatchEnd(p, t, place).None? && Ends(q, t)[place] == MatchEnd(q, t, place);
        match q
        case Phone => NoNewPhone(p, t, place, u, x);
        case App => NoNewName(p, t, place, u, x);
        case Email => NoNewEmail(p, t, place, u, x);
      }
    }
  }

  /** The output matches none of the three patterns. */
  lemma OutputIsClean(raw: string)
    ensures forall p :: Clean(p, Sanitized(raw))
  {
    var a := Pass(Phone, raw);
    var b := Pass(App, a);
    PassKeepsOut(Phone, Phone, raw);
    PassKeepsOut(Phone, App, a);
    PassKeepsOut(App, App, a);
    PassKeepsOut(Phone, Email, b);
    PassKeepsOut(App, Email, b);
    PassKeepsOut(Email, Email, b);
    forall p ensures Clean(p, Sanitized(raw)) {
      match p case Phone => case App => case Email =>
    }
  }

  lemma CleanAt(p: Pattern, t: string, i: nat)
    requires Clean(p, t) && i < |t|
    ensures MatchEnd(p, t, i).None?
  {
    assert Ends(p, t)[i].None?;
  }

  lemma NoPhoneStands(t: string, i: nat, w: string)
    requires PhoneEnd(t, i, 0).None? && At(t, i, w)
    ensures !IsPhone(w)
  {
    if IsPhone(w) {
      PhoneComplete(t, i, w);
    }
  }

  lemma NoEmailStands(t: string, i: nat, w: string)
    requires EmailEnd(t, i).None? && At(t, i, w)
    ensures !IsEmail(w)
  {
    if IsEmail(w) {
      EmailComplete(t, i, w);
    }
  }

  /** In words: no telephone number, no address and no name of an application on its own stands
      anywhere in a text in which the patterns find nothing. */
  lemma NothingStands(t: string, i: nat, w: string)
    requires i < |t| && At(t, i, w) && Clean(Phone, t) && Clean(App, t) && Clean(Email, t)
    ensures !IsPhone(w) && !IsEmail(w)
    ensures forall k | 0 <= k < |KEYWORDS| :: !KeywordAt(t, i, KEYWORDS[k])
  {
    CleanAt(Phone, t, i);
    CleanAt(App, t, i);
    CleanAt(Email, t, i);
    NoPhoneStands(t, i, w);
    NoEmailStands(t, i, w);
  }

  lemma NoContactStands(raw: string, i: nat, w: string)
    requires i < |Sanitized(raw)| && At(Sanitized(raw), i, w)
    ensures !IsPhone(w) && !IsEmail(w)
    ensures forall k | 0 <= k < |KEYWORDS| :: !KeywordAt(Sanitized(raw), i, KEYWORDS[k])
  {
    OutputIsClean(raw);
    NothingStands(Sanitized(raw), i, w);
  }

  lemma CleanPasses(p: Pattern, t: string)
    requires Clean(p, t)
    ensures Pass(p, t) == t
  {
    NothingReplaced(t, Ends(p, t), Marker(p), 0);
  }

  /** A second pass changes nothing. */
  lemma SanitizedTwice(raw: string)
    ensures Sanitized(Sanitized(raw)) == Sanitized(raw)
  {
    OutputIsClean(raw);
    CleanPasses(Phone, Sanitized(raw));
    CleanPasses(App, Sanitized(raw));
    CleanPasses(Email, Sanitized(raw));
  }

  /** Some pass over the text finds something. */
  ghost predicate Filters(raw: string) {
    !Clean(Phone, raw) || !Clean(App, Pass(Phone, raw)) || !Clean(Email, Pass(App, Pass(Phone, raw)))
  }

  lemma FiltersIffChanges(raw: string)
    ensures Filters(raw) <==> Sanitized(raw) != raw
  {
    if !Filters(raw) {
      CleanPasses(Phone, raw);
      CleanPasses(App, raw);
      CleanPasses(Email, raw);
    } else {
      OutputIsClean(raw);
      if Clean(Phone, raw) {
        CleanPasses(Phone, raw);
        if Clean(App, raw) {
          CleanPasses(App, raw);
        }
      }
    }
  }

  // ----- the markers that are counted later -----

  lemma MarkerSurvives(p: Pattern, t: string, q: Pattern)
    requires Contains(t, Marker(q))
    ensures Contains(Pass(p, t), Marker(q))
  {
    var k: nat :| At(t, k, Marker(q));
    MarkersShaped(q);
    forall x | k <= x < k + |Marker(q)| ensures Ends(p, t)[x].None? {
      NoMatchInMarker(p, Marker(q), t, k, x);
    }
    forall i, x | 0 <= i <= x < |t| && Ends(p, t)[i].Some? && x < Ends(p, t)[i].value ensures t[x] != '[' {
      NoBracketInMatch(p, t, i, x);
    }
    Survives(t, Ends(p, t), Marker(p), 0, Marker(q), k);
  }

  lemma PassLeavesMarker(p: Pattern, t: string)
    requires !Clean(p, t)
    ensures Contains(Pass(p, t), Marker(p))
  {
    var k :| 0 <= k < |t| && Ends(p, t)[k].Some?;
    FoundLeavesMarker(t, Ends(p, t), Marker(p), 0, k);
  }

  /** Whatever a pass replaced, its marker is in the output. */
  lemma MarkersSurvive(raw: string)
    ensures !Clean(Phone, raw) ==> Contains(Sanitized(raw), Marker(Phone))
    ensures !Clean(App, Pass(Phone, raw)) ==> Contains(Sanitized(raw), Marker(App))
    ensures !Clean(Email, Pass(App, Pass(Phone, raw))) ==> Contains(Sanitized(raw), Marker(Email))
  {
    var a := Pass(Phone, raw);
    var b := Pass(App, a);
    if !Clean(Phone, raw) {
      PassLeavesMarker(Phone, raw);
      MarkerSurvives(App, a, Phone);
      MarkerSurvives(Email, b, Phone);
    }
    if !Clean(App, a) {
      PassLeavesMarker(App, a);
      MarkerSurvives(Email, b, App);
    }
    if !Clean(Email, b) {
      PassLeavesMarker(Email, b);
    }
  }

  // ----- the code -----

  method SanitizeContactInfo(raw: string) returns (content: string, wasFiltered: bool)
    ensures content == Sanitized(raw)
    ensures forall p :: Clean(p, content)
    ensures wasFiltered <==> content != raw
    ensures wasFiltered ==> exists p :: Contains(content, Marker(p))
  {
    wasFiltered := false;
    var found;
    content, found := ReplaceAll(raw, Ends(Phone, raw), Marker(Phone));
    wasFiltered := wasFiltered || found;
    content, found := ReplaceAll(content, Ends(App, content), Marker(App));
    wasFiltered := wasFiltered || found;
    content, found := ReplaceAll(content, Ends(Email, content), Marker(Email));
    wasFiltered := wasFiltered || found;
    OutputIsClean(raw);
    FiltersIffChanges(raw);
    MarkersSurvive(raw);
  }
}
