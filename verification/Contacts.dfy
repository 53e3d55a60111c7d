/**
 What a contact is, character by character, and what becomes of a message that has one: the patterns
 of the filter described without the matcher that finds them.
 */
module Contacts {
  import opened Characters
  import opened ContactFilter
  import opened Patterns
  import opened Replacing
  import opened Wrappers

  predicate DigitChar(c: char) {
    '0' <= c <= '9'
  }

  predicate LetterChar(c: char) {
    'a' <= c <= 'z' || 'A' <= c <= 'Z'
  }

  predicate WordChar(c: char) {
    LetterChar(c) || DigitChar(c) || c == '_'
  }

  /** White space, by its codes. */
  predicate Blank(c: char) {
    var n := c as int;
    || 9 <= n <= 13 || n == 32 || n == 0xA0 || n == 0x1680 || 0x2000 <= n <= 0x200A
    || n == 0x2028 || n == 0x2029 || n == 0x202F || n == 0x205F || n == 0x3000 || n == 0xFEFF
  }

  predicate Separates(c: char) {
    Blank(c) || c == '.' || c == '-'
  }

  lemma SeparatorIff(c: char)
    ensures IsSeparator(c) <==> Separates(c)
    ensures Separates(c) ==> !DigitChar(c) && c != '+'
  {
  }

  // ----- numbers -----

  /** How many digits stand in the word from place `i` on. */
  function DigitsFrom(w: string, i: nat): nat
    requires i <= |w|
    decreases |w| - i
  {
    if i == |w| then 0 else (if DigitChar(w[i]) then 1 else 0) + DigitsFrom(w, i + 1)
  }

  /** At place `k` of a number that begins at `i`: a digit, a plus sign in front of one, or a single
      separator behind one. */
  predicate Fits(w: string, i: nat, k: nat)
    requires i <= k < |w|
  {
    || DigitChar(w[k])
    || (w[k] == '+' && k + 1 < |w| && DigitChar(w[k + 1]))
    || (Separates(w[k]) && i < k && DigitChar(w[k - 1]))
  }

  /** All characters from place `i` on fit, and the last one is a digit without a plus sign. */
  predicate NumberShape(w: string, i: nat) {
    && i < |w|
    && DigitChar(w[|w| - 1]) && (i < |w| - 1 ==> w[|w| - 2] != '+')
    && forall k | i <= k < |w| :: Fits(w, i, k)
  }

  /** A telephone number: of this shape, with nine digits or more. */
  predicate IsNumber(w: string) {
    NumberShape(w, 0) && DigitsFrom(w, 0) >= 9
  }

  lemma {:induction false} UnitsHaveShape(w: string, i: nat, n: nat)
    requires Units(w, i, n)
    ensures NumberShape(w, i) && DigitsFrom(w, i) == n + 1
    decreases n
  {
    if n == 0 {
    } else {
      var j :| IsUnit(w, i, j) && Units(w, j, n - 1);
      UnitsHaveShape(w, j, n - 1);
      OneDigit(w, i, j);
      UnitInFront(w, i, j);
    }
  }

  lemma OneDigit(w: string, i: nat, j: nat)
    requires IsUnit(w, i, j)
    ensures DigitsFrom(w, i) == 1 + DigitsFrom(w, j)
  {
    var d := if w[i] == '+' then i + 1 else i;
    assert DigitsFrom(w, d) == 1 + DigitsFrom(w, d + 1);
  }

  lemma FitsEarlier(w: string, i: nat, j: nat, k: nat)
    requires i <= j <= k < |w| && Fits(w, j, k)
    ensures Fits(w, i, k)
  {
  }

  lemma FitsLater(w: string, i: nat, j: nat, k: nat)
    requires i <= j <= k < |w| && Fits(w, i, k) && (k == j ==> !Separates(w[k]))
    ensures Fits(w, j, k)
  {
  }

  lemma UnitFits(w: string, i: nat, j: nat, k: nat)
    requires IsUnit(w, i, j) && i <= k < j
    ensures Fits(w, i, k)
  {
    SeparatorIff(w[k]);
  }

  lemma UnitInFront(w: string, i: nat, j: nat)
    requires IsUnit(w, i, j) && NumberShape(w, j)
    ensures NumberShape(w, i)
  {
    forall k | i <= k < |w| ensures Fits(w, i, k) {
      if k < j {
        UnitFits(w, i, j, k);
      } else {
        FitsEarlier(w, i, j, k);
      }
    }
    UnitEndsWell(w, i, j);
  }

  lemma UnitEndsWell(w: string, i: nat, j: nat)
    requires IsUnit(w, i, j) && j < |w|
    ensures w[j - 1] != '+'
  {
    SeparatorIff(w[j - 1]);
  }

  /** What is left of a number behind a place where no separator stands. */
  lemma ShapeLater(w: string, i: nat, j: nat)
    requires NumberShape(w, i) && i <= j < |w| && !Separates(w[j])
    ensures NumberShape(w, j)
  {
    forall k | j <= k < |w| ensures Fits(w, j, k) {
      FitsLater(w, i, j, k);
    }
  }

  /** Where the first digit of a number stands. */
  lemma DigitFirst(w: string, i: nat) returns (d: nat)
    requires NumberShape(w, i)
    ensures d == (if w[i] == '+' then i + 1 else i) && d < |w| && DigitChar(w[d])
    ensures DigitsFrom(w, i) == 1 + DigitsFrom(w, d + 1)
  {
    d := if w[i] == '+' then i + 1 else i;
    assert Fits(w, i, i);
    assert DigitsFrom(w, i) == DigitsFrom(w, d);
  }

  /** The unit in front of a number that has more than one digit. */
  lemma FirstUnit(w: string, i: nat) returns (j: nat)
    requires NumberShape(w, i) && DigitsFrom(w, i) > 1
    ensures IsUnit(w, i, j) && NumberShape(w, j)
  {
    var d := DigitFirst(w, i);
    assert d + 1 < |w|;
    SeparatorIff(w[d + 1]);
    if Separates(w[d + 1]) {
      j := d + 2;
      assert d + 2 < |w|;
      assert Fits(w, i, d + 2);
    } else {
      j := d + 1;
    }
    ShapeLater(w, i, j);
  }

  lemma {:induction false} ShapeHasUnits(w: string, i: nat, n: nat)
    requires NumberShape(w, i) && DigitsFrom(w, i) == n + 1
    ensures Units(w, i, n)
    decreases n
  {
    if n == 0 {
      LastIsDigit(w, i);
    } else {
      var j := FirstUnit(w, i);
      OneDigit(w, i, j);
      ShapeHasUnits(w, j, n - 1);
    }
  }

  lemma LastIsDigit(w: string, i: nat)
    requires NumberShape(w, i) && DigitsFrom(w, i) == 1
    ensures i + 1 == |w|
  {
    var d := DigitFirst(w, i);
    if d + 1 < |w| {
      SomeDigit(w, d + 1);
    }
  }

  lemma {:induction false} SomeDigit(w: string, i: nat)
    requires i < |w| && DigitChar(w[|w| - 1])
    ensures DigitsFrom(w, i) > 0
    decreases |w| - i
  {
    if i + 1 < |w| {
      SomeDigit(w, i + 1);
    }
  }

  /** The pattern of numbers describes exactly these words. */
  lemma NumberExact(w: string)
    ensures IsPhone(w) <==> IsNumber(w)
  {
    if IsPhone(w) {
      var n :| n >= MIN_UNITS && Units(w, 0, n);
      UnitsHaveShape(w, 0, n);
    }
    if IsNumber(w) {
      ShapeHasUnits(w, 0, DigitsFrom(w, 0) - 1);
    }
  }

  lemma {:induction false} AllAreDigits(w: string, i: nat)
    requires i <= |w| && forall k | i <= k < |w| :: DigitChar(w[k])
    ensures DigitsFrom(w, i) == |w| - i
    decreases |w| - i
  {
    if i < |w| {
      AllAreDigits(w, i + 1);
    }
  }

  /** Nine digits in a row are a number. */
  lemma DigitsAreNumber(w: string)
    requires |w| >= 9 && forall k | 0 <= k < |w| :: '0' <= w[k] <= '9'
    ensures IsNumber(w)
  {
    AllAreDigits(w, 0);
  }

  // ----- names and addresses -----

  predicate IsName(name: string) {
    name in {"whatsapp", "wapp", "telegram", "signal", "messenger", "imo", "viber"}
  }

  /** The word, in capitals or not, on its own at place `i`. */
  predicate StandsAlone(t: string, i: nat, name: string) {
    && i + |name| <= |t|
    && (forall k | 0 <= k < |name| :: t[i + k] == name[k] || t[i + k] as int + 32 == name[k] as int)
    && (i > 0 ==> !WordChar(t[i - 1]))
    && (i + |name| < |t| ==> !WordChar(t[i + |name|]))
  }

  predicate LocalChar(c: char) {
    LetterChar(c) || DigitChar(c) || c == '.' || c == '_' || c == '%' || c == '+' || c == '-'
  }

  predicate DomainChar(c: char) {
    LetterChar(c) || DigitChar(c) || c == '.' || c == '-'
  }

  /** The at sign stands at `a`, and behind the dot at `d` there are two letters or more. */
  predicate AddressParts(w: string, a: nat, d: nat) {
    && 0 < a && a + 1 < d && d + 3 <= |w|
    && w[a] == '@' && w[d] == '.'
    && (forall k | 0 <= k < a :: LocalChar(w[k]))
    && (forall k | a < k < d :: DomainChar(w[k]))
    && (forall k | d < k < |w| :: LetterChar(w[k]))
  }

  ghost predicate IsAddress(w: string) {
    exists a: nat, d: nat :: AddressParts(w, a, d)
  }

  lemma AddressExact(w: string)
    ensures IsEmail(w) <==> IsAddress(w)
  {
    forall a: nat, d: nat ensures EmailParts(w, a, d) <==> AddressParts(w, a, d) {
    }
    if IsEmail(w) {
      var a: nat, d: nat :| EmailParts(w, a, d);
      assert AddressParts(w, a, d);
    }
    if IsAddress(w) {
      var a: nat, d: nat :| AddressParts(w, a, d);
      assert EmailParts(w, a, d);
    }
  }

  lemma KeywordsAre(name: string)
    ensures IsName(name) <==> exists k :: 0 <= k < |KEYWORDS| && KEYWORDS[k] == name
  {
    assert KEYWORDS[0] == "whatsapp" && KEYWORDS[1] == "wapp" && KEYWORDS[2] == "telegram" && KEYWORDS[3] == "signal";
    assert KEYWORDS[4] == "messenger" && KEYWORDS[5] == "imo" && KEYWORDS[6] == "viber";
  }

  /** In capitals or not. */
  lemma LetterIff(c: char, lower: char)
    requires 'a' <= lower <= 'z'
    ensures Lower(c) == lower <==> c == lower || c as int + 32 == lower as int
  {
  }

  lemma SpellsIff(t: string, i: nat, name: string)
    requires forall c | c in name :: 'a' <= c <= 'z'
    ensures Spells(t, i, name)
       <==> i + |name| <= |t|
            && forall k | 0 <= k < |name| :: t[i + k] == name[k] || t[i + k] as int + 32 == name[k] as int
  {
    if i + |name| <= |t| {
      forall k | 0 <= k < |name|
        ensures Lower(t[i + k]) == name[k] <==> t[i + k] == name[k] || t[i + k] as int + 32 == name[k] as int
      {
        assert name[k] in name;
        LetterIff(t[i + k], name[k]);
      }
    }
  }

  lemma StandsIff(t: string, i: nat, name: string)
    requires forall c | c in name :: 'a' <= c <= 'z'
    ensures StandsAlone(t, i, name) <==> KeywordAt(t, i, name)
  {
    SpellsIff(t, i, name);
  }

  // ----- what stands in a text -----

  ghost predicate HasNumber(t: string) {
    exists i: nat, j: nat :: i <= j <= |t| && IsNumber(t[i..j])
  }

  ghost predicate HasName(t: string) {
    exists i: nat, name :: StandsAlone(t, i, name) && IsName(name)
  }

  ghost predicate HasAddress(t: string) {
    exists i: nat, j: nat :: i <= j <= |t| && IsAddress(t[i..j])
  }

  lemma NumberFound(t: string)
    ensures Clean(Phone, t) <==> !HasNumber(t)
  {
    if HasNumber(t) {
      var i: nat, j: nat :| i <= j <= |t| && IsNumber(t[i..j]);
      NumberExact(t[i..j]);
      AtSlice(t, i, t[i..j]);
      PhoneComplete(t, i, t[i..j]);
      assert Ends(Phone, t)[i].Some?;
    }
    if !Clean(Phone, t) {
      var i :| 0 <= i < |t| && Ends(Phone, t)[i].Some?;
      var w := PhoneWord(t, i);
      AtSlice(t, i, w);
      NumberExact(w);
      assert t[i..i + |w|] == w;
    }
  }

  lemma AddressFound(t: string)
    ensures Clean(Email, t) <==> !HasAddress(t)
  {
    if HasAddress(t) {
      var i: nat, j: nat :| i <= j <= |t| && IsAddress(t[i..j]);
      AddressExact(t[i..j]);
      AtSlice(t, i, t[i..j]);
      EmailComplete(t, i, t[i..j]);
      assert Ends(Email, t)[i].Some?;
    }
    if !Clean(Email, t) {
      var i :| 0 <= i < |t| && Ends(Email, t)[i].Some?;
      var w := EmailWord(t, i);
      AtSlice(t, i, w);
      AddressExact(w);
      assert t[i..i + |w|] == w;
    }
  }

  lemma NameFound(t: string)
    ensures Clean(App, t) <==> !HasName(t)
  {
    if HasName(t) {
      var i: nat, name :| StandsAlone(t, i, name) && IsName(name);
      KeywordsAre(name);
      var k :| 0 <= k < |KEYWORDS| && KEYWORDS[k] == name;
      KeywordShape(k);
      StandsIff(t, i, name);
      assert Ends(App, t)[i].Some?;
    }
    if !Clean(App, t) {
      var i :| 0 <= i < |t| && Ends(App, t)[i].Some?;
      var k := AppMatch(t, i);
      KeywordShape(k);
      KeywordsAre(KEYWORDS[k]);
      StandsIff(t, i, KEYWORDS[k]);
    }
  }

  // ----- the filter -----

  lemma PhoneMarker()
    ensures Marker(Phone) == "[numéro masqué]"
  {
  }

  lemma AppMarker()
    ensures Marker(App) == "[application masquée]"
  {
  }

  lemma EmailMarker()
    ensures Marker(Email) == "[email masqué]"
  {
  }

  /** The markers, which the service of messages counts. */
  lemma MarkerTexts()
    ensures Marker(Phone) == "[numéro masqué]"
    ensures Marker(App) == "[application masquée]"
    ensures Marker(Email) == "[email masqué]"
  {
    PhoneMarker();
    AppMarker();
    EmailMarker();
  }

  /** A message is changed if and only if a number, a name or an address stands in it. */
  lemma ChangedExactly(raw: string)
    ensures Sanitized(raw) != raw <==> HasNumber(raw) || HasName(raw) || HasAddress(raw)
  {
    FiltersIffChanges(raw);
    NumberFound(raw);
    NameFound(raw);
    AddressFound(raw);
    if Clean(Phone, raw) {
      CleanPasses(Phone, raw);
      if Clean(App, raw) {
        CleanPasses(App, raw);
      }
    }
  }

  /** No number, name or address is left. */
  lemma NothingLeft(raw: string)
    ensures var t := Sanitized(raw); !HasNumber(t) && !HasName(t) && !HasAddress(t)
  {
    OutputIsClean(raw);
    NumberFound(Sanitized(raw));
    NameFound(Sanitized(raw));
    AddressFound(Sanitized(raw));
  }

  /** What has been taken out is told: of numbers; of names in what is left without numbers; of addresses
      in what is left without either. */
  lemma Told(raw: string)
    ensures HasNumber(raw) ==> Contains(Sanitized(raw), Marker(Phone))
    ensures !HasNumber(raw) && HasName(raw) ==> Contains(Sanitized(raw), Marker(App))
    ensures !HasNumber(raw) && !HasName(raw) && HasAddress(raw) ==> Contains(Sanitized(raw), Marker(Email))
  {
    MarkersSurvive(raw);
    NumberFound(raw);
    NameFound(raw);
    AddressFound(raw);
    if Clean(Phone, raw) {
      CleanPasses(Phone, raw);
      if Clean(App, raw) {
        CleanPasses(App, raw);
      }
    }
  }

  // ----- a number and the text around it -----

  lemma {:induction false} NoUnitsWithoutDigit(t: string, i: nat, seen: nat)
    requires forall k | i <= k < |t| :: !DigitChar(t[k])
    ensures PhoneEnd(t, i, seen).None?
    decreases |t| - i
  {
  }

  /** A match that begins before the text behind a number ends before it, if there is no digit in it. */
  lemma {:induction false} EndsInTime(t: string, i: nat, seen: nat, n: nat)
    requires n <= |t| && forall k | n <= k < |t| :: !DigitChar(t[k])
    ensures PhoneEnd(t, i, seen).Some? ==> PhoneEnd(t, i, seen).value <= n
    decreases |t| - i
  {
    var unit := UnitEnd(t, i);
    if unit.Some? {
      EndsInTime(t, unit.value, seen + 1, n);
    }
  }

  /** Where the text before the number has neither digit nor plus sign, no match begins in it. */
  lemma NothingBefore(t: string, i: nat)
    requires i < |t| && !DigitChar(t[i]) && t[i] != '+'
    ensures PhoneEnd(t, i, 0).None?
  {
  }

  /** Of a text around a number, nothing but the number is replaced by the first pass. */
  lemma OnlyTheNumber(a: string, w: string, b: string)
    requires IsNumber(w) && forall k | 0 <= k < |b| :: !DigitChar(b[k])
    requires forall k | 0 <= k < |a| :: !DigitChar(a[k]) && a[k] != '+'
    ensures Pass(Phone, a + w + b) == a + Marker(Phone) + b
  {
    var t := a + w + b;
    var ends, m := Ends(Phone, t), Marker(Phone);
    var i, j := |a|, |a| + |w|;
    NumberExact(w);
    AtSlice(t, i, w);
    assert t[i..j] == w && t[..i] == a && t[j..] == b;
    PhoneComplete(t, i, w);
    forall k | j <= k < |t| ensures !DigitChar(t[k]) {
      assert t[k] == b[k - j];
    }
    EndsInTime(t, i, 0, j);
    forall k | 0 <= k < i ensures ends[k].None? {
      NothingBefore(t, k);
    }
    forall k | j <= k < |t| ensures ends[k].None? {
      NoUnitsWithoutDigit(t, k, 0);
    }
    AroundOne(t, ends, m, i, j);
  }

  lemma AroundOne(t: string, ends: Table, m: string, i: nat, j: nat)
    requires TableOf(ends, t) && i < j <= |t| && ends[i] == Some(j)
    requires forall k | 0 <= k < |t| && !(i <= k < j) :: ends[k].None?
    ensures Replaced(t, ends, m, 0) == t[..i] + m + t[j..]
  {
    NotMatchedIsKept(t, ends, m, 0, i);
    NotMatchedIsKept(t, ends, m, j, |t| - j);
    assert t[j..j + (|t| - j)] == t[j..] && t[0..0 + i] == t[..i];
    ThreeParts(t[..i], m, t[j..], Replaced(t, ends, m, 0), Replaced(t, ends, m, i), Replaced(t, ends, m, j));
  }

  lemma ThreeParts(a: string, m: string, b: string, all: string, fromM: string, fromB: string)
    requires all == a + fromM && fromM == m + fromB && fromB == b + ""
    ensures all == a + m + b
  {
  }

  /** If the rest has neither name nor address, the message reads as before, but for the number. */
  lemma ReadsAsBefore(a: string, w: string, b: string)
    requires IsNumber(w) && forall k | 0 <= k < |b| :: !DigitChar(b[k])
    requires forall k | 0 <= k < |a| :: !DigitChar(a[k]) && a[k] != '+'
    requires var t := a + Marker(Phone) + b; !HasName(t) && !HasAddress(t)
    ensures Sanitized(a + w + b) == a + Marker(Phone) + b
  {
    var t := a + Marker(Phone) + b;
    OnlyTheNumber(a, w, b);
    NameFound(t);
    AddressFound(t);
    CleanPasses(App, t);
    CleanPasses(Email, t);
  }

  lemma MarkerIsClean(p: Pattern, q: Pattern)
    ensures Clean(q, Marker(p))
  {
    var m := Marker(p);
    MarkersShaped(p);
    forall x | 0 <= x < |m| ensures MatchEnd(q, m, x).None? {
      NoMatchInMarker(q, m, m, 0, x);
    }
  }

  /** A message that is a number becomes the marker of numbers. */
  lemma NumberAlone(w: string)
    requires IsNumber(w)
    ensures Sanitized(w) == Marker(Phone)
  {
    OnlyTheNumber("", w, "");
    assert "" + w + "" == w && "" + Marker(Phone) + "" == Marker(Phone);
    MarkerIsClean(Phone, App);
    MarkerIsClean(Phone, Email);
    CleanPasses(App, Marker(Phone));
    CleanPasses(Email, Marker(Phone));
  }
}
