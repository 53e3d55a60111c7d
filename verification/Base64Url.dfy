/**
 The base64url encoding of section 5 of RFC 4648, without padding as section 3.2 allows. Bytes and
 letters meet in a stream of bit pairs: a byte is four of them, a letter three.
 */
module Base64Url {
  import opened Wrappers

  type Octet = n: nat | n < 256
  type Pair = n: nat | n < 4

  datatype Byte = Byte(a: Pair, b: Pair, c: Pair, d: Pair) {
    function Value(): Octet { ((a * 4 + b) * 4 + c) * 4 + d }

    function Pairs(): seq<Pair> { [a, b, c, d] }
  }

  datatype Sextet = Sextet(a: Pair, b: Pair, c: Pair) {
    function Value(): nat { (a * 4 + b) * 4 + c }

    function Pairs(): seq<Pair> { [a, b, c] }
  }

  function ByteOf(n: Octet): Byte {
    Byte(n / 4 / 4 / 4, n / 4 / 4 % 4, n / 4 % 4, n % 4)
  }

  function SextetOf(n: nat): Sextet
    requires n < 64
  {
    Sextet(n / 4 / 4, n / 4 % 4, n % 4)
  }

  // ----- letters -----

  predicate UrlSafe(c: char) {
    'A' <= c <= 'Z' || 'a' <= c <= 'z' || '0' <= c <= '9' || c == '-' || c == '_'
  }

  function Letter(v: Sextet): (c: char)
    ensures UrlSafe(c)
  {
    var n := v.Value();
    if n < 26 then (n + 65) as char
    else if n < 52 then (n + 71) as char
    else if n < 62 then (n - 4) as char
    else if n == 62 then '-' else '_'
  }

  /** The place of a letter in the alphabet. The decoder also reads the two letters that base64 has
      in place of '-' and '_'. */
  function PlaceOf(c: char): (n: Option<nat>)
    ensures n.Some? ==> n.value < 64
  {
    if 'A' <= c <= 'Z' then Some(c as int - 65)
    else if 'a' <= c <= 'z' then Some(c as int - 71)
    else if '0' <= c <= '9' then Some(c as int + 4)
    else if c == '-' || c == '+' then Some(62)
    else if c == '_' || c == '/' then Some(63)
    else None
  }

  function Spelled(v: seq<Sextet>): (s: string)
    ensures |s| == |v| && forall i | 0 <= i < |v| :: s[i] == Letter(v[i])
  {
    seq(|v|, i requires 0 <= i < |v| => Letter(v[i]))
  }

  /** What the letters stand for; the decoder passes over every other character. */
  function Read(s: string): seq<Sextet> {
    if s == "" then []
    else
      match PlaceOf(s[0])
      case Some(n) => [SextetOf(n)] + Read(s[1..])
      case None => Read(s[1..])
  }

  lemma LetterRead(v: Sextet)
    ensures PlaceOf(Letter(v)) == Some(v.Value())
  {
    var n, c := v.Value(), Letter(v);
    if n < 26 {
      assert c as int == n + 65;
    } else if n < 52 {
      assert c as int == n + 71;
    } else if n < 62 {
      assert c as int == n - 4;
    }
  }

  lemma SextetOfValue(v: Sextet)
    ensures SextetOf(v.Value()) == v
  {
  }

  lemma ValueOfSextet(n: nat)
    requires n < 64
    ensures SextetOf(n).Value() == n
  {
  }

  lemma {:induction false} ReadSpelled(v: seq<Sextet>)
    ensures Read(Spelled(v)) == v
  {
    if v == [] {
    } else {
      LetterRead(v[0]);
      SextetOfValue(v[0]);
      ReadSpelled(v[1..]);
      assert Spelled(v)[1..] == Spelled(v[1..]);
    }
  }

  lemma {:induction false} ReadAlphabet(s: string)
    requires forall c | c in s :: UrlSafe(c)
    ensures Spelled(Read(s)) == s
  {
    if s == "" {
    } else {
      ReadAlphabet(s[1..]);
      assert UrlSafe(s[0]);
      ValueOfSextet(PlaceOf(s[0]).value);
    }
  }

  // ----- bit pairs -----

  function PairsOfBytes(b: seq<Byte>): seq<Pair> {
    if b == [] then [] else b[0].Pairs() + PairsOfBytes(b[1..])
  }

  /** Bits that do not make up a byte are dropped. */
  function BytesOfPairs(d: seq<Pair>): seq<Byte> {
    if |d| < 4 then [] else [Byte(d[0], d[1], d[2], d[3])] + BytesOfPairs(d[4..])
  }

  function PairsOfSextets(v: seq<Sextet>): seq<Pair> {
    if v == [] then [] else v[0].Pairs() + PairsOfSextets(v[1..])
  }

  /** A last letter that is not full is filled with zero bits. */
  function SextetsOfPairs(d: seq<Pair>): seq<Sextet> {
    if |d| == 0 then []
    else if |d| == 1 then [Sextet(d[0], 0, 0)]
    else if |d| == 2 then [Sextet(d[0], d[1], 0)]
    else [Sextet(d[0], d[1], d[2])] + SextetsOfPairs(d[3..])
  }

  /** The zero pairs that fill up the last letter. */
  function Filling(n: nat): seq<Pair> {
    match n % 3
    case 0 => []
    case 1 => [0, 0]
    case 2 => [0]
  }

  lemma FillingEveryThree(n: nat)
    ensures Filling(n + 3) == Filling(n)
  {
  }

  lemma FirstSextet(first: Sextet, rest: seq<Pair>)
    ensures SextetsOfPairs(first.Pairs() + rest) == [first] + SextetsOfPairs(rest)
  {
    assert (first.Pairs() + rest)[3..] == rest;
  }

  lemma FirstPairs(first: Sextet, rest: seq<Sextet>)
    ensures PairsOfSextets([first] + rest) == first.Pairs() + PairsOfSextets(rest)
  {
    assert ([first] + rest)[1..] == rest;
  }

  lemma {:induction false} PairsThroughSextets(d: seq<Pair>)
    ensures PairsOfSextets(SextetsOfPairs(d)) == d + Filling(|d|)
    decreases |d|
  {
    if |d| < 3 {
    } else {
      var first, rest := Sextet(d[0], d[1], d[2]), d[3..];
      assert d == first.Pairs() + rest;
      PairsThroughSextets(rest);
      FirstSextet(first, rest);
      FirstPairs(first, SextetsOfPairs(rest));
      FillingEveryThree(|rest|);
    }
  }

  lemma {:induction false} SextetsThroughPairs(v: seq<Sextet>)
    ensures SextetsOfPairs(PairsOfSextets(v)) == v && |PairsOfSextets(v)| == 3 * |v|
  {
    if v == [] {
    } else {
      SextetsThroughPairs(v[1..]);
      assert PairsOfSextets(v)[3..] == PairsOfSextets(v[1..]);
    }
  }

  lemma FirstByte(first: Byte, rest: seq<Pair>)
    ensures BytesOfPairs(first.Pairs() + rest) == [first] + BytesOfPairs(rest)
  {
    assert (first.Pairs() + rest)[4..] == rest;
  }

  lemma {:induction false} BytesThroughPairs(b: seq<Byte>, filling: seq<Pair>)
    requires |filling| < 4
    ensures BytesOfPairs(PairsOfBytes(b) + filling) == b && |PairsOfBytes(b)| == 4 * |b|
  {
    if b == [] {
    } else {
      var rest := PairsOfBytes(b[1..]);
      BytesThroughPairs(b[1..], filling);
      FirstByte(b[0], rest + filling);
      assert PairsOfBytes(b) + filling == b[0].Pairs() + (rest + filling);
    }
  }

  lemma {:induction false} PairsThroughBytes(d: seq<Pair>, bytes: nat)
    requires 4 * bytes <= |d| < 4 * bytes + 4
    ensures PairsOfBytes(BytesOfPairs(d)) == d[..4 * bytes]
  {
    if bytes == 0 {
    } else {
      PairsThroughBytes(d[4..], bytes - 1);
      assert d[..4 * bytes] == [d[0], d[1], d[2], d[3]] + d[4..][..4 * (bytes - 1)];
    }
  }

  // ----- the encoding -----

  function Encode(b: seq<Byte>): string {
    Spelled(SextetsOfPairs(PairsOfBytes(b)))
  }

  function Decode(s: string): seq<Byte> {
    BytesOfPairs(PairsOfSextets(Read(s)))
  }

  lemma DecodeEncode(b: seq<Byte>)
    ensures Decode(Encode(b)) == b
  {
    var d := PairsOfBytes(b);
    ReadSpelled(SextetsOfPairs(d));
    PairsThroughSextets(d);
    BytesThroughPairs(b, Filling(|d|));
  }

  /** Encoded text is safe in an address and has no separator. */
  lemma EncodedIsUrlSafe(b: seq<Byte>)
    ensures forall c | c in Encode(b) :: UrlSafe(c) && c != '.'
  {
    forall c | c in Encode(b) ensures UrlSafe(c) && c != '.' {
      var i :| 0 <= i < |Encode(b)| && Encode(b)[i] == c;
    }
  }

  /** Two letters for a last byte on its own, three for two bytes: no padding. */
  lemma EncodedLength(b: seq<Byte>)
    ensures |Encode(b)| == (4 * |b| + 2) / 3
  {
    var d := PairsOfBytes(b);
    BytesThroughPairs(b, []);
    PairsThroughSextets(d);
    SextetsThroughPairs(SextetsOfPairs(d));
  }

  // ----- which texts are encodings -----

  /** How many of `n` pairs make up whole bytes. */
  function Whole(n: nat): nat {
    4 * (n / 4)
  }

  /** The bits after the last whole byte are just the filling of the last letter. */
  predicate Canonical(v: seq<Sextet>) {
    var d := PairsOfSextets(v);
    d[Whole(|d|)..] == Filling(Whole(|d|))
  }

  lemma SameSextets(v: seq<Sextet>, w: seq<Sextet>)
    ensures v == w <==> PairsOfSextets(v) == PairsOfSextets(w)
  {
    SextetsThroughPairs(v);
    SextetsThroughPairs(w);
  }

  lemma SextetsReencoded(v: seq<Sextet>)
    ensures SextetsOfPairs(PairsOfBytes(BytesOfPairs(PairsOfSextets(v)))) == v <==> Canonical(v)
  {
    var d := PairsOfSextets(v);
    var whole := d[..Whole(|d|)];
    PairsThroughBytes(d, |d| / 4);
    PairsThroughSextets(whole);
    SameSextets(v, SextetsOfPairs(whole));
    assert d == whole + d[Whole(|d|)..];
    assert (whole + Filling(|whole|))[|whole|..] == Filling(|whole|);
  }

  /** A text is the encoding of what it decodes to just when it is canonical and has only letters
      of the alphabet. */
  lemma EncodeDecode(s: string)
    ensures Encode(Decode(s)) == s <==> Canonical(Read(s)) && forall c | c in s :: UrlSafe(c)
  {
    SextetsReencoded(Read(s));
    if forall c | c in s :: UrlSafe(c) {
      ReadAlphabet(s);
      ReadSpelled(SextetsOfPairs(PairsOfBytes(Decode(s))));
    } else {
      EncodedIsUrlSafe(Decode(s));
    }
  }
}
