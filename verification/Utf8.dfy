/** UTF-8 as RFC 3629 defines it; a decoder that puts U+FFFD for what it cannot read. */
module Utf8 {
  import opened Wrappers
  import opened Base64Url

  const REPLACEMENT: char := 0xFFFD as char

  predicate IsScalar(n: int) {
    0 <= n < 0xD800 || 0xE000 <= n < 0x110000
  }

  function CharBytes(c: char): (b: seq<Octet>)
    ensures |b| > 0
  {
    var n := c as int;
    if n < 0x80 then [n]
    else if n < 0x800 then [0xC0 + n / 64, 0x80 + n % 64]
    else if n < 0x10000 then [0xE0 + n / 64 / 64, 0x80 + n / 64 % 64, 0x80 + n % 64]
    else [0xF0 + n / 64 / 64 / 64, 0x80 + n / 64 / 64 % 64, 0x80 + n / 64 % 64, 0x80 + n % 64]
  }

  function Encode(s: string): seq<Octet> {
    if s == "" then [] else CharBytes(s[0]) + Encode(s[1..])
  }

  /** What a first byte announces: how many bytes follow, the bounds of the next one, and its own bits. */
  datatype Lead = Lead(more: nat, low: Octet, high: Octet, bits: nat)

  function LeadOf(b: Octet): Option<Lead> {
    if b < 0x80 then Some(Lead(0, 0x80, 0xBF, b))
    else if b < 0xC2 then None
    else if b < 0xE0 then Some(Lead(1, 0x80, 0xBF, b - 0xC0))
    else if b == 0xE0 then Some(Lead(2, 0xA0, 0xBF, 0))
    else if b == 0xED then Some(Lead(2, 0x80, 0x9F, 0xD))
    else if b < 0xF0 then Some(Lead(2, 0x80, 0xBF, b - 0xE0))
    else if b == 0xF0 then Some(Lead(3, 0x90, 0xBF, 0))
    else if b < 0xF4 then Some(Lead(3, 0x80, 0xBF, b - 0xF0))
    else if b == 0xF4 then Some(Lead(3, 0x80, 0x8F, 4))
    else None
  }

  datatype Taken = Taken(complete: bool, code: nat, rest: seq<Octet>)

  /** Takes the following bytes as long as they fit. */
  function Take(l: Lead, b: seq<Octet>): (t: Taken)
    ensures |t.rest| <= |b|
    decreases l.more
  {
    if l.more == 0 then Taken(true, l.bits, b)
    else if b != [] && l.low <= b[0] <= l.high && 0x80 <= b[0] < 0xC0 then
      Take(Lead(l.more - 1, 0x80, 0xBF, l.bits * 64 + (b[0] - 0x80)), b[1..])
    else Taken(false, 0, b)
  }

  function Decode(b: seq<Octet>): string
    decreases |b|
  {
    if b == [] then ""
    else
      match LeadOf(b[0])
      case None => [REPLACEMENT] + Decode(b[1..])
      case Some(l) =>
        var t := Take(l, b[1..]);
        [if t.complete && IsScalar(t.code) then t.code as char else REPLACEMENT] + Decode(t.rest)
  }

  /** Byte `x` is taken: it fits the bounds, and adds six bits. */
  lemma TakeOne(l: Lead, x: Octet, rest: seq<Octet>, b: seq<Octet>)
    requires l.more > 0 && 0x80 <= x < 0xC0 && l.low <= x <= l.high
    requires b == [x] + rest
    ensures Take(l, b) == Take(Lead(l.more - 1, 0x80, 0xBF, l.bits * 64 + (x - 0x80)), rest)
  {
    assert b[0] == x;
    assert b[1..] == rest;
  }

  lemma DecodeStep(x: Octet, rest: seq<Octet>, l: Lead, code: nat, after: seq<Octet>)
    requires LeadOf(x) == Some(l) && Take(l, rest) == Taken(true, code, after) && IsScalar(code)
    ensures Decode([x] + rest) == [code as char] + Decode(after)
  {
    var b := [x] + rest;
    assert b[0] == x && b[1..] == rest;
  }

  lemma TwoBack(u: nat, v: nat, b: seq<Octet>)
    requires 2 <= u < 32 && v < 64
    ensures Decode([0xC0 + u, 0x80 + v] + b) == [(u * 64 + v) as char] + Decode(b)
  {
    var l := Lead(1, 0x80, 0xBF, u);
    TakeOne(l, 0x80 + v, b, [0x80 + v] + b);
    DecodeStep(0xC0 + u, [0x80 + v] + b, l, u * 64 + v, b);
    assert [0xC0 + u, 0x80 + v] + b == [0xC0 + u] + ([0x80 + v] + b);
  }

  lemma ThreeLead(u: nat, v: nat, w: nat) returns (l: Lead)
    requires u < 16 && v < 64 && w < 64
    requires (u == 0 ==> v >= 32) && (u == 13 ==> v < 32)
    ensures LeadOf(0xE0 + u) == Some(l) && l.more == 2 && l.bits == u && l.low <= 0x80 + v <= l.high
    ensures IsScalar((u * 64 + v) * 64 + w)
  {
    l := LeadOf(0xE0 + u).value;
  }

  lemma ThreeBack(u: nat, v: nat, w: nat, b: seq<Octet>)
    requires u < 16 && v < 64 && w < 64
    requires (u == 0 ==> v >= 32) && (u == 13 ==> v < 32)
    ensures IsScalar((u * 64 + v) * 64 + w)
    ensures Decode([0xE0 + u, 0x80 + v, 0x80 + w] + b) == [((u * 64 + v) * 64 + w) as char] + Decode(b)
  {
    var l := ThreeLead(u, v, w);
    var last := [0x80 + w] + b;
    var rest := [0x80 + v] + last;
    TakeOne(Lead(1, 0x80, 0xBF, u * 64 + v), 0x80 + w, b, last);
    TakeOne(l, 0x80 + v, last, rest);
    DecodeStep(0xE0 + u, rest, l, (u * 64 + v) * 64 + w, b);
    assert [0xE0 + u, 0x80 + v, 0x80 + w] + b == [0xE0 + u] + rest;
  }

  lemma FourLead(u: nat, v: nat, w: nat, x: nat) returns (l: Lead)
    requires u < 5 && v < 64 && w < 64 && x < 64
    requires (u == 0 ==> v >= 16) && (u == 4 ==> v < 16)
    ensures LeadOf(0xF0 + u) == Some(l) && l.more == 3 && l.bits == u && l.low <= 0x80 + v <= l.high
    ensures IsScalar(((u * 64 + v) * 64 + w) * 64 + x)
  {
    l := LeadOf(0xF0 + u).value;
  }

  function Joined(q: Octet, r: Octet, s: Octet, b: seq<Octet>): seq<Octet> {
    [q] + ([r] + ([s] + b))
  }

  predicate Follows(x: Octet) {
    0x80 <= x < 0xC0
  }

  /** The code of a lead with these bits and three bytes that follow. */
  function FourCode(bits: nat, q: Octet, r: Octet, s: Octet): int {
    ((bits * 64 + (q - 0x80)) * 64 + (r - 0x80)) * 64 + (s - 0x80)
  }

  lemma ThreeTaken(l: Lead, q: Octet, r: Octet, s: Octet, b: seq<Octet>)
    requires Follows(q) && Follows(r) && Follows(s) && l.more == 3 && l.low <= q <= l.high
    ensures FourCode(l.bits, q, r, s) >= 0
    ensures Take(l, Joined(q, r, s, b)) == Taken(true, FourCode(l.bits, q, r, s), b)
  {
    var m := l.bits * 64 + (q - 0x80);
    var last := [s] + b;
    var third := [r] + last;
    TakeOne(l, q, third, [q] + third);
    TakeOne(Lead(2, 0x80, 0xBF, m), r, last, third);
    TakeOne(Lead(1, 0x80, 0xBF, m * 64 + (r - 0x80)), s, b, last);
  }

  lemma FourJoined(p: Octet, q: Octet, r: Octet, s: Octet, b: seq<Octet>)
    ensures [p, q, r, s] + b == [p] + Joined(q, r, s, b)
  {
  }

  lemma ReadFour(p: Octet, q: Octet, r: Octet, s: Octet, l: Lead, n: nat, b: seq<Octet>)
    requires LeadOf(p) == Some(l) && l.more == 3 && l.low <= q <= l.high
    requires Follows(q) && Follows(r) && Follows(s) && n == FourCode(l.bits, q, r, s) && IsScalar(n)
    ensures Decode([p, q, r, s] + b) == [n as char] + Decode(b)
  {
    ThreeTaken(l, q, r, s, b);
    FourJoined(p, q, r, s, b);
    DecodeStep(p, Joined(q, r, s, b), l, n, b);
  }

  lemma FourCodeOf(u: nat, v: nat, w: nat, x: nat)
    requires v < 64 && w < 64 && x < 64
    ensures Follows(0x80 + v) && Follows(0x80 + w) && Follows(0x80 + x)
    ensures FourCode(u, 0x80 + v, 0x80 + w, 0x80 + x) == ((u * 64 + v) * 64 + w) * 64 + x
  {
  }

  lemma FourBack(n: nat, u: nat, v: nat, w: nat, x: nat, b: seq<Octet>)
    requires u < 5 && v < 64 && w < 64 && x < 64
    requires (u == 0 ==> v >= 16) && (u == 4 ==> v < 16)
    requires n == ((u * 64 + v) * 64 + w) * 64 + x && IsScalar(n)
    ensures Decode([0xF0 + u, 0x80 + v, 0x80 + w, 0x80 + x] + b) == [n as char] + Decode(b)
  {
    var l := FourLead(u, v, w, x);
    FourCodeOf(u, v, w, x);
    ReadFour(0xF0 + u, 0x80 + v, 0x80 + w, 0x80 + x, l, n, b);
  }

  lemma SixBits(n: nat)
    ensures n == n / 64 * 64 + n % 64
  {
  }

  lemma TwoCharBack(n: nat, b: seq<Octet>)
    requires 0x80 <= n < 0x800
    ensures Decode([0xC0 + n / 64, 0x80 + n % 64] + b) == [n as char] + Decode(b)
  {
    SixBits(n);
    TwoBack(n / 64, n % 64, b);
  }

  lemma ThreeCharBack(n: nat, b: seq<Octet>)
    requires 0x800 <= n < 0x10000 && IsScalar(n)
    ensures Decode([0xE0 + n / 64 / 64, 0x80 + n / 64 % 64, 0x80 + n % 64] + b) == [n as char] + Decode(b)
  {
    var m := n / 64;
    SixBits(n);
    SixBits(m);
    ThreeBack(m / 64, m % 64, n % 64, b);
  }

  lemma FourParts(n: nat) returns (u: nat, v: nat, w: nat, x: nat)
    requires 0x10000 <= n < 0x110000
    ensures u == n / 64 / 64 / 64 && v == n / 64 / 64 % 64 && w == n / 64 % 64 && x == n % 64
    ensures u < 5 && (u == 0 ==> v >= 16) && (u == 4 ==> v < 16)
    ensures n == ((u * 64 + v) * 64 + w) * 64 + x
  {
    var m := n / 64;
    var l := m / 64;
    SixBits(n);
    SixBits(m);
    SixBits(l);
    u, v, w, x := l / 64, l % 64, m % 64, n % 64;
  }

  lemma FourCharBack(c: char, b: seq<Octet>)
    requires c as int >= 0x10000
    ensures Decode(CharBytes(c) + b) == [c] + Decode(b)
  {
    var u, v, w, x := FourParts(c as int);
    assert CharBytes(c) == [0xF0 + u, 0x80 + v, 0x80 + w, 0x80 + x];
    FourBack(c as int, u, v, w, x, b);
  }

  /** A character's bytes are read back as that character, whatever follows. */
  lemma CharBack(c: char, b: seq<Octet>)
    ensures Decode(CharBytes(c) + b) == [c] + Decode(b)
  {
    var n := c as int;
    if n < 0x80 {
      DecodeStep(n, b, Lead(0, 0x80, 0xBF, n), n, b);
    } else if n < 0x800 {
      TwoCharBack(n, b);
    } else if n < 0x10000 {
      ThreeCharBack(n, b);
    } else {
      FourCharBack(c, b);
    }
  }

  lemma {:induction false} DecodeEncode(s: string)
    ensures Decode(Encode(s)) == s
  {
    if s == "" {
    } else {
      CharBack(s[0], Encode(s[1..]));
      DecodeEncode(s[1..]);
    }
  }

  // ----- what decodes without a replacement -----

  /** What the first byte of a character tells. */
  lemma LeadShape(x: Octet, l: Lead)
    requires LeadOf(x) == Some(l)
    ensures l.more <= 3 && 0x80 <= l.low && l.high < 0xC0
    ensures l.more == 0 ==> x < 0x80 && l.bits == x
    ensures l.more == 1 ==> 0xC2 <= x < 0xE0 && l.bits == x - 0xC0
    ensures l.more == 2 ==> 0xE0 <= x < 0xF0 && l.bits == x - 0xE0 && (x == 0xE0 ==> l.low == 0xA0)
    ensures l.more == 3 ==> 0xF0 <= x < 0xF5 && l.bits == x - 0xF0 && (x == 0xF0 ==> l.low == 0x90)
  {
  }

  lemma TakenOne(l: Lead, b: seq<Octet>)
    requires l.more > 0 && Take(l, b).complete
    ensures b != [] && l.low <= b[0] <= l.high && 0x80 <= b[0] < 0xC0
    ensures Take(l, b) == Take(Lead(l.more - 1, 0x80, 0xBF, l.bits * 64 + (b[0] - 0x80)), b[1..])
  {
  }

  lemma DivideBack(u: nat, v: nat)
    requires v < 64
    ensures (u * 64 + v) / 64 == u && (u * 64 + v) % 64 == v
  {
  }

  lemma TwoTaken(x: Octet, b: seq<Octet>, l: Lead) returns (rest: seq<Octet>, n: nat)
    requires LeadOf(x) == Some(l) && l.more == 1 && Take(l, b).complete
    ensures n < 0x110000 && IsScalar(n) && Take(l, b) == Taken(true, n, rest)
    ensures CharBytes(n as char) + rest == [x] + b
  {
    LeadShape(x, l);
    TakenOne(l, b);
    DivideBack(l.bits, b[0] - 0x80);
    rest, n := b[1..], l.bits * 64 + (b[0] - 0x80);
    assert b == [b[0]] + rest;
  }

  lemma ThreeBytesBack(x: Octet, y: Octet, z: Octet, n: nat)
    requires 0xE0 <= x < 0xF0 && Follows(y) && Follows(z) && (x == 0xE0 ==> y >= 0xA0)
    requires n == ((x - 0xE0) * 64 + (y - 0x80)) * 64 + (z - 0x80) && IsScalar(n)
    ensures CharBytes(n as char) == [x, y, z]
  {
    var m := (x - 0xE0) * 64 + (y - 0x80);
    DivideBack(m, z - 0x80);
    DivideBack(x - 0xE0, y - 0x80);
  }

  lemma FourBytesBack(p: Octet, q: Octet, r: Octet, s: Octet, n: nat)
    requires 0xF0 <= p < 0xF5 && Follows(q) && Follows(r) && Follows(s) && (p == 0xF0 ==> q >= 0x90)
    requires n == FourCode(p - 0xF0, q, r, s) && IsScalar(n)
    ensures CharBytes(n as char) == [p, q, r, s]
  {
    var l := (p - 0xF0) * 64 + (q - 0x80);
    var m := l * 64 + (r - 0x80);
    DivideBack(m, s - 0x80);
    DivideBack(l, r - 0x80);
    DivideBack(p - 0xF0, q - 0x80);
  }

  lemma SplitTwo(y: Octet, z: Octet, b: seq<Octet>)
    requires |b| >= 2 && b[0] == y && b[1] == z
    ensures b == [y, z] + b[1..][1..]
  {
  }

  lemma SplitThree(q: Octet, r: Octet, s: Octet, b: seq<Octet>)
    requires |b| >= 3 && b[0] == q && b[1] == r && b[2] == s
    ensures b == [q, r, s] + b[1..][1..][1..]
  {
  }

  lemma FirstOfFour(p: Octet, q: Octet, r: Octet, s: Octet, b: seq<Octet>)
    ensures [p, q, r, s] + b == [p] + ([q, r, s] + b)
  {
  }

  lemma TakesTwo(x: Octet, b: seq<Octet>, l: Lead) returns (rest: seq<Octet>, n: nat)
    requires LeadOf(x) == Some(l) && l.more == 2 && Take(l, b).complete && IsScalar(Take(l, b).code)
    ensures n < 0x110000 && IsScalar(n) && Take(l, b) == Taken(true, n, rest)
    ensures CharBytes(n as char) + rest == [x] + b
  {
    LeadShape(x, l);
    TakenOne(l, b);
    var m := l.bits * 64 + (b[0] - 0x80);
    TakenOne(Lead(1, 0x80, 0xBF, m), b[1..]);
    rest, n := b[1..][1..], m * 64 + (b[1] - 0x80);
    ThreeBytesBack(x, b[0], b[1], n);
    SplitTwo(b[0], b[1], b);
    assert [x, b[0], b[1]] + rest == [x] + ([b[0], b[1]] + rest);
  }

  lemma TakesThree(x: Octet, b: seq<Octet>, l: Lead) returns (rest: seq<Octet>, n: nat)
    requires LeadOf(x) == Some(l) && l.more == 3 && Take(l, b).complete && IsScalar(Take(l, b).code)
    ensures n < 0x110000 && IsScalar(n) && Take(l, b) == Taken(true, n, rest)
    ensures CharBytes(n as char) + rest == [x] + b
  {
    LeadShape(x, l);
    TakenOne(l, b);
    var m := l.bits * 64 + (b[0] - 0x80);
    TakenOne(Lead(2, 0x80, 0xBF, m), b[1..]);
    var k := m * 64 + (b[1] - 0x80);
    TakenOne(Lead(1, 0x80, 0xBF, k), b[1..][1..]);
    rest, n := b[1..][1..][1..], k * 64 + (b[2] - 0x80);
    FourBytesBack(x, b[0], b[1], b[2], n);
    SplitThree(b[0], b[1], b[2], b);
    FirstOfFour(x, b[0], b[1], b[2], rest);
  }

  /** A character read from some bytes has just those bytes as its encoding. */
  lemma FirstChar(b: seq<Octet>, l: Lead)
    requires b != [] && LeadOf(b[0]) == Some(l)
    requires var t := Take(l, b[1..]); t.complete && IsScalar(t.code)
    ensures var t := Take(l, b[1..]); CharBytes(t.code as char) + t.rest == b
  {
    LeadShape(b[0], l);
    assert b == [b[0]] + b[1..];
    if l.more == 1 {
      var rest, n := TwoTaken(b[0], b[1..], l);
    } else if l.more == 2 {
      var rest, n := TakesTwo(b[0], b[1..], l);
    } else if l.more == 3 {
      var rest, n := TakesThree(b[0], b[1..], l);
    }
  }

  lemma EncodeFirst(c: char, s: string)
    ensures Encode([c] + s) == CharBytes(c) + Encode(s)
  {
    assert ([c] + s)[1..] == s;
  }

  /** Bytes that decode without a replacement are the encoding of what they decode to. */
  lemma {:induction false} EncodeDecode(b: seq<Octet>)
    requires REPLACEMENT !in Decode(b)
    ensures Encode(Decode(b)) == b
    decreases |b|
  {
    if b != [] {
      assert Decode(b)[0] in Decode(b);
      assert LeadOf(b[0]).Some?;
      var l := LeadOf(b[0]).value;
      var t := Take(l, b[1..]);
      assert t.complete && IsScalar(t.code) && Decode(b) == [t.code as char] + Decode(t.rest);
      FirstChar(b, l);
      assert forall c | c in Decode(t.rest) :: c in Decode(b);
      EncodeDecode(t.rest);
      EncodeFirst(t.code as char, Decode(t.rest));
    }
  }

  // ----- what decodes to a replacement -----

  /** The second bytes of well-formed sequences, table 3-7 of the Unicode standard. */
  predicate MayFollow(x: Octet, y: Octet) {
    || (0xC2 <= x <= 0xDF && 0x80 <= y <= 0xBF) || (x == 0xE0 && 0xA0 <= y <= 0xBF)
    || (0xE1 <= x <= 0xEF && x != 0xED && 0x80 <= y <= 0xBF) || (x == 0xED && 0x80 <= y <= 0x9F)
    || (x == 0xF0 && 0x90 <= y <= 0xBF) || (0xF1 <= x <= 0xF3 && 0x80 <= y <= 0xBF)
    || (x == 0xF4 && 0x80 <= y <= 0x8F)
  }

  /** A byte that begins no character is replaced on its own. */
  lemma StrayByte(x: Octet, b: seq<Octet>)
    requires x >= 0x80 && (b == [] || !MayFollow(x, b[0]))
    ensures Decode([x] + b) == [REPLACEMENT] + Decode(b)
  {
    assert ([x] + b)[0] == x && ([x] + b)[1..] == b;
    if LeadOf(x).Some? {
      LeadShape(x, LeadOf(x).value);
    }
  }

  /** Two bytes that begin a character of three or four are replaced together if it does not go on. */
  lemma StrayTwo(x: Octet, y: Octet, b: seq<Octet>)
    requires x >= 0xE0 && MayFollow(x, y) && (b == [] || !Follows(b[0]))
    ensures Decode([x] + ([y] + b)) == [REPLACEMENT] + Decode(b)
  {
    var l := LeadOf(x).value;
    assert ([x] + ([y] + b))[1..] == [y] + b;
    TakeOne(l, y, b, [y] + b);
  }

  /** And three bytes that begin a character of four. */
  lemma StrayThree(x: Octet, y: Octet, z: Octet, b: seq<Octet>)
    requires x >= 0xF0 && MayFollow(x, y) && Follows(z) && (b == [] || !Follows(b[0]))
    ensures Decode([x] + ([y] + ([z] + b))) == [REPLACEMENT] + Decode(b)
  {
    var l := LeadOf(x).value;
    assert ([x] + ([y] + ([z] + b)))[1..] == [y] + ([z] + b);
    TakeOne(l, y, [z] + b, [y] + ([z] + b));
    TakeOne(Lead(2, 0x80, 0xBF, l.bits * 64 + (y - 0x80)), z, b, [z] + b);
  }

  lemma EncodeInjective(s: string, t: string)
    requires Encode(s) == Encode(t)
    ensures s == t
  {
    DecodeEncode(s);
    DecodeEncode(t);
  }
}
