/** The encoding as sections 4 and 5 of RFC 4648 put it: 24 bits at a time, four letters of six bits. */
module Rfc4648 {
  import opened Base64Url
  import opened Wrappers

  /** The alphabet, in its order. */
  function LetterOf(n: nat): char
    requires n < 64
  {
    if n < 26 then 'A' + n as char
    else if n < 52 then 'a' + (n - 26) as char
    else if n < 62 then '0' + (n - 52) as char
    else if n == 62 then '-'
    else '_'
  }

  lemma LetterExact(v: Sextet)
    ensures v.Value() < 64 && Letter(v) == LetterOf(v.Value())
  {
  }

  lemma PairsOfThree(p: Byte, q: Byte, r: Byte, rest: seq<Byte>)
    ensures PairsOfBytes([p, q, r] + rest)
         == Sextet(p.a, p.b, p.c).Pairs() + (Sextet(p.d, q.a, q.b).Pairs()
            + (Sextet(q.c, q.d, r.a).Pairs() + (Sextet(r.b, r.c, r.d).Pairs() + PairsOfBytes(rest))))
  {
    assert [p, q, r] + rest == [p] + ([q] + ([r] + rest));
    OneMore(p, [q] + ([r] + rest));
    OneMore(q, [r] + rest);
    OneMore(r, rest);
  }

  lemma OneMore(p: Byte, rest: seq<Byte>)
    ensures PairsOfBytes([p] + rest) == p.Pairs() + PairsOfBytes(rest)
  {
    assert ([p] + rest)[1..] == rest;
  }

  lemma SextetsOfThree(p: Byte, q: Byte, r: Byte, rest: seq<Byte>)
    ensures SextetsOfPairs(PairsOfBytes([p, q, r] + rest))
         == [Sextet(p.a, p.b, p.c)] + ([Sextet(p.d, q.a, q.b)] + ([Sextet(q.c, q.d, r.a)] + ([Sextet(r.b, r.c, r.d)]
            + SextetsOfPairs(PairsOfBytes(rest)))))
  {
    PairsOfThree(p, q, r, rest);
    var fourth := Sextet(r.b, r.c, r.d).Pairs() + PairsOfBytes(rest);
    var third := Sextet(q.c, q.d, r.a).Pairs() + fourth;
    var second := Sextet(p.d, q.a, q.b).Pairs() + third;
    FirstSextet(Sextet(p.a, p.b, p.c), second);
    FirstSextet(Sextet(p.d, q.a, q.b), third);
    FirstSextet(Sextet(q.c, q.d, r.a), fourth);
    FirstSextet(Sextet(r.b, r.c, r.d), PairsOfBytes(rest));
  }

  lemma SpelledFirst(v: Sextet, rest: seq<Sextet>)
    ensures Spelled([v] + rest) == [LetterOf(v.Value())] + Spelled(rest)
  {
    LetterExact(v);
  }

  lemma HighBits(n: Octet)
    ensures var b := ByteOf(n);
            b.a == n / 64 && b.a * 4 + b.b == n / 16 && (b.a * 4 + b.b) * 4 + b.c == n / 4
  {
  }

  /** The remainder of a number by its quarter, the quarter's remainder, and its own last two bits. */
  lemma Remainder(n: nat, m: nat)
    requires m > 0
    ensures n % (4 * m) == n / 4 % m * 4 + n % 4
  {
    var quarter, rest := n / 4, n % 4;
    var q, r := quarter / m, quarter % m;
    assert n == 4 * quarter + rest && quarter == q * m + r;
    assert 4 * (q * m + r) == q * (4 * m) + 4 * r;
    DivisionIsOne(n, 4 * m, q, 4 * r + rest);
  }

  lemma Times(a: nat, b: nat, m: nat)
    requires a <= b
    ensures a * m <= b * m
  {
  }

  lemma DivisionIsOne(n: nat, m: nat, q: nat, r: nat)
    requires m > 0 && n == q * m + r && r < m
    ensures n % m == r
  {
    var p := n / m;
    assert n == p * m + n % m;
    if p < q {
      Times(p + 1, q, m);
    } else if q < p {
      Times(q + 1, p, m);
    }
  }

  lemma LowBits(n: Octet)
    ensures var b := ByteOf(n);
            b.d == n % 4 && b.c * 4 + b.d == n % 16 && (b.b * 4 + b.c) * 4 + b.d == n % 64
  {
    Remainder(n, 4);
    Remainder(n / 4, 4);
    Remainder(n, 16);
  }

  lemma FirstSix(x: Octet)
    ensures var p := ByteOf(x); Sextet(p.a, p.b, p.c).Value() == x / 4
  {
    HighBits(x);
  }

  lemma SecondSix(x: Octet, y: Octet)
    ensures Sextet(ByteOf(x).d, ByteOf(y).a, ByteOf(y).b).Value() == x % 4 * 16 + y / 16
  {
    LowBits(x);
    HighBits(y);
  }

  lemma ThirdSix(y: Octet, z: Octet)
    ensures Sextet(ByteOf(y).c, ByteOf(y).d, ByteOf(z).a).Value() == y % 16 * 4 + z / 64
  {
    LowBits(y);
    HighBits(z);
  }

  lemma LastSix(z: Octet)
    ensures var r := ByteOf(z); Sextet(r.b, r.c, r.d).Value() == z % 64
  {
    LowBits(z);
  }

  lemma LastOfOne(x: Octet)
    ensures Sextet(ByteOf(x).d, 0, 0).Value() == x % 4 * 16
  {
    LowBits(x);
  }

  lemma LastOfTwo(y: Octet)
    ensures Sextet(ByteOf(y).c, ByteOf(y).d, 0).Value() == y % 16 * 4
  {
    LowBits(y);
  }

  /** Three bytes become four letters, in front of what follows. */
  lemma ThreeBytes(x: Octet, y: Octet, z: Octet, rest: seq<Byte>)
    ensures Encode([ByteOf(x), ByteOf(y), ByteOf(z)] + rest)
         == [LetterOf(x / 4)] + ([LetterOf(x % 4 * 16 + y / 16)] + ([LetterOf(y % 16 * 4 + z / 64)]
            + ([LetterOf(z % 64)] + Encode(rest))))
  {
    var p, q, r := ByteOf(x), ByteOf(y), ByteOf(z);
    FirstSix(x);
    SecondSix(x, y);
    ThirdSix(y, z);
    LastSix(z);
    SextetsOfThree(p, q, r, rest);
    var v := SextetsOfPairs(PairsOfBytes(rest));
    var fourth := [Sextet(r.b, r.c, r.d)] + v;
    var third := [Sextet(q.c, q.d, r.a)] + fourth;
    var second := [Sextet(p.d, q.a, q.b)] + third;
    SpelledFirst(Sextet(p.a, p.b, p.c), second);
    SpelledFirst(Sextet(p.d, q.a, q.b), third);
    SpelledFirst(Sextet(q.c, q.d, r.a), fourth);
    SpelledFirst(Sextet(r.b, r.c, r.d), v);
  }

  lemma PairsOfOne(p: Byte)
    ensures PairsOfBytes([p]) == Sextet(p.a, p.b, p.c).Pairs() + [p.d]
  {
  }

  lemma SextetsOfOne(p: Byte)
    ensures SextetsOfPairs(PairsOfBytes([p])) == [Sextet(p.a, p.b, p.c)] + [Sextet(p.d, 0, 0)]
  {
    PairsOfOne(p);
    FirstSextet(Sextet(p.a, p.b, p.c), [p.d]);
    LastPair(p.d);
  }

  lemma LastPair(d: Pair)
    ensures SextetsOfPairs([d]) == [Sextet(d, 0, 0)]
  {
  }

  lemma LastTwoPairs(c: Pair, d: Pair)
    ensures SextetsOfPairs([c, d]) == [Sextet(c, d, 0)]
  {
  }

  lemma SpelledTwo(v: Sextet, w: Sextet)
    ensures Spelled([v] + [w]) == [LetterOf(v.Value()), LetterOf(w.Value())]
  {
    LetterExact(v);
    LetterExact(w);
  }

  lemma SpelledThree(v: Sextet, w: Sextet, x: Sextet)
    ensures Spelled([v] + ([w] + [x])) == [LetterOf(v.Value()), LetterOf(w.Value()), LetterOf(x.Value())]
  {
    LetterExact(v);
    LetterExact(w);
    LetterExact(x);
  }

  /** A last byte on its own becomes two letters, the second filled up with zero bits. */
  lemma OneByte(x: Octet)
    ensures Encode([ByteOf(x)]) == [LetterOf(x / 4), LetterOf(x % 4 * 16)]
  {
    var p := ByteOf(x);
    SextetsOfOne(p);
    SpelledTwo(Sextet(p.a, p.b, p.c), Sextet(p.d, 0, 0));
    FirstSix(x);
    LastOfOne(x);
  }

  lemma PairsOfTwo(p: Byte, q: Byte)
    ensures PairsOfBytes([p, q]) == Sextet(p.a, p.b, p.c).Pairs() + (Sextet(p.d, q.a, q.b).Pairs() + [q.c, q.d])
  {
    OneMore(p, [q]);
    assert [p] + [q] == [p, q];
    PairsOfOne(q);
  }

  lemma SextetsOfTwo(p: Byte, q: Byte)
    ensures SextetsOfPairs(PairsOfBytes([p, q]))
         == [Sextet(p.a, p.b, p.c)] + ([Sextet(p.d, q.a, q.b)] + [Sextet(q.c, q.d, 0)])
  {
    PairsOfTwo(p, q);
    FirstSextet(Sextet(p.a, p.b, p.c), Sextet(p.d, q.a, q.b).Pairs() + [q.c, q.d]);
    FirstSextet(Sextet(p.d, q.a, q.b), [q.c, q.d]);
    LastTwoPairs(q.c, q.d);
  }

  /** Two last bytes become three letters. */
  lemma TwoBytes(x: Octet, y: Octet)
    ensures Encode([ByteOf(x), ByteOf(y)])
         == [LetterOf(x / 4), LetterOf(x % 4 * 16 + y / 16), LetterOf(y % 16 * 4)]
  {
    var p, q := ByteOf(x), ByteOf(y);
    SextetsOfTwo(p, q);
    SpelledThree(Sextet(p.a, p.b, p.c), Sextet(p.d, q.a, q.b), Sextet(q.c, q.d, 0));
    FirstSix(x);
    SecondSix(x, y);
    LastOfTwo(y);
  }

  // ----- reading -----

  /** Reading a letter gives its place in the alphabet; "+" and "/" stand for the last two as well, and
      nothing else for anything. */
  lemma PlaceExact(c: char, n: nat)
    ensures PlaceOf(c) == Some(n) <==> n < 64 && (c == LetterOf(n) || (c == '+' && n == 62) || (c == '/' && n == 63))
  {
  }

  lemma {:induction false} ReadPassesOver(s: string, c: char, t: string)
    requires PlaceOf(c).None?
    ensures Read(s + ([c] + t)) == Read(s + t)
  {
    if s == "" {
      assert s + ([c] + t) == [c] + t && s + t == t && ([c] + t)[1..] == t;
    } else {
      ReadPassesOver(s[1..], c, t);
      assert (s + ([c] + t))[1..] == s[1..] + ([c] + t) && (s + t)[1..] == s[1..] + t;
    }
  }

  /** A character that stands for nothing makes no difference to what is decoded. */
  lemma OthersPassedOver(s: string, c: char, t: string)
    requires c != '+' && c != '/' && forall n: nat | n < 64 :: c != LetterOf(n)
    ensures Decode(s + ([c] + t)) == Decode(s + t)
  {
    if PlaceOf(c).Some? {
      PlaceExact(c, PlaceOf(c).value);
    }
    ReadPassesOver(s, c, t);
  }
}
