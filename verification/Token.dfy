/**
 The token behind the QR code of a booking: the booking's id and its signature, each in base64url,
 with a dot between them. The keyed hash is a parameter that nothing is known about.
 */
module Token {
  import opened Wrappers
  import opened Base64Url
  import Utf8

  const SEPARATOR := '.'

  /** The 32 bytes of an HMAC-SHA256. */
  type Digest = b: seq<Byte> | |b| == 32 witness seq(32, i => Byte(0, 0, 0, 0))

  /** From a secret and a payload. */
  type Hmac = (string, string) -> Digest

  function Packed(o: seq<Octet>): (b: seq<Byte>)
    ensures |b| == |o| && forall i | 0 <= i < |o| :: b[i] == ByteOf(o[i])
  {
    seq(|o|, i requires 0 <= i < |o| => ByteOf(o[i]))
  }

  function Unpacked(b: seq<Byte>): (o: seq<Octet>)
    ensures |o| == |b| && forall i | 0 <= i < |b| :: o[i] == b[i].Value()
  {
    seq(|b|, i requires 0 <= i < |b| => b[i].Value())
  }

  function PayloadOf(bookingId: string): string {
    Base64Url.Encode(Packed(Utf8.Encode(bookingId)))
  }

  function IdOf(payload: string): string {
    Utf8.Decode(Unpacked(Base64Url.Decode(payload)))
  }

  function SignatureOf(hmac: Hmac, payload: string, secret: string): string {
    Base64Url.Encode(hmac(secret, payload))
  }

  function SignVerificationToken(hmac: Hmac, bookingId: string, secret: string): string {
    var payload := PayloadOf(bookingId);
    payload + [SEPARATOR] + SignatureOf(hmac, payload, secret)
  }

  function Split(s: string): (parts: seq<string>)
    ensures |parts| > 0
  {
    if s == "" then [""]
    else
      var rest := Split(s[1..]);
      if s[0] == SEPARATOR then [""] + rest else [[s[0]] + rest[0]] + rest[1..]
  }

  function VerifyVerificationToken(hmac: Hmac, token: string, secret: string): Option<string> {
    var parts := Split(token);
    if |parts| != 2 then None
    else
      var payload, signature := parts[0], parts[1];
      if payload == "" || signature == "" then None
      else
        var given, expected := Utf8.Encode(signature), Utf8.Encode(SignatureOf(hmac, payload, secret));
        if |given| != |expected| then None
        else if given != expected then None
        else
          var bookingId := IdOf(payload);
          if bookingId == "" then None else Some(bookingId)
  }

  // ----- payloads -----

  lemma ByteBack(n: Octet)
    ensures ByteOf(n).Value() == n
  {
  }

  lemma IdOfPayload(bookingId: string)
    ensures IdOf(PayloadOf(bookingId)) == bookingId
  {
    var o := Utf8.Encode(bookingId);
    Base64Url.DecodeEncode(Packed(o));
    forall i | 0 <= i < |o| ensures Unpacked(Packed(o))[i] == o[i] {
      ByteBack(o[i]);
    }
    assert Unpacked(Packed(o)) == o;
    Utf8.DecodeEncode(bookingId);
  }

  // ----- parts -----

  lemma {:induction false} SplitWord(s: string)
    requires SEPARATOR !in s
    ensures Split(s) == [s]
  {
    if s == "" {
    } else {
      SplitWord(s[1..]);
      assert s == [s[0]] + s[1..];
    }
  }

  lemma {:induction false} SplitJoined(p: string, q: string)
    requires SEPARATOR !in p && SEPARATOR !in q
    ensures Split(p + [SEPARATOR] + q) == [p, q]
  {
    var s := p + [SEPARATOR] + q;
    if p == "" {
      SplitWord(q);
      assert s[1..] == q;
    } else {
      SplitJoined(p[1..], q);
      assert s[1..] == p[1..] + [SEPARATOR] + q;
      assert p == [p[0]] + p[1..];
    }
  }

  lemma {:induction false} PartsHaveNoSeparator(s: string)
    ensures forall p | p in Split(s) :: SEPARATOR !in p
  {
    if s == "" {
    } else {
      PartsHaveNoSeparator(s[1..]);
      assert Split(s[1..])[0] in Split(s[1..]);
    }
  }

  lemma {:induction false} OnePart(s: string)
    requires |Split(s)| == 1
    ensures Split(s)[0] == s
  {
    if s == "" {
    } else {
      OnePart(s[1..]);
    }
  }

  lemma {:induction false} TwoParts(s: string)
    requires |Split(s)| == 2
    ensures s == Split(s)[0] + [SEPARATOR] + Split(s)[1]
  {
    if s == "" {
    } else {
      if s[0] == SEPARATOR {
        OnePart(s[1..]);
      } else {
        TwoParts(s[1..]);
        var rest := Split(s[1..]);
        assert s == [s[0]] + (rest[0] + [SEPARATOR] + rest[1]);
        assert [s[0]] + (rest[0] + [SEPARATOR] + rest[1]) == ([s[0]] + rest[0]) + [SEPARATOR] + rest[1];
      }
    }
  }

  // ----- what is accepted -----

  /** A payload, a dot and that payload's signature. */
  ghost predicate IsSigned(hmac: Hmac, token: string, secret: string, payload: string) {
    payload != "" && '.' !in payload && token == payload + "." + Base64Url.Encode(hmac(secret, payload))
  }

  lemma SignedVerifies(hmac: Hmac, token: string, secret: string, payload: string)
    requires IsSigned(hmac, token, secret, payload)
    ensures VerifyVerificationToken(hmac, token, secret) == if IdOf(payload) == "" then None else Some(IdOf(payload))
  {
    EncodedIsUrlSafe(hmac(secret, payload));
    EncodedLength(hmac(secret, payload));
    SplitJoined(payload, SignatureOf(hmac, payload, secret));
  }

  lemma VerifiedIsSigned(hmac: Hmac, token: string, secret: string) returns (payload: string)
    requires VerifyVerificationToken(hmac, token, secret).Some?
    ensures IsSigned(hmac, token, secret, payload)
    ensures VerifyVerificationToken(hmac, token, secret) == Some(IdOf(payload)) && IdOf(payload) != ""
  {
    payload := Split(token)[0];
    PartsHaveNoSeparator(token);
    TwoParts(token);
    Utf8.EncodeInjective(Split(token)[1], SignatureOf(hmac, payload, secret));
  }

  /** A token is accepted for an id exactly if it is a payload that stands for the id, a dot and that
      payload's signature. */
  lemma AcceptedExactly(hmac: Hmac, token: string, secret: string, bookingId: string)
    ensures VerifyVerificationToken(hmac, token, secret) == Some(bookingId)
       <==> bookingId != "" && exists payload :: IsSigned(hmac, token, secret, payload) && IdOf(payload) == bookingId
  {
    if VerifyVerificationToken(hmac, token, secret) == Some(bookingId) {
      var payload := VerifiedIsSigned(hmac, token, secret);
    }
    forall payload | IsSigned(hmac, token, secret, payload)
      ensures VerifyVerificationToken(hmac, token, secret) == if IdOf(payload) == "" then None else Some(IdOf(payload))
    {
      SignedVerifies(hmac, token, secret, payload);
    }
  }

  // ----- round trip -----

  lemma PayloadIsUrlSafe(bookingId: string)
    ensures forall c | c in PayloadOf(bookingId) :: UrlSafe(c) && c != SEPARATOR
    ensures PayloadOf(bookingId) == "" <==> bookingId == ""
  {
    EncodedIsUrlSafe(Packed(Utf8.Encode(bookingId)));
    EncodedLength(Packed(Utf8.Encode(bookingId)));
  }

  /** A signed token gives the id back, for every secret and every id but the empty one. */
  lemma VerifySigned(hmac: Hmac, bookingId: string, secret: string)
    ensures VerifyVerificationToken(hmac, SignVerificationToken(hmac, bookingId, secret), secret)
         == if bookingId == "" then None else Some(bookingId)
  {
    var token, payload := SignVerificationToken(hmac, bookingId, secret), PayloadOf(bookingId);
    PayloadIsUrlSafe(bookingId);
    IdOfPayload(bookingId);
    if bookingId != "" {
      SignedVerifies(hmac, token, secret, payload);
    } else {
      EncodedIsUrlSafe(hmac(secret, payload));
      SplitJoined(payload, SignatureOf(hmac, payload, secret));
    }
  }

  /** Under another secret the token is accepted just when the two secrets hash its payload alike. */
  lemma VerifyUnderAnotherSecret(hmac: Hmac, bookingId: string, secret: string, other: string)
    requires bookingId != ""
    ensures VerifyVerificationToken(hmac, SignVerificationToken(hmac, bookingId, secret), other)
         == if hmac(secret, PayloadOf(bookingId)) == hmac(other, PayloadOf(bookingId)) then Some(bookingId) else None
  {
    var payload := PayloadOf(bookingId);
    PayloadIsUrlSafe(bookingId);
    IdOfPayload(bookingId);
    EncodedIsUrlSafe(hmac(secret, payload));
    EncodedLength(hmac(secret, payload));
    SplitJoined(payload, SignatureOf(hmac, payload, secret));
    if hmac(secret, payload) != hmac(other, payload) {
      Base64Url.DecodeEncode(hmac(secret, payload));
      Base64Url.DecodeEncode(hmac(other, payload));
      if Utf8.Encode(SignatureOf(hmac, payload, secret)) == Utf8.Encode(SignatureOf(hmac, payload, other)) {
        Utf8.EncodeInjective(SignatureOf(hmac, payload, secret), SignatureOf(hmac, payload, other));
      }
    }
  }

  /** Two bookings never share a token, whatever the secrets. */
  lemma TokensDiffer(hmac: Hmac, id: string, secret: string, otherId: string, other: string)
    requires SignVerificationToken(hmac, id, secret) == SignVerificationToken(hmac, otherId, other)
    ensures id == otherId
  {
    PayloadIsUrlSafe(id);
    PayloadIsUrlSafe(otherId);
    EncodedIsUrlSafe(hmac(secret, PayloadOf(id)));
    EncodedIsUrlSafe(hmac(other, PayloadOf(otherId)));
    SplitJoined(PayloadOf(id), SignatureOf(hmac, PayloadOf(id), secret));
    SplitJoined(PayloadOf(otherId), SignatureOf(hmac, PayloadOf(otherId), other));
    IdOfPayload(id);
    IdOfPayload(otherId);
  }
}
