/** UTF-8 as a strict codec: exactly the encodings of scalar-value texts decode. */
module Utf8 {
  import opened Options

  type Byte = b: int | 0 <= b < 256
  type Bytes = seq<Byte>

  /** Unicode scalar values: code points without the surrogates. */
  type Scalar = c: int | 0 <= c < 0xD800 || 0xE000 <= c < 0x110000
  type Text = seq<Scalar>

  function EncodeScalar(c: Scalar): (r: Bytes)
    ensures 1 <= |r| <= 4
  {
    if c < 0x80 then [c]
    else if c < 0x800 then [0xC0 + c / 64, 0x80 + c % 64]
    else if c < 0x10000 then [0xE0 + c / 4096, 0x80 + c / 64 % 64, 0x80 + c % 64]
    else [0xF0 + c / 262144, 0x80 + c / 4096 % 64, 0x80 + c / 64 % 64, 0x80 + c % 64]
  }

  /** A scalar takes as few bytes as its size allows; the lead byte tells how many, and each of the others carries
      six bits. */
  lemma ScalarBytes(c: Scalar)
    ensures var e := EncodeScalar(c);
            && (|e| == 1 <==> c <= 0x7F) && (|e| <= 2 <==> c <= 0x7FF) && (|e| <= 3 <==> c <= 0xFFFF)
            && (forall i | 1 <= i < |e| :: 0x80 <= e[i] <= 0xBF)
            && (|e| == 1 ==> e[0] as int == c)
            && (|e| == 2 ==> 0xC0 <= e[0] <= 0xDF && c == (e[0] as int - 0xC0) * 64 + (e[1] as int - 0x80))
            && (|e| == 3 ==>
                  && 0xE0 <= e[0] <= 0xEF
                  && c == (e[0] as int - 0xE0) * 4096 + (e[1] as int - 0x80) * 64 + (e[2] as int - 0x80))
            && (|e| == 4 ==>
                  && 0xF0 <= e[0] <= 0xF7
                  && c == (e[0] as int - 0xF0) * 262144 + (e[1] as int - 0x80) * 4096
                          + (e[2] as int - 0x80) * 64 + (e[3] as int - 0x80))
  {
    assert c == c / 64 * 64 + c % 64;
    assert c / 64 == c / 4096 * 64 + c / 64 % 64;
    assert c / 4096 == c / 262144 * 64 + c / 4096 % 64;
  }

  function Encode(t: Text): Bytes {
    if t == [] then [] else EncodeScalar(t[0]) + Encode(t[1..])
  }

  predicate Continues(b: Byte) {
    0x80 <= b < 0xC0
  }

  /** The first scalar of `s` and the number of bytes it takes. */
  function DecodeScalar(s: Bytes): (r: Option<(Scalar, nat)>)
    requires s != []
    ensures r.Some? ==> 1 <= r.value.1 <= |s|
  {
    var b := s[0];
    if b < 0x80 then Some((b, 1))
    else if b < 0xC0 then None
    else if b < 0xE0 then
      if |s| < 2 || !Continues(s[1]) then None
      else
        var c: int := (b - 0xC0) * 64 + (s[1] - 0x80);
        if c < 0x80 then None else Some((c, 2))
    else if b < 0xF0 then
      if |s| < 3 || !Continues(s[1]) || !Continues(s[2]) then None
      else
        var c: int := (b - 0xE0) * 4096 + (s[1] - 0x80) * 64 + (s[2] - 0x80);
        if c < 0x800 || 0xD800 <= c < 0xE000 then None else Some((c, 3))
    else
      if |s| < 4 || !Continues(s[1]) || !Continues(s[2]) || !Continues(s[3]) then None
      else
        var c: int := (b - 0xF0) * 262144 + (s[1] - 0x80) * 4096 + (s[2] - 0x80) * 64 + (s[3] - 0x80);
        if c < 0x10000 || 0x110000 <= c then None else Some((c, 4))
  }

  function Decode(s: Bytes): Option<Text> {
    if s == [] then Some([])
    else
      match DecodeScalar(s)
      case None => None
      case Some((c, n)) =>
        match Decode(s[n..])
        case None => None
        case Some(rest) => Some([c] + rest)
  }

  lemma ScalarRoundTrip(c: Scalar, rest: Bytes)
    ensures DecodeScalar(EncodeScalar(c) + rest) == Some((c, |EncodeScalar(c)|))
  {
    var e := EncodeScalar(c);
    var s := e + rest;
    assert forall i | 0 <= i < |e| :: s[i] == e[i];
    assert c == c / 64 * 64 + c % 64;
    assert c / 64 == c / 4096 * 64 + c / 64 % 64;
    assert c / 4096 == c / 262144 * 64 + c / 4096 % 64;
  }

  lemma Digits(high: int, low: int)
    requires 0 <= low < 64
    ensures (high * 64 + low) / 64 == high && (high * 64 + low) % 64 == low
  {
  }

  lemma ScalarCanonical(s: Bytes)
    requires s != [] && DecodeScalar(s).Some?
    ensures EncodeScalar(DecodeScalar(s).value.0) == s[..DecodeScalar(s).value.1]
  {
    var (c, n) := DecodeScalar(s).value;
    if n == 2 {
      Digits(s[0] - 0xC0, s[1] - 0x80);
    } else if n == 3 {
      Canonical3(s, c);
    } else if n == 4 {
      Canonical4(s, c);
    }
  }

  lemma Canonical3(s: Bytes, c: Scalar)
    requires s != [] && DecodeScalar(s) == Some((c, 3))
    ensures EncodeScalar(c) == s[..3]
  {
    var a: int, b: int, d: int := s[0] - 0xE0, s[1] - 0x80, s[2] - 0x80;
    assert c == (a * 64 + b) * 64 + d;
    Digits(a * 64 + b, d);
    Digits(a, b);
    assert c / 4096 == c / 64 / 64;
  }

  lemma Canonical4(s: Bytes, c: Scalar)
    requires s != [] && DecodeScalar(s) == Some((c, 4))
    ensures EncodeScalar(c) == s[..4]
  {
    var a: int, b: int, d: int, e: int := s[0] - 0xF0, s[1] - 0x80, s[2] - 0x80, s[3] - 0x80;
    assert c == ((a * 64 + b) * 64 + d) * 64 + e;
    Digits((a * 64 + b) * 64 + d, e);
    Digits(a * 64 + b, d);
    Digits(a, b);
    assert c / 4096 == c / 64 / 64 && c / 262144 == c / 64 / 64 / 64;
  }

  lemma {:induction false} RoundTrip(t: Text)
    ensures Decode(Encode(t)) == Some(t)
  {
    if t != [] {
      ScalarRoundTrip(t[0], Encode(t[1..]));
      RoundTrip(t[1..]);
      assert Encode(t) == EncodeScalar(t[0]) + Encode(t[1..]);
      assert [t[0]] + t[1..] == t;
      assert Encode(t)[|EncodeScalar(t[0])|..] == Encode(t[1..]);
    }
  }

  /** Every byte string that decodes is the encoding of what it decodes to. */
  lemma {:induction false} Canonical(s: Bytes)
    requires Decode(s).Some?
    ensures Encode(Decode(s).value) == s
  {
    if s != [] {
      var n := DecodeScalar(s).value.1;
      ScalarCanonical(s);
      Canonical(s[n..]);
      assert s == s[..n] + s[n..];
    }
  }

  /** An encoding can be a prefix of another only if the text is. */
  lemma {:induction false} PrefixOfText(u: Text, t: Text)
    requires Encode(u) <= Encode(t)
    ensures u <= t
  {
    if u != [] {
      if t != [] {
        ScalarRoundTrip(u[0], Encode(t)[|EncodeScalar(u[0])|..]);
        assert Encode(t) == EncodeScalar(u[0]) + Encode(t)[|EncodeScalar(u[0])|..];
        ScalarRoundTrip(t[0], Encode(t[1..]));
        assert Encode(u)[|EncodeScalar(u[0])|..] == Encode(u[1..]);
        assert Encode(t)[|EncodeScalar(t[0])|..] == Encode(t[1..]);
        PrefixOfText(u[1..], t[1..]);
      }
    }
  }

  /** Cutting an encoding short leaves a decodable string exactly at scalar boundaries,
      and then a prefix of the text. */
  lemma CutDecodes(t: Text, k: nat)
    requires k <= |Encode(t)|
    ensures Decode(Encode(t)[..k]).Some? <==> exists m | 0 <= m <= |t| :: Encode(t[..m]) == Encode(t)[..k]
    ensures forall m | 0 <= m <= |t| && Encode(t[..m]) == Encode(t)[..k] :: Decode(Encode(t)[..k]) == Some(t[..m])
  {
    var cut := Encode(t)[..k];
    if Decode(cut).Some? {
      var u := Decode(cut).value;
      Canonical(cut);
      PrefixOfText(u, t);
      assert u == t[..|u|];
    }
    forall m | 0 <= m <= |t| && Encode(t[..m]) == cut
      ensures Decode(cut) == Some(t[..m])
    {
      RoundTrip(t[..m]);
    }
  }
}
