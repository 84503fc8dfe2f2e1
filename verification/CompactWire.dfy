/** What the frames of the compact codec look like on the wire, byte by byte, and which envelopes have one. */
module CompactWire {
  import opened Options
  import opened Utf8
  import opened Compact
  import opened CompactLaws
  import Rounding

  // ----- Reading numbers off the wire -----

  /** The bytes as the digits of a number to the base 256, most significant first. */
  function Big(b: Bytes): nat {
    if b == [] then 0 else Big(b[..|b| - 1]) * 256 + b[|b| - 1]
  }

  /** The same as a signed number of four bytes, in two's complement. */
  function Signed(b: Bytes): int {
    if Big(b) < 0x8000_0000 then Big(b) else Big(b) - 0x1_0000_0000
  }

  lemma Big2(b: Bytes)
    requires |b| == 2
    ensures Big(b) == (b[0] as int) * 256 + b[1] as int
  {
    assert b[..1][..0] == [] && b[..1][0] == b[0];
    assert Big(b[..1]) == Big([]) * 256 + b[0] as int;
  }

  lemma Big4(b: Bytes)
    requires |b| == 4
    ensures Big(b) == Big(b[..2]) * 65536 + Big(b[2..])
  {
    Big2(b[..2]);
    Big2(b[2..]);
    assert b[..3][..2] == b[..2] && b[..3][2] == b[2];
  }

  lemma BigU16(n: int)
    requires 0 <= n <= 0xFFFF
    ensures Big(U16(n)) == n
  {
    Big2(U16(n));
  }

  lemma BigU32(n: int)
    requires 0 <= n < 0x1_0000_0000
    ensures Big(U32(n)) == n
  {
    Big4(U32(n));
    assert U32(n)[..2] == U16(n / 0x1_0000) && U32(n)[2..] == U16(n % 0x1_0000);
    BigU16(n / 0x1_0000);
    BigU16(n % 0x1_0000);
  }

  lemma SignedI32(n: int)
    requires IsI32(n)
    ensures Signed(I32(n)) == n
  {
    BigU32(if n < 0 then n + 0x1_0000_0000 else n);
  }

  // ----- Values -----

  /** The integer part of the time, reduced to 32 bits. */
  ghost predicate IsStamp(stamp: int, ts: real) {
    && 0 <= stamp < 0x1_0000_0000
    && exists wraps: int ::
         var whole := (stamp + wraps * 0x1_0000_0000) as real;
         if ts >= 0.0 then whole <= ts < whole + 1.0 else whole - 1.0 < ts <= whole
  }

  lemma StampIs(ts: real)
    ensures IsStamp(Timestamp(ts), ts)
  {
    var whole := if ts < 0.0 then -(-ts).Floor else ts.Floor;
    assert Timestamp(ts) + whole / 0x1_0000_0000 * 0x1_0000_0000 == whole;
  }

  ghost predicate IsNearest(n: int, x: real) { -0.5 <= x - n as real <= 0.5 }

  /** A radius in whole metres, cut off at both ends of the field. */
  ghost predicate IsRadius(n: int, x: real) {
    && (x < 0.0 ==> n == 0) && (x > 65535.0 ==> n == 65535)
    && (0.0 <= x <= 65535.0 ==> IsNearest(n, x))
  }

  predicate IsTier(index: int, tier: Option<Text>) {
    && 0 <= index <= 2
    && (index == 1 <==> tier == Some([98, 97, 99, 107, 98, 111, 110, 101]))
    && (index == 2 <==> tier == Some([98, 97, 115, 101]))
  }

  // ----- Layout -----

  /** A string at this place: its length in one byte, then its characters. */
  predicate HoldsText(b: Bytes, at: nat, t: Text) {
    && at + 1 + |Encode(t)| <= |b|
    && b[at] as int == |Encode(t)| && b[at + 1..at + 1 + |Encode(t)|] == Encode(t)
  }

  /** Version, kind and time in six bytes, then the sender and the message id. */
  ghost predicate HoldsHead(b: Bytes, e: Envelope, kind: int) {
    && |b| >= 6 && b[0] as int == e.schema % 256 && b[1] as int == kind && IsStamp(Big(b[2..6]), e.ts)
    && HoldsText(b, 6, e.sourceUid) && HoldsText(b, 7 + |Encode(e.sourceUid)|, e.msgId)
  }

  function BodyAt(e: Envelope): nat { 8 + |Encode(e.sourceUid)| + |Encode(e.msgId)| }

  /** Latitude, longitude and height in four bytes each, two radii in two, then the callsign and the tier. */
  ghost predicate HoldsPosition(b: Bytes, at: nat, p: Position, uid: Text) {
    && at + 18 <= |b|
    && IsNearest(Signed(b[at..at + 4]), Or(p.lat, 0.0) * 10000000.0)
    && IsNearest(Signed(b[at + 4..at + 8]), Or(p.lon, 0.0) * 10000000.0)
    && IsNearest(Signed(b[at + 8..at + 12]), Or(p.hae, 0.0))
    && IsRadius(Big(b[at + 12..at + 14]), Or(p.ce, 65535.0))
    && IsRadius(Big(b[at + 14..at + 16]), Or(p.le, 65535.0))
    && HoldsText(b, at + 16, Or(p.callsign, uid))
    && |b| == at + 18 + |Encode(Or(p.callsign, uid))| && IsTier(b[|b| - 1], p.tier)
  }

  /** Recipient, length of the text in two bytes, and the text. */
  predicate HoldsChat(b: Bytes, at: nat, text: Text, to: Text) {
    && HoldsText(b, at, to)
    && var start := at + 1 + |Encode(to)| + 2;
       && start + |Encode(text)| == |b| && Big(b[start - 2..start]) == |Encode(text)|
       && b[start..] == Encode(text)
  }

  lemma TextAt(b: Bytes, at: nat, t: Text)
    requires Fits(t) && at + |Str(t)| <= |b| && b[at..at + |Str(t)|] == Str(t)
    ensures HoldsText(b, at, t)
  {
    assert b[at] == b[at..at + |Str(t)|][0];
    assert b[at + 1..at + 1 + |Encode(t)|] == b[at..at + |Str(t)|][1..];
    assert Str(t)[1..] == Encode(t);
  }

  lemma HeadOnTheWire(b: Bytes, e: Envelope)
    requires HeadOf(e).Valid() && HeadBytes(HeadOf(e)) <= b
    ensures HoldsHead(b, e, KindOf(e.body)) && |HeadBytes(HeadOf(e))| == BodyAt(e)
  {
    var h := HeadOf(e);
    var opening, uid, id := Opening(h), Str(h.uid), Str(h.msgId);
    HeadPlaces(b, opening, uid, id);
    assert opening[2..] == U32(h.ts);
    BigU32(h.ts);
    StampIs(e.ts);
    TextAt(b, 6, h.uid);
    TextAt(b, 6 + |uid|, h.msgId);
  }

  lemma HeadPlaces(b: Bytes, opening: Bytes, uid: Bytes, id: Bytes)
    requires |opening| == 6 && opening + uid + id <= b
    ensures 6 + |uid| + |id| <= |b| && b[0] == opening[0] && b[1] == opening[1] && b[2..6] == opening[2..]
    ensures b[6..6 + |uid|] == uid && b[6 + |uid|..6 + |uid| + |id|] == id
  {
    var head := opening + uid + id;
    assert b[..|head|] == head;
    assert forall i | 0 <= i < |head| :: b[i] == head[i];
  }

  lemma NumbersOnTheWire(n: Bytes, f: Fix)
    requires f.Valid() && n == Numbers(f)
    ensures Signed(n[..4]) == f.lat && Signed(n[4..8]) == f.lon && Signed(n[8..12]) == f.hae
    ensures Big(n[12..14]) == f.ce && Big(n[14..]) == f.le && |n| == 16
  {
    assert n[..4] == I32(f.lat) && n[4..8] == I32(f.lon) && n[8..12] == I32(f.hae);
    assert n[12..14] == U16(f.ce) && n[14..] == U16(f.le);
    SignedI32(f.lat);
    SignedI32(f.lon);
    SignedI32(f.hae);
    BigU16(f.ce);
    BigU16(f.le);
  }

  lemma FixNumbersOnTheWire(b: Bytes, at: nat, f: Fix)
    requires f.Valid() && at + 16 <= |b| && b[at..at + 16] == Numbers(f)
    ensures Signed(b[at..at + 4]) == f.lat && Signed(b[at + 4..at + 8]) == f.lon && Signed(b[at + 8..at + 12]) == f.hae
    ensures Big(b[at + 12..at + 14]) == f.ce && Big(b[at + 14..at + 16]) == f.le
  {
    var n := Numbers(f);
    NumbersOnTheWire(n, f);
    assert b[at..at + 4] == n[..4] by { Inside(b, at, at + 16, 0, 4); }
    assert b[at + 4..at + 8] == n[4..8] by { Inside(b, at, at + 16, 4, 8); }
    assert b[at + 8..at + 12] == n[8..12] by { Inside(b, at, at + 16, 8, 12); }
    assert b[at + 12..at + 14] == n[12..14] by { Inside(b, at, at + 16, 12, 14); }
    assert b[at + 14..at + 16] == n[14..] by { Inside(b, at, at + 16, 14, 16); }
  }

  lemma Inside(b: Bytes, from: nat, to: nat, low: nat, high: nat)
    requires from <= to <= |b| && low <= high <= to - from
    ensures b[from..to][low..high] == b[from + low..from + high]
  {
    forall i | 0 <= i < high - low ensures b[from..to][low..high][i] == b[from + low..from + high][i] {
      assert b[from..to][low + i] == b[from + (low + i)];
    }
  }

  lemma FixOnTheWire(b: Bytes, at: nat, p: Position, uid: Text)
    requires FixOf(p, uid).Valid() && at <= |b| && b[at..] == FixBytes(FixOf(p, uid))
    ensures HoldsPosition(b, at, p, uid)
  {
    var f := FixOf(p, uid);
    var n, callsign := Numbers(f), Str(f.callsign);
    FixPlaces(b, at, n, callsign, f.tier);
    FixNumbersOnTheWire(b, at, f);
    TextAt(b, at + 16, f.callsign);
  }

  lemma FixPlaces(b: Bytes, at: nat, numbers: Bytes, callsign: Bytes, tier: Byte)
    requires at <= |b| && |numbers| == 16 && b[at..] == numbers + callsign + [tier]
    ensures |b| == at + 17 + |callsign| && b[|b| - 1] == tier
    ensures b[at..at + 16] == numbers && b[at + 16..at + 16 + |callsign|] == callsign
  {
    var rest := b[at..];
    assert rest[..16] == numbers && rest[16..16 + |callsign|] == callsign;
    assert b[at..at + 16] == rest[..16];
    assert b[at + 16..at + 16 + |callsign|] == rest[16..16 + |callsign|];
    assert b[|b| - 1] == rest[|rest| - 1];
  }

  /** Every position or marker frame, byte by byte. */
  lemma PositionOnTheWire(e: Envelope)
    requires EncodeEnvelope(e).Encoded? && IsPosition(e)
    ensures var b := EncodeEnvelope(e).bytes;
            HoldsHead(b, e, if e.body.Pli? then 0 else 2) && HoldsPosition(b, BodyAt(e), e.body.position, e.sourceUid)
  {
    FixValid(e);
    var b, head := EncodeEnvelope(e).bytes, HeadBytes(HeadOf(e));
    HeadOnTheWire(b, e);
    assert b[|head|..] == FixBytes(FixOf(e.body.position, e.sourceUid));
    FixOnTheWire(b, |head|, e.body.position, e.sourceUid);
  }

  lemma BodyOnTheWire(b: Bytes, at: nat, text: Text, to: Text)
    requires Fits(to) && |Encode(text)| <= U16_MAX && at <= |b| && b[at..] == ChatBytes(to, text)
    ensures HoldsChat(b, at, text, to)
  {
    assert b[at..at + |Str(to)|] == b[at..][..|Str(to)|] == Str(to);
    TextAt(b, at, to);
    var start := at + |Str(to)| + 2;
    assert b[start - 2..start] == b[at..][|Str(to)|..|Str(to)| + 2] == U16(|Encode(text)|);
    BigU16(|Encode(text)|);
    assert b[start..] == b[at..][|Str(to)| + 2..] == Encode(text);
  }

  /** Every chat frame, byte by byte. */
  lemma ChatOnTheWire(e: Envelope)
    requires EncodeEnvelope(e).Encoded? && e.body.Chat?
    ensures var b := EncodeEnvelope(e).bytes;
            HoldsHead(b, e, 1) && HoldsChat(b, BodyAt(e), Or(e.body.text, []), Or(e.body.to, []))
  {
    ChatFrame(e);
    var b, head := EncodeEnvelope(e).bytes, HeadBytes(HeadOf(e));
    var to, text := Or(e.body.to, []), Or(e.body.text, []);
    HeadOnTheWire(b, e);
    assert b[|head|..] == ChatBytes(to, text);
    BodyOnTheWire(b, |head|, text, to);
  }

  // ----- Which envelopes have a frame -----

  predicate Short(t: Text) { |Encode(t)| <= 255 }

  /** A signed number of four bytes. */
  predicate InRange(n: int) { -2147483648 <= n <= 2147483647 }

  predicate CoordinatesInRange(p: Position) {
    && InRange(Rounding.Round(Or(p.lat, 0.0) * 10000000.0)) && InRange(Rounding.Round(Or(p.lon, 0.0) * 10000000.0))
    && InRange(Rounding.Round(Or(p.hae, 0.0)))
  }

  /** An envelope has a frame exactly when its strings take at most 255 bytes, its chat text at most 65535, and its
      rounded coordinates fit. Otherwise the first of these that fails, in the order of the frame, is the error. */
  lemma EncodesExactly(e: Envelope)
    ensures var r := EncodeEnvelope(e);
            var named := Short(e.sourceUid) && Short(e.msgId);
            && (r.Encoded? <==>
                  && named
                  && (e.body.Chat? ==> Short(Or(e.body.to, [])) && |Encode(Or(e.body.text, []))| <= 65535)
                  && (IsPosition(e) ==>
                        CoordinatesInRange(e.body.position) && Short(Or(e.body.position.callsign, e.sourceUid))))
            && (r == NumberOutOfRange <==>
                  && named
                  && (e.body.Chat? ==> Short(Or(e.body.to, [])) && |Encode(Or(e.body.text, []))| > 65535)
                  && (IsPosition(e) ==> !CoordinatesInRange(e.body.position)))
  {
  }

  /** What a receiver sees of absent fields: the sender's id for the callsign, the first tier for a missing or unknown
      one, and no recipient for an empty one. */
  lemma DefaultsArrive(e: Envelope)
    requires EncodeEnvelope(e).Encoded?
    ensures var q := Quantised(e);
            && q.sourceUid == e.sourceUid && q.msgId == e.msgId && q.schema == e.schema % 256
            && (exists stamp :: q.ts == stamp as real && IsStamp(stamp, e.ts))
            && (e.body.Pli? <==> q.body.Pli?) && (e.body.Marker? <==> q.body.Marker?)
            && (IsPosition(e) ==>
                  var p, r := e.body.position, q.body.position;
                  && r.callsign == Some(if p.callsign.Some? then p.callsign.value else e.sourceUid)
                  && r.tier == Some(if p.tier.Some? && p.tier.value in Tiers then p.tier.value
                                    else [117, 115, 101, 114]))
            && (e.body.Chat? ==>
                  && q.body.text == Some(if e.body.text.Some? then e.body.text.value else [])
                  && q.body.to == if e.body.to == Some([]) then None else e.body.to)
  {
    StampIs(e.ts);
  }
}
