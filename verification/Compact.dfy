/** The compact binary codec for radio links: position reports, markers and chat. */
module Compact {
  import opened Options
  import opened Utf8
  import Rounding

  // ----- Envelopes -----

  /** Fields of a position payload as the caller gave them; absent ones get defaults. */
  datatype Position = Position(
    callsign: Option<Text>, tier: Option<Text>,
    lat: Option<real>, lon: Option<real>, hae: Option<real>, ce: Option<real>, le: Option<real>)

  datatype Body = Pli(position: Position) | Marker(position: Position) | Chat(text: Option<Text>, to: Option<Text>)

  datatype Envelope = Envelope(schema: int, msgId: Text, ts: real, sourceUid: Text, body: Body)

  const PLI := 0
  const CHAT := 1
  const MARKER := 2
  const STATUS := 3

  const USER: Text := [117, 115, 101, 114]
  const BACKBONE: Text := [98, 97, 99, 107, 98, 111, 110, 101]
  const BASE: Text := [98, 97, 115, 101]
  const Tiers: seq<Text> := [USER, BACKBONE, BASE]

  const SCALE := 10000000.0
  const U16_MAX := 0xFFFF

  datatype EncodeResult = Encoded(bytes: Bytes) | StringTooLong | NumberOutOfRange

  /** `Fallback` is a frame of a kind whose body is free-form JSON. */
  datatype DecodeResult = Decoded(envelope: Envelope) | IncompatibleSchema | Undecodable | Fallback

  // ----- Numbers on the wire, big-endian -----

  function U16(n: int): Bytes
    requires 0 <= n <= 0xFFFF
  {
    [n / 0x100, n % 0x100]
  }

  function U32(n: int): Bytes
    requires 0 <= n < 0x1_0000_0000
  {
    U16(n / 0x1_0000) + U16(n % 0x1_0000)
  }

  predicate IsI32(n: int) {
    -0x8000_0000 <= n < 0x8000_0000
  }

  function I32(n: int): Bytes
    requires IsI32(n)
  {
    U32(if n < 0 then n + 0x1_0000_0000 else n)
  }

  function GetU16(data: Bytes, off: nat): int
    requires off + 2 <= |data|
  {
    var high: int := data[off];
    high * 0x100 + data[off + 1]
  }

  function GetU32(data: Bytes, off: nat): int
    requires off + 4 <= |data|
  {
    GetU16(data, off) * 0x1_0000 + GetU16(data, off + 2)
  }

  function GetI32(data: Bytes, off: nat): int
    requires off + 4 <= |data|
  {
    var n := GetU32(data, off);
    if n < 0x8000_0000 then n else n - 0x1_0000_0000
  }

  lemma U16Bytes(data: Bytes, off: nat, n: int)
    requires off + 2 <= |data| && 0 <= n <= 0xFFFF
    ensures GetU16(data, off) == n <==> data[off..off + 2] == U16(n)
    ensures 0 <= GetU16(data, off) <= 0xFFFF
  {
  }

  lemma U32Bytes(data: Bytes, off: nat, n: int)
    requires off + 4 <= |data| && 0 <= n < 0x1_0000_0000
    ensures GetU32(data, off) == n <==> data[off..off + 4] == U32(n)
    ensures 0 <= GetU32(data, off) < 0x1_0000_0000
  {
    var high, low := n / 0x1_0000, n % 0x1_0000;
    U16Bytes(data, off, high);
    U16Bytes(data, off + 2, low);
    assert data[off..off + 4] == data[off..off + 2] + data[off + 2..off + 4];
    assert U32(n)[..2] == U16(high) && U32(n)[2..] == U16(low);
  }

  lemma I32Bytes(data: Bytes, off: nat, n: int)
    requires off + 4 <= |data| && IsI32(n)
    ensures GetI32(data, off) == n <==> data[off..off + 4] == I32(n)
    ensures IsI32(GetI32(data, off))
  {
    U32Bytes(data, off, if n < 0 then n + 0x1_0000_0000 else n);
  }

  // ----- Strings on the wire: a length byte, then that many bytes -----

  predicate Fits(t: Text) {
    |Encode(t)| <= 255
  }

  function Str(t: Text): Bytes
    requires Fits(t)
  {
    [|Encode(t)|] + Encode(t)
  }

  /** Slicing that stops at the end of the data. */
  function Slice(data: Bytes, low: nat, high: nat): Bytes
    requires low <= high
  {
    if low >= |data| then [] else if high >= |data| then data[low..] else data[low..high]
  }

  lemma SliceInside(data: Bytes, low: nat, high: nat)
    requires low <= high <= |data|
    ensures Slice(data, low, high) == data[low..high]
  {
  }

  /** Reads a string; the bytes may run out early, the offset moves on regardless. */
  function GetStr(data: Bytes, off: nat): Option<(Text, nat)> {
    if off >= |data| then None
    else
      var n: nat := data[off];
      match Decode(Slice(data, off + 1, off + 1 + n))
      case None => None
      case Some(t) => Some((t, off + 1 + n))
  }

  lemma StrParses(data: Bytes, off: nat, t: Text)
    requires Fits(t) && off + |Str(t)| <= |data| && data[off..off + |Str(t)|] == Str(t)
    ensures GetStr(data, off) == Some((t, off + |Str(t)|))
  {
    var s := data[off..off + |Str(t)|];
    assert data[off] == s[0];
    assert data[off + 1..off + |Str(t)|] == s[1..];
    assert s[1..] == Encode(t);
    SliceInside(data, off + 1, off + |Str(t)|);
    RoundTrip(t);
  }

  lemma StrJoins(data: Bytes, off: nat, end: nat, t: Text)
    requires off < end <= |data| && data[off] == end - off - 1 && Encode(t) == data[off + 1..end]
    ensures Fits(t) && data[off..end] == Str(t)
  {
    assert data[off..end] == [data[off]] + data[off + 1..end];
  }

  lemma StrComplete(data: Bytes, off: nat)
    requires GetStr(data, off).Some? && GetStr(data, off).value.1 <= |data|
    ensures var (t, end) := GetStr(data, off).value;
            Fits(t) && off + |Str(t)| == end && data[off..end] == Str(t)
  {
    var (t, end) := GetStr(data, off).value;
    SliceInside(data, off + 1, end);
    Canonical(data[off + 1..end]);
    StrJoins(data, off, end, t);
  }

  // ----- Frames as records -----

  datatype Head = Head(schema: Byte, kind: Byte, ts: int, uid: Text, msgId: Text) {
    predicate Valid() { 0 <= ts < 0x1_0000_0000 && Fits(uid) && Fits(msgId) }
  }

  datatype Fix = Fix(lat: int, lon: int, hae: int, ce: int, le: int, callsign: Text, tier: Byte) {
    predicate Valid() {
      && IsI32(lat) && IsI32(lon) && IsI32(hae)
      && 0 <= ce <= U16_MAX && 0 <= le <= U16_MAX
      && Fits(callsign) && tier < 3
    }
  }

  /** Schema, kind and timestamp occupy the first six bytes. */
  function Opening(h: Head): Bytes
    requires 0 <= h.ts < 0x1_0000_0000
  {
    [h.schema, h.kind] + U32(h.ts)
  }

  function HeadBytes(h: Head): Bytes
    requires h.Valid()
  {
    Opening(h) + Str(h.uid) + Str(h.msgId)
  }

  /** The numbers of a fix occupy its first sixteen bytes, at fixed places. */
  function Numbers(f: Fix): Bytes
    requires f.Valid()
  {
    I32(f.lat) + I32(f.lon) + I32(f.hae) + U16(f.ce) + U16(f.le)
  }

  function FixBytes(f: Fix): Bytes
    requires f.Valid()
  {
    Numbers(f) + Str(f.callsign) + [f.tier]
  }

  /** Recipient and text length of a chat body. */
  function Preamble(to: Text, n: int): Bytes
    requires Fits(to) && 0 <= n <= U16_MAX
  {
    Str(to) + U16(n)
  }

  function ChatBytes(to: Text, text: Text): Bytes
    requires Fits(to) && |Encode(text)| <= U16_MAX
  {
    Preamble(to, |Encode(text)|) + Encode(text)
  }

  /** Everything before the body; the offset is where the body starts. */
  function GetHead(data: Bytes): Option<(Head, nat)> {
    if |data| < 6 then None
    else
      match GetStr(data, 6)
      case None => None
      case Some((uid, off)) =>
        match GetStr(data, off)
        case None => None
        case Some((msgId, end)) => Some((Head(data[0], data[1], GetU32(data, 2), uid, msgId), end))
  }

  function GetFix(data: Bytes, off: nat): Option<(Fix, nat)> {
    if off + 16 > |data| then None
    else
      match GetStr(data, off + 16)
      case None => None
      case Some((callsign, end)) =>
        if end >= |data| || data[end] >= 3 then None
        else Some((Fix(GetI32(data, off), GetI32(data, off + 4), GetI32(data, off + 8),
                       GetU16(data, off + 12), GetU16(data, off + 14), callsign, data[end]), end + 1))
  }

  /** Where `part` of the block `before + part + after` at `off` sits in the data. */
  lemma PartAt(data: Bytes, off: nat, before: Bytes, part: Bytes, rest: Bytes)
    requires off + |before + part + rest| <= |data|
    requires data[off..off + |before + part + rest|] == before + part + rest
    ensures data[off + |before|..off + |before| + |part|] == part
  {
    var whole, low := before + part + rest, off + |before|;
    forall i | 0 <= i < |part|
      ensures data[low..low + |part|][i] == part[i]
    {
      assert data[off..off + |whole|][|before| + i] == whole[|before| + i];
    }
  }

  lemma OpeningParse(data: Bytes, h: Head)
    requires 0 <= h.ts < 0x1_0000_0000 && |data| >= 6
    ensures data[0..6] == Opening(h) <==> data[0] == h.schema && data[1] == h.kind && GetU32(data, 2) == h.ts
  {
    U32Bytes(data, 2, h.ts);
    var s, n := data[0..6], Opening(h);
    assert s[2..] == data[2..6] && n[2..] == U32(h.ts);
    assert s == [s[0], s[1]] + s[2..] && n == [n[0], n[1]] + n[2..];
  }

  lemma HeadAssembles(data: Bytes, h: Head, off: nat, end: nat)
    requires |data| >= 6 && data[0] == h.schema && data[1] == h.kind && GetU32(data, 2) == h.ts
    requires GetStr(data, 6) == Some((h.uid, off)) && GetStr(data, off) == Some((h.msgId, end))
    ensures GetHead(data) == Some((h, end))
  {
  }

  lemma HeadParses(data: Bytes, h: Head)
    requires h.Valid() && HeadBytes(h) <= data
    ensures GetHead(data) == Some((h, |HeadBytes(h)|))
  {
    var n, s, t := Opening(h), Str(h.uid), Str(h.msgId);
    assert data[0..|n + s + t|] == n + s + t;
    Parts(data, 0, n, s, t);
    OpeningParse(data, h);
    StrParses(data, 6, h.uid);
    StrParses(data, 6 + |s|, h.msgId);
    HeadAssembles(data, h, 6 + |s|, 6 + |s| + |t|);
  }

  lemma U32Range(data: Bytes, off: nat)
    requires off + 4 <= |data|
    ensures 0 <= GetU32(data, off) < 0x1_0000_0000
  {
    U32Bytes(data, off, 0);
  }

  lemma HeadJoins(data: Bytes, mid: nat, end: nat, n: Bytes, s: Bytes, t: Bytes)
    requires 6 <= mid <= end <= |data|
    requires data[0..6] == n && data[6..mid] == s && data[mid..end] == t
    ensures data[..end] == n + s + t
  {
  }

  lemma HeadComplete(data: Bytes)
    requires GetHead(data).Some? && GetHead(data).value.1 <= |data|
    ensures var (h, end) := GetHead(data).value; h.Valid() && HeadBytes(h) == data[..end]
  {
    var (h, end) := GetHead(data).value;
    U32Range(data, 2);
    OpeningParse(data, h);
    StrComplete(data, 6);
    var mid := 6 + |Str(h.uid)|;
    StrComplete(data, mid);
    HeadJoins(data, mid, end, Opening(h), Str(h.uid), Str(h.msgId));
  }

  lemma NumbersParse(data: Bytes, off: nat, f: Fix)
    requires f.Valid() && off + 16 <= |data|
    ensures data[off..off + 16] == Numbers(f) <==>
            && GetI32(data, off) == f.lat && GetI32(data, off + 4) == f.lon && GetI32(data, off + 8) == f.hae
            && GetU16(data, off + 12) == f.ce && GetU16(data, off + 14) == f.le
  {
    var s, n := data[off..off + 16], Numbers(f);
    I32Bytes(data, off, f.lat);
    I32Bytes(data, off + 4, f.lon);
    I32Bytes(data, off + 8, f.hae);
    U16Bytes(data, off + 12, f.ce);
    U16Bytes(data, off + 14, f.le);
    assert n[..4] == I32(f.lat) && n[4..8] == I32(f.lon) && n[8..12] == I32(f.hae);
    assert n[12..14] == U16(f.ce) && n[14..] == U16(f.le);
    assert s[..4] == data[off..off + 4] && s[4..8] == data[off + 4..off + 8] && s[8..12] == data[off + 8..off + 12];
    assert s[12..14] == data[off + 12..off + 14] && s[14..] == data[off + 14..off + 16];
    assert s == s[..4] + s[4..8] + s[8..12] + s[12..14] + s[14..];
  }

  /** Where the three parts of the block `a + b + c` at `off` sit in the data. */
  lemma Parts(data: Bytes, off: nat, a: Bytes, b: Bytes, c: Bytes)
    requires off + |a + b + c| <= |data| && data[off..off + |a + b + c|] == a + b + c
    ensures data[off..off + |a|] == a
    ensures data[off + |a|..off + |a| + |b|] == b
    ensures data[off + |a| + |b|..off + |a| + |b| + |c|] == c
  {
    assert a + b + c == [] + a + (b + c) && a + b + c == (a + b) + c + [];
    PartAt(data, off, [], a, b + c);
    PartAt(data, off, a, b, c);
    PartAt(data, off, a + b, c, []);
  }

  lemma FixAssembles(data: Bytes, off: nat, f: Fix, end: nat)
    requires off + 16 <= |data| && end < |data| && data[end] == f.tier && f.tier < 3
    requires GetI32(data, off) == f.lat && GetI32(data, off + 4) == f.lon && GetI32(data, off + 8) == f.hae
    requires GetU16(data, off + 12) == f.ce && GetU16(data, off + 14) == f.le
    requires GetStr(data, off + 16) == Some((f.callsign, end))
    ensures GetFix(data, off) == Some((f, end + 1))
  {
  }

  lemma FixParses(data: Bytes, off: nat, f: Fix)
    requires f.Valid() && off + |FixBytes(f)| <= |data| && data[off..off + |FixBytes(f)|] == FixBytes(f)
    ensures GetFix(data, off) == Some((f, off + |FixBytes(f)|))
  {
    Parts(data, off, Numbers(f), Str(f.callsign), [f.tier]);
    NumbersParse(data, off, f);
    StrParses(data, off + 16, f.callsign);
    var end := off + 16 + |Str(f.callsign)|;
    assert data[end] == data[end..end + 1][0];
    FixAssembles(data, off, f, end);
  }

  lemma NumbersInRange(data: Bytes, off: nat)
    requires off + 16 <= |data|
    ensures IsI32(GetI32(data, off)) && IsI32(GetI32(data, off + 4)) && IsI32(GetI32(data, off + 8))
    ensures 0 <= GetU16(data, off + 12) <= U16_MAX && 0 <= GetU16(data, off + 14) <= U16_MAX
  {
    I32Bytes(data, off, 0);
    I32Bytes(data, off + 4, 0);
    I32Bytes(data, off + 8, 0);
    U16Bytes(data, off + 12, 0);
    U16Bytes(data, off + 14, 0);
  }

  lemma FixJoins(data: Bytes, off: nat, end: nat, n: Bytes, s: Bytes, tier: Byte)
    requires off + 16 < end <= |data|
    requires data[off..off + 16] == n && data[off + 16..end - 1] == s && data[end - 1] == tier
    ensures data[off..end] == n + s + [tier]
  {
  }

  lemma FixComplete(data: Bytes, off: nat)
    requires GetFix(data, off).Some?
    ensures var (f, end) := GetFix(data, off).value;
            end <= |data| && f.Valid() && off + |FixBytes(f)| == end && data[off..end] == FixBytes(f)
  {
    var (f, end) := GetFix(data, off).value;
    NumbersInRange(data, off);
    StrComplete(data, off + 16);
    NumbersParse(data, off, f);
    FixJoins(data, off, end, Numbers(f), Str(f.callsign), f.tier);
  }

  /** Recipient, announced text length, and where the text starts. */
  function GetPreamble(data: Bytes, off: nat): Option<(Text, nat, nat)> {
    match GetStr(data, off)
    case None => None
    case Some((to, mid)) => if mid + 2 > |data| then None else Some((to, GetU16(data, mid), mid + 2))
  }

  lemma PreambleParses(data: Bytes, off: nat, to: Text, n: int)
    requires Fits(to) && 0 <= n <= U16_MAX
    requires off + |Preamble(to, n)| <= |data| && data[off..off + |Preamble(to, n)|] == Preamble(to, n)
    ensures GetPreamble(data, off) == Some((to, n, off + |Preamble(to, n)|))
  {
    assert Preamble(to, n) == Str(to) + U16(n) + [];
    Parts(data, off, Str(to), U16(n), []);
    StrParses(data, off, to);
    U16Bytes(data, off + |Str(to)|, n);
  }

  lemma PreambleComplete(data: Bytes, off: nat)
    requires GetPreamble(data, off).Some?
    ensures var (to, n, start) := GetPreamble(data, off).value;
            && Fits(to) && n <= U16_MAX && off <= start <= |data|
            && data[off..start] == Preamble(to, n)
  {
    var (to, n, start) := GetPreamble(data, off).value;
    StrComplete(data, off);
    U16Bytes(data, start - 2, 0);
    U16Bytes(data, start - 2, n);
    assert data[off..start] == data[off..start - 2] + data[start - 2..start];
  }

  // ----- The codec -----

  /** Truncation toward zero, then the low 32 bits. */
  function Timestamp(ts: real): int {
    (if ts < 0.0 then -(-ts).Floor else ts.Floor) % 0x1_0000_0000
  }

  function ClampU16(v: real): int {
    var iv := Rounding.Round(v);
    if iv < 0 then 0 else if iv < U16_MAX then iv else U16_MAX
  }

  function Or<T>(value: Option<T>, default: T): T {
    if value.Some? then value.value else default
  }

  function KindOf(b: Body): Byte {
    match b
    case Pli(_) => PLI
    case Marker(_) => MARKER
    case Chat(_, _) => CHAT
  }

  function HeadOf(e: Envelope): Head {
    Head(e.schema % 0x100, KindOf(e.body), Timestamp(e.ts), e.sourceUid, e.msgId)
  }

  /** Index of the named tier; unknown names count as the first tier. */
  function TierIndex(tier: Text): Byte {
    if tier == BACKBONE then 1 else if tier == BASE then 2 else 0
  }

  function FixOf(p: Position, sourceUid: Text): Fix {
    Fix(Rounding.Round(Or(p.lat, 0.0) * SCALE), Rounding.Round(Or(p.lon, 0.0) * SCALE), Rounding.Round(Or(p.hae, 0.0)),
        ClampU16(Or(p.ce, U16_MAX as real)), ClampU16(Or(p.le, U16_MAX as real)),
        Or(p.callsign, sourceUid), TierIndex(Or(p.tier, USER)))
  }

  function EncodeEnvelope(e: Envelope): EncodeResult {
    if !Fits(e.sourceUid) || !Fits(e.msgId) then StringTooLong
    else
      match e.body
      case Chat(text, to) =>
        if !Fits(Or(to, [])) then StringTooLong
        else if |Encode(Or(text, []))| > U16_MAX then NumberOutOfRange
        else Encoded(HeadBytes(HeadOf(e)) + ChatBytes(Or(to, []), Or(text, [])))
      case _ =>
        var f := FixOf(e.body.position, e.sourceUid);
        if !IsI32(f.lat) || !IsI32(f.lon) || !IsI32(f.hae) then NumberOutOfRange
        else if !Fits(f.callsign) then StringTooLong
        else Encoded(HeadBytes(HeadOf(e)) + FixBytes(f))
  }

  function PositionOf(f: Fix): Position
    requires f.tier < 3
  {
    Position(Some(f.callsign), Some(Tiers[f.tier]), Some(f.lat as real / SCALE), Some(f.lon as real / SCALE),
             Some(f.hae as real), Some(f.ce as real), Some(f.le as real))
  }

  function EnvelopeOf(h: Head, b: Body): Envelope {
    Envelope(h.schema, h.msgId, h.ts as real, h.uid, b)
  }

  function DecodeFrame(data: Bytes, supported: set<int>): DecodeResult {
    if data == [] then Undecodable
    else if data[0] as int !in supported then IncompatibleSchema
    else if |data| < 2 || data[1] > STATUS then Undecodable
    else
      match GetHead(data)
      case None => Undecodable
      case Some((h, off)) =>
        if h.kind == STATUS then Fallback
        else if h.kind == CHAT then DecodeChat(data, h, off)
        else
          match GetFix(data, off)
          case None => Undecodable
          case Some((f, _)) =>
            Decoded(EnvelopeOf(h, if h.kind == PLI then Pli(PositionOf(f)) else Marker(PositionOf(f))))
  }

  function DecodeChat(data: Bytes, h: Head, off: nat): DecodeResult {
    AfterPreamble(data, h, GetPreamble(data, off))
  }

  function AfterPreamble(data: Bytes, h: Head, preamble: Option<(Text, nat, nat)>): DecodeResult {
    match preamble
    case None => Undecodable
    case Some((to, n, start)) => ChatResult(h, to, Slice(data, start, start + n))
  }

  /** The envelope for as much of the text as arrived. */
  function ChatResult(h: Head, to: Text, received: Bytes): DecodeResult {
    match Decode(received)
    case None => Undecodable
    case Some(text) => Decoded(EnvelopeOf(h, Chat(Some(text), if to == [] then None else Some(to))))
  }

  /** What is left of an envelope after one trip over the radio. */
  function Quantised(e: Envelope): Envelope {
    var b := match e.body
      case Pli(p) => Pli(PositionOf(FixOf(p, e.sourceUid)))
      case Marker(p) => Marker(PositionOf(FixOf(p, e.sourceUid)))
      case Chat(text, to) => Chat(Some(Or(text, [])), if Or(to, []) == [] then None else to);
    Envelope(e.schema % 0x100, e.msgId, Timestamp(e.ts) as real, e.sourceUid, b)
  }
}
