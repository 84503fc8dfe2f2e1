/** The compact codec as it runs: a buffer that grows, and an offset that moves through the data. */
module CompactCodec {
  import opened Options
  import opened Utf8
  import opened Compact

  /** Appends a length byte and the text; a text that is too long is refused. */
  method PutStr(buf: Bytes, t: Text) returns (out: Option<Bytes>)
    ensures out == if Fits(t) then Some(buf + Str(t)) else None
  {
    var b := Encode(t);
    if |b| > 255 {
      return None;
    }
    var longer := buf + [|b|];
    longer := longer + b;
    assert longer == buf + Str(t);
    return Some(longer);
  }

  method EncodeHead(e: Envelope) returns (out: Option<Bytes>)
    ensures out == if HeadOf(e).Valid() then Some(HeadBytes(HeadOf(e))) else None
  {
    var buf: Bytes := [e.schema % 0x100];
    buf := buf + [KindOf(e.body)];
    buf := buf + U32(Timestamp(e.ts));
    assert buf == Opening(HeadOf(e));
    out := PutStr(buf, e.sourceUid);
    if out.Some? {
      out := PutStr(out.value, e.msgId);
    }
  }

  method EncodePosition(buf: Bytes, f: Fix) returns (r: EncodeResult)
    requires 0 <= f.ce <= U16_MAX && 0 <= f.le <= U16_MAX && f.tier < 3
    ensures r == if !IsI32(f.lat) || !IsI32(f.lon) || !IsI32(f.hae) then NumberOutOfRange
                 else if !Fits(f.callsign) then StringTooLong
                 else Encoded(buf + FixBytes(f))
  {
    if !IsI32(f.lat) || !IsI32(f.lon) || !IsI32(f.hae) {
      return NumberOutOfRange;
    }
    var out := buf + (I32(f.lat) + I32(f.lon) + I32(f.hae));
    out := out + (U16(f.ce) + U16(f.le));
    ghost var numbers := out;
    var named := PutStr(out, f.callsign);
    if named.None? {
      return StringTooLong;
    }
    assert out == buf + Numbers(f);
    assert buf + FixBytes(f) == buf + Numbers(f) + Str(f.callsign) + [f.tier];
    return Encoded(named.value + [f.tier]);
  }

  method EncodeChat(buf: Bytes, text: Text, to: Text) returns (r: EncodeResult)
    ensures r == if !Fits(to) then StringTooLong
                 else if |Encode(text)| > U16_MAX then NumberOutOfRange
                 else Encoded(buf + ChatBytes(to, text))
  {
    var out := PutStr(buf, to);
    if out.None? {
      return StringTooLong;
    }
    var t := Encode(text);
    if |t| > U16_MAX {
      return NumberOutOfRange;
    }
    var longer := out.value + U16(|t|);
    longer := longer + t;
    assert longer == buf + ChatBytes(to, text);
    return Encoded(longer);
  }

  method EncodeFrame(e: Envelope) returns (r: EncodeResult)
    ensures r == EncodeEnvelope(e)
  {
    var out := EncodeHead(e);
    if out.None? {
      return StringTooLong;
    }
    match e.body
    case Chat(text, to) =>
      r := EncodeChat(out.value, Or(text, []), Or(to, []));
    case Pli(p) =>
      r := EncodePosition(out.value, FixOf(p, e.sourceUid));
    case Marker(p) =>
      r := EncodePosition(out.value, FixOf(p, e.sourceUid));
  }

  /** The text at the offset and the offset behind it; the length byte is trusted even past the end. */
  method ReadStr(data: Bytes, off: nat) returns (r: Option<(Text, nat)>)
    ensures r == GetStr(data, off)
  {
    if off >= |data| {
      return None;
    }
    var n: nat := data[off];
    var t := Decode(Slice(data, off + 1, off + 1 + n));
    if t.None? {
      return None;
    }
    return Some((t.value, off + 1 + n));
  }

  method ReadHead(data: Bytes) returns (r: Option<(Head, nat)>)
    ensures r == GetHead(data)
  {
    if |data| < 6 {
      return None;
    }
    var ts := GetU32(data, 2);
    var off := 6;
    var uid := ReadStr(data, off);
    if uid.None? {
      return None;
    }
    off := uid.value.1;
    var msgId := ReadStr(data, off);
    if msgId.None? {
      return None;
    }
    off := msgId.value.1;
    return Some((Head(data[0], data[1], ts, uid.value.0, msgId.value.0), off));
  }

  method ReadFix(data: Bytes, start: nat) returns (r: Option<(Fix, nat)>)
    ensures r == GetFix(data, start)
  {
    var off := start;
    if off + 12 > |data| {
      return None;
    }
    var lat, lon, hae := GetI32(data, off), GetI32(data, off + 4), GetI32(data, off + 8);
    off := off + 12;
    if off + 4 > |data| {
      return None;
    }
    var ce, le := GetU16(data, off), GetU16(data, off + 2);
    off := off + 4;
    var callsign := ReadStr(data, off);
    if callsign.None? {
      return None;
    }
    off := callsign.value.1;
    if off >= |data| || data[off] >= 3 {
      return None;
    }
    return Some((Fix(lat, lon, hae, ce, le, callsign.value.0, data[off]), off + 1));
  }

  method ReadChat(data: Bytes, h: Head, start: nat) returns (r: DecodeResult)
    ensures r == DecodeChat(data, h, start)
  {
    var to := ReadStr(data, start);
    if to.None? {
      return Undecodable;
    }
    var off := to.value.1;
    if off + 2 > |data| {
      return Undecodable;
    }
    var n := GetU16(data, off);
    off := off + 2;
    var text := Decode(Slice(data, off, off + n));
    if text.None? {
      return Undecodable;
    }
    return Decoded(EnvelopeOf(h, Chat(text, if to.value.0 == [] then None else Some(to.value.0))));
  }

  method ReadFrame(data: Bytes, supported: set<int>) returns (r: DecodeResult)
    ensures r == DecodeFrame(data, supported)
  {
    if data == [] {
      return Undecodable;
    }
    if data[0] as int !in supported {
      return IncompatibleSchema;
    }
    if |data| < 2 || data[1] > STATUS {
      return Undecodable;
    }
    var head := ReadHead(data);
    if head.None? {
      return Undecodable;
    }
    var (h, off) := head.value;
    if h.kind == STATUS {
      return Fallback;
    }
    if h.kind == CHAT {
      r := ReadChat(data, h, off);
      return;
    }
    var fix := ReadFix(data, off);
    if fix.None? {
      return Undecodable;
    }
    var f := fix.value.0;
    return Decoded(EnvelopeOf(h, if h.kind == PLI then Pli(PositionOf(f)) else Marker(PositionOf(f))));
  }
}
