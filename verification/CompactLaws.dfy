/** What the compact codec promises: round trips, idempotent quantisation with bounded
    error, self-delimiting position frames, and what a truncated frame decodes to. */
module CompactLaws {
  import opened Options
  import opened Utf8
  import opened Compact
  import Rounding

  predicate IsPosition(e: Envelope) {
    e.body.Pli? || e.body.Marker?
  }

  predicate PositionKind(kind: Byte) {
    kind == PLI || kind == MARKER
  }

  function PositionBody(kind: Byte, f: Fix): Body
    requires f.tier < 3
  {
    if kind == PLI then Pli(PositionOf(f)) else Marker(PositionOf(f))
  }

  // ----- Quantisation -----

  lemma ScaleExact(n: int)
    ensures Rounding.Round(n as real / SCALE * SCALE) == n
  {
    assert n as real / SCALE * SCALE == n as real;
    Rounding.RoundInt(n);
  }

  lemma FixAgain(f: Fix, uid: Text)
    requires f.Valid()
    ensures FixOf(PositionOf(f), uid) == f
  {
    ScaleExact(f.lat);
    ScaleExact(f.lon);
    Rounding.RoundInt(f.hae);
    Rounding.RoundInt(f.ce);
    Rounding.RoundInt(f.le);
  }

  lemma FixValid(e: Envelope)
    requires EncodeEnvelope(e).Encoded? && IsPosition(e)
    ensures HeadOf(e).Valid() && FixOf(e.body.position, e.sourceUid).Valid()
    ensures EncodeEnvelope(e).bytes == HeadBytes(HeadOf(e)) + FixBytes(FixOf(e.body.position, e.sourceUid))
    ensures Quantised(e) == EnvelopeOf(HeadOf(e), PositionBody(HeadOf(e).kind, FixOf(e.body.position, e.sourceUid)))
  {
  }

  /** Quantising twice changes nothing, and costs nothing on the wire. */
  lemma QuantisedOnce(e: Envelope)
    requires EncodeEnvelope(e).Encoded?
    ensures Quantised(Quantised(e)) == Quantised(e)
    ensures EncodeEnvelope(Quantised(e)) == EncodeEnvelope(e)
  {
    if IsPosition(e) {
      FixValid(e);
      FixAgain(FixOf(e.body.position, e.sourceUid), e.sourceUid);
    }
    assert HeadOf(Quantised(e)) == HeadOf(e);
  }

  ghost predicate Within(x: real, y: real, bound: real) {
    -bound <= x - y <= bound
  }

  /** The error the radio trip adds to a position. */
  lemma QuantisationError(e: Envelope, p: Position)
    requires e.body == Pli(p) || e.body == Marker(p)
    ensures var q := Quantised(e).body.position;
            && q.lat.Some? && Within(q.lat.value, Or(p.lat, 0.0), 0.5 / SCALE)
            && q.lon.Some? && Within(q.lon.value, Or(p.lon, 0.0), 0.5 / SCALE)
            && q.hae.Some? && Within(q.hae.value, Or(p.hae, 0.0), 0.5)
            && q.ce.Some? && q.le.Some?
            && (p.ce.Some? && 0.0 <= p.ce.value <= 65535.0 ==> Within(q.ce.value, p.ce.value, 0.5))
            && (p.ce.None? || p.ce.value > 65535.0 ==> q.ce.value == 65535.0)
            && (p.le.Some? && 0.0 <= p.le.value <= 65535.0 ==> Within(q.le.value, p.le.value, 0.5))
            && (p.le.None? || p.le.value > 65535.0 ==> q.le.value == 65535.0)
            && 0.0 <= q.ce.value <= 65535.0 && 0.0 <= q.le.value <= 65535.0
  {
    var lat, lon := Or(p.lat, 0.0) * SCALE, Or(p.lon, 0.0) * SCALE;
    assert Within(Rounding.Round(lat) as real, lat, 0.5) && Within(Rounding.Round(lon) as real, lon, 0.5);
    Rescaled(Rounding.Round(lat) as real, Or(p.lat, 0.0));
    Rescaled(Rounding.Round(lon) as real, Or(p.lon, 0.0));
  }

  lemma Rescaled(n: real, x: real)
    requires Within(n, x * SCALE, 0.5)
    ensures Within(n / SCALE, x, 0.5 / SCALE)
  {
  }

  /** Coordinates that the position model admits always fit the wire. */
  lemma CoordinatesFit(lat: real, lon: real)
    requires -90.0 <= lat <= 90.0 && -180.0 <= lon <= 180.0
    ensures IsI32(Rounding.Round(lat * SCALE)) && IsI32(Rounding.Round(lon * SCALE))
  {
  }

  // ----- Position frames -----

  /** Where the fix of a position frame sits. */
  lemma FixFollows(data: Bytes, head: Bytes, f: Fix)
    requires f.Valid() && head + FixBytes(f) <= data
    ensures GetFix(data, |head|) == Some((f, |head| + |FixBytes(f)|))
  {
    var fix := FixBytes(f);
    assert data[|head|..|head| + |fix|] == fix by {
      assert data[..|head + fix|] == head + fix;
    }
    FixParses(data, |head|, f);
  }

  lemma HeadFollows(data: Bytes, h: Head)
    requires h.Valid() && HeadBytes(h) <= data
    ensures GetHead(data) == Some((h, |HeadBytes(h)|))
    ensures |data| >= 2 && data[0] == h.schema && data[1] == h.kind
  {
    HeadParses(data, h);
    assert data[0] == HeadBytes(h)[0] && data[1] == HeadBytes(h)[1];
  }

  lemma FrontBegins(data: Bytes, front: Bytes, back: Bytes)
    requires front + back <= data
    ensures front <= data
  {
    assert data[..|front + back|] == front + back;
  }

  lemma HeadOfParts(data: Bytes, h: Head, f: Fix) returns (off: nat)
    requires h.Valid() && f.Valid() && HeadBytes(h) + FixBytes(f) <= data
    ensures GetHead(data) == Some((h, off)) && off == |HeadBytes(h)|
    ensures |data| >= 2 && data[0] == h.schema && data[1] == h.kind
  {
    FrontBegins(data, HeadBytes(h), FixBytes(f));
    HeadFollows(data, h);
    off := |HeadBytes(h)|;
  }

  lemma FixOfParts(data: Bytes, h: Head, f: Fix, off: nat) returns (end: nat)
    requires h.Valid() && f.Valid() && HeadBytes(h) + FixBytes(f) <= data && off == |HeadBytes(h)|
    ensures GetFix(data, off) == Some((f, end))
  {
    FixFollows(data, HeadBytes(h), f);
    end := off + |FixBytes(f)|;
  }

  /** What the decoder makes of a head and a fix. */
  lemma PositionDispatch(data: Bytes, supported: set<int>, h: Head, f: Fix, off: nat, end: nat)
    requires |data| >= 2 && data[0] == h.schema && data[1] == h.kind && h.schema as int in supported
    requires PositionKind(h.kind) && f.tier < 3
    requires GetHead(data) == Some((h, off)) && GetFix(data, off) == Some((f, end))
    ensures DecodeFrame(data, supported) == Decoded(EnvelopeOf(h, PositionBody(h.kind, f)))
  {
  }

  lemma PositionParses(data: Bytes, supported: set<int>, h: Head, f: Fix)
    requires h.Valid() && f.Valid() && PositionKind(h.kind)
    requires h.schema as int in supported
    requires HeadBytes(h) + FixBytes(f) <= data
    ensures DecodeFrame(data, supported) == Decoded(EnvelopeOf(h, PositionBody(h.kind, f)))
  {
    var off := HeadOfParts(data, h, f);
    var end := FixOfParts(data, h, f, off);
    PositionDispatch(data, supported, h, f, off, end);
  }

  lemma PositionStructure(data: Bytes, supported: set<int>)
    requires DecodeFrame(data, supported).Decoded? && IsPosition(DecodeFrame(data, supported).envelope)
    ensures GetHead(data).Some? && GetFix(data, GetHead(data).value.1).Some?
    ensures var h, f := GetHead(data).value.0, GetFix(data, GetHead(data).value.1).value.0;
            && h.schema as int in supported && PositionKind(h.kind) && f.tier < 3
            && DecodeFrame(data, supported).envelope == EnvelopeOf(h, PositionBody(h.kind, f))
  {
  }

  lemma PositionComplete(data: Bytes, supported: set<int>) returns (h: Head, f: Fix)
    requires DecodeFrame(data, supported).Decoded? && IsPosition(DecodeFrame(data, supported).envelope)
    ensures h.Valid() && f.Valid() && PositionKind(h.kind) && h.schema as int in supported
    ensures HeadBytes(h) + FixBytes(f) <= data
    ensures DecodeFrame(data, supported).envelope == EnvelopeOf(h, PositionBody(h.kind, f))
  {
    PositionStructure(data, supported);
    h := GetHead(data).value.0;
    var off := GetHead(data).value.1;
    f := GetFix(data, off).value.0;
    var end := GetFix(data, off).value.1;
    FixComplete(data, off);
    HeadComplete(data);
    JoinAt(data, off, end);
  }

  lemma JoinAt(data: Bytes, mid: nat, end: nat)
    requires mid <= end <= |data|
    ensures data[..mid] + data[mid..end] <= data
  {
  }

  /** The wire form determines the envelope and the other way round. */
  lemma ReencodesTo(h: Head, f: Fix)
    requires h.Valid() && f.Valid() && PositionKind(h.kind)
    ensures var e := EnvelopeOf(h, PositionBody(h.kind, f));
            EncodeEnvelope(e) == Encoded(HeadBytes(h) + FixBytes(f)) && Quantised(e) == e
  {
    var e := EnvelopeOf(h, PositionBody(h.kind, f));
    FixAgain(f, h.uid);
    assert HeadOf(e) == h;
  }

  /** A byte string decodes to a position envelope exactly when that envelope is its own
      quantisation, its schema is accepted, and its encoding is how the bytes begin. */
  lemma PositionDecodesExactly(data: Bytes, supported: set<int>, e: Envelope)
    requires IsPosition(e)
    ensures DecodeFrame(data, supported) == Decoded(e) <==>
            && Quantised(e) == e && e.schema in supported
            && EncodeEnvelope(e).Encoded? && EncodeEnvelope(e).bytes <= data
  {
    if DecodeFrame(data, supported) == Decoded(e) {
      var h, f := PositionComplete(data, supported);
      ReencodesTo(h, f);
    } else if Quantised(e) == e && e.schema in supported
           && EncodeEnvelope(e).Encoded? && EncodeEnvelope(e).bytes <= data {
      FixValid(e);
      PositionParses(data, supported, HeadOf(e), FixOf(e.body.position, e.sourceUid));
    }
  }

  /** Every strict prefix of a position frame is rejected. */
  lemma PositionPrefixRejected(e: Envelope, supported: set<int>, k: nat)
    requires IsPosition(e) && EncodeEnvelope(e).Encoded? && e.schema % 0x100 in supported
    requires k < |EncodeEnvelope(e).bytes|
    ensures DecodeFrame(EncodeEnvelope(e).bytes[..k], supported) == Undecodable
  {
    var b := EncodeEnvelope(e).bytes;
    var cut := b[..k];
    FixValid(e);
    var h := HeadOf(e);
    assert b[0] == h.schema && b[1] == h.kind;
    var r := DecodeFrame(cut, supported);
    if k >= 2 {
      assert cut[0] == h.schema && cut[1] == h.kind;
      if GetHead(cut).Some? {
        assert GetHead(cut).value.0.kind == h.kind;
      }
      if r.Decoded? {
        assert IsPosition(r.envelope);
        PositionDecodesExactly(cut, supported, r.envelope);
        var shorter := EncodeEnvelope(r.envelope).bytes;
        assert shorter <= b;
        PositionDecodesExactly(b, supported, r.envelope);
        RoundTripPosition(e, supported, []);
        assert b + [] == b;
        QuantisedOnce(e);
      }
    }
  }

  lemma RoundTripPosition(e: Envelope, supported: set<int>, tail: Bytes)
    requires IsPosition(e) && EncodeEnvelope(e).Encoded? && e.schema % 0x100 in supported
    ensures DecodeFrame(EncodeEnvelope(e).bytes + tail, supported) == Decoded(Quantised(e))
  {
    FixValid(e);
    PositionParses(EncodeEnvelope(e).bytes + tail, supported, HeadOf(e), FixOf(e.body.position, e.sourceUid));
  }

  /** A position frame is 26 bytes plus its three strings. */
  lemma PositionLength(e: Envelope)
    requires IsPosition(e) && EncodeEnvelope(e).Encoded?
    ensures |EncodeEnvelope(e).bytes| ==
            26 + |Encode(e.sourceUid)| + |Encode(e.msgId)| + |Encode(Or(e.body.position.callsign, e.sourceUid))|
  {
    FixValid(e);
  }

  // ----- Both kinds of frames -----

  function Take(s: Bytes, n: nat): Bytes {
    if n >= |s| then s else s[..n]
  }

  lemma HeadOfFrame(h: Head, supported: set<int>, tail: Bytes)
    requires h.Valid() && h.kind == CHAT && h.schema as int in supported
    ensures DecodeFrame(HeadBytes(h) + tail, supported) == DecodeChat(HeadBytes(h) + tail, h, |HeadBytes(h)|)
  {
    HeadDispatch(HeadBytes(h) + tail, supported, h);
  }

  lemma PreambleOfFrame(before: Bytes, to: Text, n: nat, rest: Bytes)
    requires Fits(to) && n <= U16_MAX
    ensures var data, start := before + (Preamble(to, n) + rest), |before| + |Preamble(to, n)|;
            && start <= |data| && data[start..] == rest
            && GetPreamble(data, |before|) == Some((to, n, start))
  {
    var p := Preamble(to, n);
    var data := before + (p + rest);
    Split3(before, p, rest);
    assert before + p + rest == data;
    PreambleParses(data, |before|, to, n);
  }

  /** A chat frame decodes to whatever of its text arrived, up to the announced length. */
  lemma ChatDecodes(h: Head, supported: set<int>, to: Text, n: nat, rest: Bytes)
    requires h.Valid() && h.kind == CHAT && h.schema as int in supported
    requires Fits(to) && n <= U16_MAX
    ensures DecodeFrame(HeadBytes(h) + (Preamble(to, n) + rest), supported) == ChatResult(h, to, Take(rest, n))
  {
    HeadOfFrame(h, supported, Preamble(to, n) + rest);
    ChatDecodesAfter(HeadBytes(h), h, to, n, rest);
  }

  lemma ChatDecodesAfter(before: Bytes, h: Head, to: Text, n: nat, rest: Bytes)
    requires Fits(to) && n <= U16_MAX
    ensures DecodeChat(before + (Preamble(to, n) + rest), h, |before|) == ChatResult(h, to, Take(rest, n))
  {
    var data, start := before + (Preamble(to, n) + rest), |before| + |Preamble(to, n)|;
    PreambleOfFrame(before, to, n, rest);
    ChatDecodesFrom(data, h, |before|, to, n, start, rest);
  }

  lemma ChatDecodesFrom(data: Bytes, h: Head, off: nat, to: Text, n: nat, start: nat, rest: Bytes)
    requires GetPreamble(data, off) == Some((to, n, start)) && start <= |data| && data[start..] == rest
    ensures DecodeChat(data, h, off) == ChatResult(h, to, Take(rest, n))
  {
    SliceTail(data, start, n, rest);
    assert AfterPreamble(data, h, Some((to, n, start))) == ChatResult(h, to, Slice(data, start, start + n));
  }

  lemma Split3(a: Bytes, b: Bytes, c: Bytes)
    ensures a <= a + b + c
    ensures (a + b + c)[|a|..|a| + |b|] == b
    ensures (a + b + c)[|a| + |b|..] == c
  {
  }

  lemma SliceTail(data: Bytes, start: nat, n: nat, rest: Bytes)
    requires start <= |data| && data[start..] == rest
    ensures Slice(data, start, start + n) == Take(rest, n)
  {
  }

  lemma ChatFrame(e: Envelope)
    requires EncodeEnvelope(e).Encoded? && e.body.Chat?
    ensures HeadOf(e).Valid() && HeadOf(e).kind == CHAT
    ensures Fits(Or(e.body.to, [])) && |Encode(Or(e.body.text, []))| <= U16_MAX
    ensures EncodeEnvelope(e).bytes == HeadBytes(HeadOf(e)) + ChatBytes(Or(e.body.to, []), Or(e.body.text, []))
  {
  }

  lemma HeadDispatch(data: Bytes, supported: set<int>, h: Head)
    requires h.Valid() && HeadBytes(h) <= data && h.schema as int in supported && h.kind == CHAT
    ensures DecodeFrame(data, supported) == DecodeChat(data, h, |HeadBytes(h)|)
  {
    HeadParses(data, h);
    assert data[0] == HeadBytes(h)[0] && data[1] == HeadBytes(h)[1];
  }

  lemma RoundTripChat(e: Envelope, supported: set<int>, tail: Bytes)
    requires e.body.Chat? && EncodeEnvelope(e).Encoded? && e.schema % 0x100 in supported
    ensures DecodeFrame(EncodeEnvelope(e).bytes + tail, supported) == Decoded(Quantised(e))
  {
    ChatFrame(e);
    var h, to, t := HeadOf(e), Or(e.body.to, []), Encode(Or(e.body.text, []));
    assert EncodeEnvelope(e).bytes + tail == HeadBytes(h) + (Preamble(to, |t|) + (t + tail));
    ChatDecodes(h, supported, to, |t|, t + tail);
    assert Take(t + tail, |t|) == t;
    Utf8.RoundTrip(Or(e.body.text, []));
  }

  /** Unsupported schemas are told apart from damage. */
  lemma IncompatibleExactly(data: Bytes, supported: set<int>)
    ensures DecodeFrame(data, supported) == IncompatibleSchema <==> data != [] && data[0] as int !in supported
  {
  }

  lemma SchemaLeads(e: Envelope)
    requires EncodeEnvelope(e).Encoded?
    ensures EncodeEnvelope(e).bytes != [] && EncodeEnvelope(e).bytes[0] == e.schema % 0x100
  {
    if IsPosition(e) {
      FixValid(e);
    } else {
      ChatFrame(e);
    }
  }

  /** Decoding an encoded envelope gives its quantisation, whatever follows on the wire; unless the reader does
      not support the schema, and then it says so. */
  lemma RoundTrip(e: Envelope, supported: set<int>, tail: Bytes)
    requires EncodeEnvelope(e).Encoded?
    ensures DecodeFrame(EncodeEnvelope(e).bytes + tail, supported) ==
            if e.schema % 0x100 in supported then Decoded(Quantised(e)) else IncompatibleSchema
  {
    if e.schema % 0x100 !in supported {
      SchemaLeads(e);
      IncompatibleExactly(EncodeEnvelope(e).bytes + tail, supported);
    } else if IsPosition(e) {
      RoundTripPosition(e, supported, tail);
    } else {
      RoundTripChat(e, supported, tail);
    }
  }

  /** Quantised envelopes with the same encoding are the same. */
  lemma EncodeInjective(a: Envelope, b: Envelope)
    requires Quantised(a) == a && Quantised(b) == b
    requires EncodeEnvelope(a).Encoded? && EncodeEnvelope(a) == EncodeEnvelope(b)
    ensures a == b
  {
    RoundTrip(a, {a.schema, b.schema}, []);
    RoundTrip(b, {a.schema, b.schema}, []);
  }

  // ----- Truncated chat -----

  /** Where the text of a chat frame starts. */
  function TextStart(e: Envelope): nat
    requires EncodeEnvelope(e).Encoded? && e.body.Chat?
  {
    |HeadBytes(HeadOf(e))| + |Preamble(Or(e.body.to, []), |Encode(Or(e.body.text, []))|)|
  }

  lemma CutFrame(head: Bytes, preamble: Bytes, text: Bytes, k: nat)
    requires |head| + |preamble| <= k <= |head| + |preamble| + |text|
    ensures var kept := text[..k - |head| - |preamble|];
            && (head + (preamble + text))[..k] == head + (preamble + kept)
            && (head + (preamble + text))[..k][|head| + |preamble|..] == kept
  {
  }

  /** What arrives of a chat frame cut inside its text. */
  lemma ChatCutArrives(e: Envelope, supported: set<int>, k: nat)
    requires EncodeEnvelope(e).Encoded? && e.body.Chat? && e.schema % 0x100 in supported
    requires TextStart(e) <= k <= |EncodeEnvelope(e).bytes|
    ensures k - TextStart(e) <= |Encode(Or(e.body.text, []))|
    ensures var kept := Encode(Or(e.body.text, []))[..k - TextStart(e)];
            && EncodeEnvelope(e).bytes[..k][TextStart(e)..] == kept
            && DecodeFrame(EncodeEnvelope(e).bytes[..k], supported) == ChatResult(HeadOf(e), Or(e.body.to, []), kept)
  {
    ChatFrame(e);
    var h, to, t := HeadOf(e), Or(e.body.to, []), Encode(Or(e.body.text, []));
    CutFrame(HeadBytes(h), Preamble(to, |t|), t, k);
    ChatDecodes(h, supported, to, |t|, t[..k - TextStart(e)]);
  }

  lemma ReceivedText(e: Envelope, received: Bytes, t: Text)
    requires e.body.Chat? && Decode(received) == Some(t)
    ensures ChatResult(HeadOf(e), Or(e.body.to, []), received) ==
            Decoded(Quantised(e.(body := Chat(Some(t), e.body.to))))
  {
  }

  /** A chat frame cut inside its text still decodes when the cut falls between two
      scalars, to the text before the cut; otherwise it is rejected. */
  lemma ChatCutInText(e: Envelope, supported: set<int>, k: nat)
    requires EncodeEnvelope(e).Encoded? && e.body.Chat? && e.schema % 0x100 in supported
    requires TextStart(e) <= k <= |EncodeEnvelope(e).bytes|
    ensures var text, cut := Or(e.body.text, []), EncodeEnvelope(e).bytes[..k];
            var kept := cut[TextStart(e)..];
            && kept == Encode(text)[..k - TextStart(e)]
            && (forall m | 0 <= m <= |text| && Encode(text[..m]) == kept ::
                  DecodeFrame(cut, supported) == Decoded(Quantised(e.(body := Chat(Some(text[..m]), e.body.to)))))
            && ((forall m | 0 <= m <= |text| :: Encode(text[..m]) != kept) ==>
                  DecodeFrame(cut, supported) == Undecodable)
  {
    var text, n := Or(e.body.text, []), k - TextStart(e);
    ChatCutArrives(e, supported, k);
    CutDecodes(text, n);
    forall m | 0 <= m <= |text| && Encode(text[..m]) == Encode(text)[..n]
      ensures DecodeFrame(EncodeEnvelope(e).bytes[..k], supported) ==
              Decoded(Quantised(e.(body := Chat(Some(text[..m]), e.body.to))))
    {
      ReceivedText(e, Encode(text)[..n], text[..m]);
    }
  }

  /** A chat frame that is not rejected is complete up to its text. */
  lemma ChatStructure(data: Bytes, supported: set<int>)
    requires |data| > 1 && data[0] as int in supported && data[1] == CHAT
    requires DecodeFrame(data, supported) != Undecodable
    ensures GetHead(data).Some? && GetPreamble(data, GetHead(data).value.1).Some?
  {
  }

  lemma ChatComplete(data: Bytes, supported: set<int>) returns (h: Head, to: Text, n: nat)
    requires |data| > 1 && data[0] as int in supported && data[1] == CHAT
    requires DecodeFrame(data, supported) != Undecodable
    ensures h.Valid() && Fits(to) && n <= U16_MAX && HeadBytes(h) + Preamble(to, n) <= data
  {
    ChatStructure(data, supported);
    h := GetHead(data).value.0;
    var off := GetHead(data).value.1;
    to, n := GetPreamble(data, off).value.0, GetPreamble(data, off).value.1;
    PreambleComplete(data, off);
    HeadComplete(data);
    JoinAt(data, off, GetPreamble(data, off).value.2);
  }

  /** Only one head and preamble can begin a given byte string. */
  lemma SameStart(data: Bytes, h: Head, to: Text, n: nat, h': Head, to': Text, n': nat)
    requires h.Valid() && Fits(to) && n <= U16_MAX && HeadBytes(h) + Preamble(to, n) <= data
    requires h'.Valid() && Fits(to') && n' <= U16_MAX && HeadBytes(h') + Preamble(to', n') <= data
    ensures h == h' && to == to' && n == n'
  {
    StartParses(data, h, to, n);
    StartParses(data, h', to', n');
  }

  lemma StartParses(data: Bytes, h: Head, to: Text, n: nat)
    requires h.Valid() && Fits(to) && n <= U16_MAX && HeadBytes(h) + Preamble(to, n) <= data
    ensures GetHead(data) == Some((h, |HeadBytes(h)|))
    ensures GetPreamble(data, |HeadBytes(h)|) == Some((to, n, |HeadBytes(h)| + |Preamble(to, n)|))
  {
    var hb, p := HeadBytes(h), Preamble(to, n);
    assert hb + p + [] == hb + p && data[0..|hb + p|] == hb + p;
    Parts(data, 0, hb, p, []);
    assert hb <= data;
    HeadParses(data, h);
    PreambleParses(data, |hb|, to, n);
  }

  /** A chat frame cut before its text is rejected. */
  lemma ChatCutBeforeText(e: Envelope, supported: set<int>, k: nat)
    requires EncodeEnvelope(e).Encoded? && e.body.Chat? && e.schema % 0x100 in supported
    requires k < TextStart(e)
    ensures k <= |EncodeEnvelope(e).bytes|
    ensures DecodeFrame(EncodeEnvelope(e).bytes[..k], supported) == Undecodable
  {
    ChatFrame(e);
    var h, to, t := HeadOf(e), Or(e.body.to, []), Encode(Or(e.body.text, []));
    var b := EncodeEnvelope(e).bytes;
    assert b == HeadBytes(h) + Preamble(to, |t|) + t;
    FirstBytes(b, h);
    StartIncomplete(b, supported, h, to, |t|, k);
  }

  lemma FirstBytes(b: Bytes, h: Head)
    requires h.Valid() && HeadBytes(h) <= b
    ensures |b| >= 6 && b[0] == h.schema && b[1] == h.kind
  {
    assert b[0] == HeadBytes(h)[0] && b[1] == HeadBytes(h)[1];
  }

  lemma ShortCut(b: Bytes, supported: set<int>, k: nat)
    requires k <= 1 && k <= |b| && (k == 1 ==> b[0] as int in supported)
    ensures DecodeFrame(b[..k], supported) == Undecodable
  {
  }

  /** Nothing that starts with only a part of this head and preamble is a chat frame. */
  lemma StartIncomplete(b: Bytes, supported: set<int>, h: Head, to: Text, n: nat, k: nat)
    requires h.Valid() && h.kind == CHAT && h.schema as int in supported && Fits(to) && n <= U16_MAX
    requires HeadBytes(h) + Preamble(to, n) <= b && |b| >= 6 && b[0] == h.schema && b[1] == h.kind
    requires k < |HeadBytes(h)| + |Preamble(to, n)|
    ensures DecodeFrame(b[..k], supported) == Undecodable
  {
    if k <= 1 {
      ShortCut(b, supported, k);
    } else if DecodeFrame(b[..k], supported) != Undecodable {
      var h', to', n' := ChatComplete(b[..k], supported);
      SameStart(b, h, to, n, h', to', n');
    }
  }
}
