/** What every run of the LANDING_TARGET publisher keeps, said about the events of the run. */
module LandingLaws {
  import opened Options
  import opened LandingTarget
  import Tracks

  // ---------- reading a trace ----------

  predicate IsSent(e: Event) { e.Sent? }
  predicate IsWithheld(e: Event) { e.Withheld? }
  predicate IsFailed(e: Event) { e.Failed? }
  predicate HasReason(e: Event) { e.Withheld? && e.reason.Some? }
  predicate IsFor(r: Reason, e: Event) { e == Withheld(Some(r)) }

  function Count<T>(s: seq<T>, p: T -> bool): nat {
    if s == [] then 0 else Count(s[..|s| - 1], p) + (if p(s[|s| - 1]) then 1 else 0)
  }

  lemma {:induction false} CountAppend<T>(a: seq<T>, b: seq<T>, p: T -> bool)
    ensures Count(a + b, p) == Count(a, p) + Count(b, p)
  {
    if b == [] {
      assert a + b == a;
    } else {
      assert (a + b)[..|a + b| - 1] == a + b[..|b| - 1];
      CountAppend(a, b[..|b| - 1], p);
    }
  }

  lemma CountOne<T>(e: T, p: T -> bool)
    ensures Count([e], p) == if p(e) then 1 else 0
  {
    assert [e][..0] == [];
  }

  /** The events after the last send. */
  function SinceSent(trace: seq<Event>): seq<Event> {
    if trace == [] || trace[|trace| - 1].Sent? then []
    else SinceSent(trace[..|trace| - 1]) + [trace[|trace| - 1]]
  }

  function LastBeat(trace: seq<Event>): Option<real> {
    if trace == [] then None
    else if trace[|trace| - 1].Beat? then Some(trace[|trace| - 1].at)
    else LastBeat(trace[..|trace| - 1])
  }

  /** When each message of the trace had been sent, in order. */
  function SendTimes(trace: seq<Event>): seq<real> {
    if trace == [] then []
    else
      SendTimes(trace[..|trace| - 1]) +
      if trace[|trace| - 1].Sent? then [trace[|trace| - 1].doneAt] else []
  }

  /** How many neighbouring sends lie further apart than the cadence floor allows. */
  function SlowGaps(cfg: Settings, times: seq<real>): nat
    requires cfg.minRate > 0.0
  {
    if |times| < 2 then 0
    else
      SlowGaps(cfg, times[..|times| - 1]) +
      if times[|times| - 1] - times[|times| - 2] > 1.0 / cfg.minRate then 1 else 0
  }

  // ---------- what the counters say about the trace ----------

  /** The books agree with the trace; `last` is kept only while the gate is on. */
  ghost predicate Agrees(cfg: Settings, s: State, trace: seq<Event>)
    requires cfg.minRate > 0.0
  {
    && s.published == Count(trace, IsSent)
    && s.suppressed == Count(trace, IsWithheld)
    && s.failures == Count(trace, IsFailed)
    && s.consecutive == Count(SinceSent(trace), IsFailed)
    && s.bridge.streak == Count(SinceSent(trace), HasReason)
    && (forall r: Reason :: CountOf(s.bridge.counts, r) == Count(trace, e => IsFor(r, e)))
    && s.bridge.last == LastBeat(trace)
    && s.lastPublish == (var t := SendTimes(trace); if t == [] then None else Some(t[|t| - 1]))
    && s.violations == SlowGaps(cfg, SendTimes(trace))
  }

  lemma Snoc(trace: seq<Event>, e: Event)
    ensures (trace + [e])[|trace|] == e && (trace + [e])[..|trace|] == trace
  {
  }

  lemma SinceSnoc(trace: seq<Event>, e: Event)
    ensures SinceSent(trace + [e]) == if e.Sent? then [] else SinceSent(trace) + [e]
    ensures Count(SinceSent(trace + [e]), IsFailed) ==
            if e.Sent? then 0 else Count(SinceSent(trace), IsFailed) + (if e.Failed? then 1 else 0)
    ensures Count(SinceSent(trace + [e]), HasReason) ==
            if e.Sent? then 0 else Count(SinceSent(trace), HasReason) + (if HasReason(e) then 1 else 0)
  {
    Snoc(trace, e);
    CountAppend(SinceSent(trace), [e], IsFailed);
    CountAppend(SinceSent(trace), [e], HasReason);
    CountOne(e, IsFailed);
    CountOne(e, HasReason);
  }

  lemma CountSnoc<T>(trace: seq<T>, e: T, p: T -> bool)
    ensures Count(trace + [e], p) == Count(trace, p) + if p(e) then 1 else 0
  {
    CountAppend(trace, [e], p);
    CountOne(e, p);
  }

  lemma TimesSnoc(cfg: Settings, trace: seq<Event>, e: Event)
    requires cfg.minRate > 0.0
    ensures LastBeat(trace + [e]) == if e.Beat? then Some(e.at) else LastBeat(trace)
    ensures var t := SendTimes(trace);
            && SendTimes(trace + [e]) == (if e.Sent? then t + [e.doneAt] else t)
            && (e.Sent? ==>
                SlowGaps(cfg, t + [e.doneAt]) ==
                SlowGaps(cfg, t) + (if t != [] && e.doneAt - t[|t| - 1] > 1.0 / cfg.minRate then 1 else 0))
  {
    Snoc(trace, e);
    var t := SendTimes(trace);
    if e.Sent? {
      var u := t + [e.doneAt];
      assert u[..|u| - 1] == t && u[|u| - 1] == e.doneAt;
      assert t != [] ==> u[|u| - 2] == t[|t| - 1];
    }
  }

  /** The bridge moves from b to c by an event other than a heartbeat. */
  ghost predicate Moves(b: Bridge, c: Bridge, e: Event) {
    && !e.Beat? && c.last == b.last
    && c.streak == (if e.Sent? then 0 else b.streak + (if HasReason(e) then 1 else 0))
    && forall r: Reason :: CountOf(c.counts, r) == CountOf(b.counts, r) + (if IsFor(r, e) then 1 else 0)
  }

  lemma PublishMoves(cfg: Settings, b: Bridge, a: Attempt)
    ensures var (c, e) := Publish(cfg, b, a); Moves(b, c, e)
  {
  }

  lemma TalliesSnoc(trace: seq<Event>, e: Event)
    ensures Count(trace + [e], IsSent) == Count(trace, IsSent) + (if e.Sent? then 1 else 0)
    ensures Count(trace + [e], IsWithheld) == Count(trace, IsWithheld) + (if e.Withheld? then 1 else 0)
    ensures Count(trace + [e], IsFailed) == Count(trace, IsFailed) + (if e.Failed? then 1 else 0)
    ensures forall r: Reason ::
              Count(trace + [e], x => IsFor(r, x)) == Count(trace, x => IsFor(r, x)) + (if IsFor(r, e) then 1 else 0)
  {
    CountSnoc(trace, e, IsSent);
    CountSnoc(trace, e, IsWithheld);
    CountSnoc(trace, e, IsFailed);
    forall r: Reason
      ensures Count(trace + [e], x => IsFor(r, x)) == Count(trace, x => IsFor(r, x)) + (if IsFor(r, e) then 1 else 0)
    {
      CountSnoc(trace, e, x => IsFor(r, x));
    }
  }

  lemma EventAgrees(cfg: Settings, s: State, trace: seq<Event>, c: Bridge, e: Event)
    requires cfg.minRate > 0.0 && Agrees(cfg, s, trace) && Moves(s.bridge, c, e)
    ensures Agrees(cfg, Account(cfg, s.(bridge := c), e), trace + [e])
  {
    TalliesSnoc(trace, e);
    SinceSnoc(trace, e);
    TimesSnoc(cfg, trace, e);
  }

  lemma AccountAgrees(cfg: Settings, s: State, trace: seq<Event>, a: Attempt)
    requires cfg.minRate > 0.0 && Agrees(cfg, s, trace)
    ensures var (b, e) := Publish(cfg, s.bridge, a);
            Agrees(cfg, Account(cfg, s.(bridge := b), e), trace + [e])
  {
    var (c, e) := Publish(cfg, s.bridge, a);
    PublishMoves(cfg, s.bridge, a);
    EventAgrees(cfg, s, trace, c, e);
  }

  lemma PollAgrees(cfg: Settings, s: State, trace: seq<Event>, p: Poll)
    requires cfg.minRate > 0.0 && Agrees(cfg, s, trace)
    ensures Agrees(cfg, s.(bridge := PollHeartbeat(cfg, s.bridge, p)), trace + PollEvents(cfg, s.bridge, p))
  {
    if Drains(cfg, s.bridge, p) {
      var e := Beat(p.beatAt, p.received.message);
      TalliesSnoc(trace, e);
      SinceSnoc(trace, e);
      TimesSnoc(cfg, trace, e);
    } else {
      assert trace + PollEvents(cfg, s.bridge, p) == trace;
    }
  }

  /** A frame that attempts a publish: its events and the state it leaves. */
  lemma AttemptStep(cfg: Settings, s: State, f: Frame)
    requires cfg.minRate > 0.0 && Attempts(cfg, f)
    ensures var polled := Polled(cfg, Streamed(cfg, s, f), f);
            var (b, e) := Publish(cfg, polled.bridge, f.detected.target.value);
            && StepEvents(cfg, s, f) == PollEvents(cfg, s.bridge, f.poll) + [e]
            && Step(cfg, s, f).0 == Account(cfg, polled.(bridge := b), e)
            && (Step(cfg, s, f).1.Raised? <==> e.Failed? && Step(cfg, s, f).0.consecutive > cfg.tolerance)
  {
  }

  lemma AttemptAgrees(cfg: Settings, s: State, trace: seq<Event>, f: Frame)
    requires cfg.minRate > 0.0 && Agrees(cfg, s, trace) && Attempts(cfg, f)
    ensures Agrees(cfg, Step(cfg, s, f).0, trace + StepEvents(cfg, s, f))
  {
    var streamed := Streamed(cfg, s, f);
    var beats := PollEvents(cfg, s.bridge, f.poll);
    assert Agrees(cfg, streamed, trace);
    PollAgrees(cfg, streamed, trace, f.poll);
    AccountAgrees(cfg, Polled(cfg, streamed, f), trace + beats, f.detected.target.value);
    AttemptStep(cfg, s, f);
    var e := Publish(cfg, Polled(cfg, streamed, f).bridge, f.detected.target.value).1;
    assert trace + (beats + [e]) == trace + beats + [e];
  }

  /** A frame that only reads a heartbeat, or does not get that far. */
  lemma QuietStep(cfg: Settings, s: State, f: Frame)
    requires cfg.minRate > 0.0 && !Attempts(cfg, f)
    ensures var t := Step(cfg, s, f).0;
            t == s.(droppedDetections := t.droppedDetections, droppedStream := t.droppedStream, tracks := t.tracks,
                    bridge := if Reaches(cfg, f) then PollHeartbeat(cfg, s.bridge, f.poll) else s.bridge)
    ensures StepEvents(cfg, s, f) == if Reaches(cfg, f) then PollEvents(cfg, s.bridge, f.poll) else []
  {
  }

  lemma StepAgrees(cfg: Settings, s: State, trace: seq<Event>, f: Frame)
    requires cfg.minRate > 0.0 && Agrees(cfg, s, trace)
    ensures Agrees(cfg, Step(cfg, s, f).0, trace + StepEvents(cfg, s, f))
  {
    if Attempts(cfg, f) {
      AttemptAgrees(cfg, s, trace, f);
    } else {
      QuietStep(cfg, s, f);
      if Reaches(cfg, f) {
        PollAgrees(cfg, s, trace, f.poll);
      }
      assert trace + [] == trace;
    }
  }

  /** After any frames, every counter is what its name says about the run. */
  lemma {:induction false} BooksAgree(cfg: Settings, frames: seq<Frame>)
    requires cfg.minRate > 0.0
    ensures Agrees(cfg, After(cfg, frames), Trace(cfg, frames))
  {
    if frames == [] {
      assert Agrees(cfg, INITIAL, []);
    } else {
      var before := frames[..|frames| - 1];
      BooksAgree(cfg, before);
      StepAgrees(cfg, After(cfg, before), Trace(cfg, before), frames[|frames| - 1]);
    }
  }

  // ---------- the gate ----------

  /** The position of the last heartbeat before position i. */
  ghost predicate LastBeatBefore(trace: seq<Event>, i: nat, j: nat) {
    j < i <= |trace| && trace[j].Beat? && forall k | j < k < i :: !trace[k].Beat?
  }

  lemma {:induction false} BeatIsThere(trace: seq<Event>) returns (j: nat)
    requires LastBeat(trace).Some?
    ensures LastBeatBefore(trace, |trace|, j) && trace[j].at == LastBeat(trace).value
  {
    if trace[|trace| - 1].Beat? {
      j := |trace| - 1;
    } else {
      j := BeatIsThere(trace[..|trace| - 1]);
    }
  }

  /** Each send follows a drained target heartbeat that was no older than the window when checked. */
  ghost predicate Gated(cfg: Settings, trace: seq<Event>) {
    forall i | 0 <= i < |trace| && trace[i].Sent? ::
      exists j: nat :: LastBeatBefore(trace, i, j) && trace[i].checkedAt - trace[j].at <= cfg.timeout
  }

  /** The message names the configured system and component, zero standing for any. */
  predicate FromAutopilot(cfg: Settings, m: Message) {
    && (cfg.system == 0 || m.system == Some(cfg.system))
    && (cfg.component == 0 || m.component == Some(cfg.component))
  }

  ghost predicate BeatsAreTargets(cfg: Settings, trace: seq<Event>) {
    forall j | 0 <= j < |trace| && trace[j].Beat? :: FromAutopilot(cfg, trace[j].message)
  }

  lemma GatedSnoc(cfg: Settings, trace: seq<Event>, e: Event)
    requires Gated(cfg, trace)
    requires e.Sent? ==> IsFresh(cfg.timeout, LastBeat(trace), e.checkedAt)
    ensures Gated(cfg, trace + [e])
  {
    var longer := trace + [e];
    forall i | 0 <= i < |longer| && longer[i].Sent?
      ensures exists j: nat :: LastBeatBefore(longer, i, j) && longer[i].checkedAt - longer[j].at <= cfg.timeout
    {
      var j: nat;
      if i < |trace| {
        assert trace[i].Sent?;
        j :| LastBeatBefore(trace, i, j) && trace[i].checkedAt - trace[j].at <= cfg.timeout;
      } else {
        j := BeatIsThere(trace);
      }
      assert LastBeatBefore(longer, i, j);
    }
  }

  lemma {:induction false} SendsAreGated(cfg: Settings, frames: seq<Frame>)
    requires cfg.minRate > 0.0 && cfg.gated
    ensures Gated(cfg, Trace(cfg, frames)) && BeatsAreTargets(cfg, Trace(cfg, frames))
  {
    if frames != [] {
      var before := frames[..|frames| - 1];
      SendsAreGated(cfg, before);
      BooksAgree(cfg, before);
      GatedStep(cfg, After(cfg, before), Trace(cfg, before), frames[|frames| - 1]);
    }
  }

  lemma GatedPoll(cfg: Settings, b: Bridge, trace: seq<Event>, p: Poll)
    requires b.last == LastBeat(trace) && Gated(cfg, trace) && BeatsAreTargets(cfg, trace)
    ensures var longer := trace + PollEvents(cfg, b, p);
            && Gated(cfg, longer) && BeatsAreTargets(cfg, longer)
            && PollHeartbeat(cfg, b, p).last == LastBeat(longer)
  {
    if Drains(cfg, b, p) {
      GatedSnoc(cfg, trace, Beat(p.beatAt, p.received.message));
      Snoc(trace, Beat(p.beatAt, p.received.message));
    } else {
      assert trace + PollEvents(cfg, b, p) == trace;
    }
  }

  lemma SendIsFresh(cfg: Settings, b: Bridge, a: Attempt)
    requires cfg.gated && Publish(cfg, b, a).1.Sent?
    ensures IsFresh(cfg.timeout, b.last, Publish(cfg, b, a).1.checkedAt)
  {
  }

  lemma GatedStep(cfg: Settings, s: State, trace: seq<Event>, f: Frame)
    requires cfg.minRate > 0.0 && cfg.gated && s.bridge.last == LastBeat(trace)
    requires Gated(cfg, trace) && BeatsAreTargets(cfg, trace)
    ensures Gated(cfg, trace + StepEvents(cfg, s, f)) && BeatsAreTargets(cfg, trace + StepEvents(cfg, s, f))
  {
    if Attempts(cfg, f) {
      GatedPoll(cfg, s.bridge, trace, f.poll);
      GatedAttempt(cfg, Polled(cfg, s, f).bridge, trace + PollEvents(cfg, s.bridge, f.poll), f.detected.target.value);
      AttemptStep(cfg, s, f);
      var e := Publish(cfg, Polled(cfg, s, f).bridge, f.detected.target.value).1;
      assert trace + (PollEvents(cfg, s.bridge, f.poll) + [e]) == trace + PollEvents(cfg, s.bridge, f.poll) + [e];
    } else if Reaches(cfg, f) {
      GatedPoll(cfg, s.bridge, trace, f.poll);
      assert StepEvents(cfg, s, f) == PollEvents(cfg, s.bridge, f.poll);
    } else {
      assert trace + StepEvents(cfg, s, f) == trace;
    }
  }

  lemma GatedAttempt(cfg: Settings, b: Bridge, trace: seq<Event>, a: Attempt)
    requires cfg.gated && b.last == LastBeat(trace) && Gated(cfg, trace) && BeatsAreTargets(cfg, trace)
    ensures var longer := trace + [Publish(cfg, b, a).1];
            Gated(cfg, longer) && BeatsAreTargets(cfg, longer)
  {
    var e := Publish(cfg, b, a).1;
    if e.Sent? {
      SendIsFresh(cfg, b, a);
    }
    PublishMoves(cfg, b, a);
    GatedSnoc(cfg, trace, e);
  }

  // ---------- what is heard, opened and sent ----------

  /** The poll of this frame is reached, and its message received. */
  predicate Receives(cfg: Settings, connected: bool, f: Frame) {
    && cfg.bridged && f.Frame? && f.detected.Found?
    && cfg.gated && (connected || f.poll.opening.Opened?) && f.poll.received.Got?
  }

  /** On an open link, exactly the messages of the configured autopilot are heard. */
  lemma HeardExactly(cfg: Settings, frames: seq<Frame>, f: Frame)
    requires cfg.minRate > 0.0
    ensures var s := After(cfg, frames);
            var events := StepEvents(cfg, s, f);
            && ((exists e | e in events :: e.Beat?) <==>
                Receives(cfg, s.bridge.connected, f) && FromAutopilot(cfg, f.poll.received.message))
            && (Receives(cfg, s.bridge.connected, f) && FromAutopilot(cfg, f.poll.received.message) ==>
                  events != [] && events[0] == Beat(f.poll.beatAt, f.poll.received.message))
  {
    var s := After(cfg, frames);
    if Attempts(cfg, f) {
      AttemptStep(cfg, s, f);
      PublishMoves(cfg, Polled(cfg, Streamed(cfg, s, f), f).bridge, f.detected.target.value);
    } else {
      QuietStep(cfg, s, f);
    }
    if Reaches(cfg, f) && PollEvents(cfg, s.bridge, f.poll) != [] {
      assert StepEvents(cfg, s, f)[0] == PollEvents(cfg, s.bridge, f.poll)[0];
    }
  }

  /** The gate holds a publish back: the last heartbeat heard, if any, is too old. */
  ghost predicate Stale(cfg: Settings, frames: seq<Frame>, f: Frame)
    requires cfg.minRate > 0.0 && Attempts(cfg, f)
  {
    var heard := LastBeat(Trace(cfg, frames) + PollEvents(cfg, After(cfg, frames).bridge, f.poll));
    cfg.gated && !(heard.Some? && f.detected.target.value.checkedAt - heard.value <= cfg.timeout)
  }

  /** The link is open when the message is to go out. */
  predicate Linked(cfg: Settings, connected: bool, f: Frame)
    requires Attempts(cfg, f)
  {
    connected || (cfg.gated && f.poll.opening.Opened?) || f.detected.target.value.opening.Opened?
  }

  lemma HeardByThen(cfg: Settings, frames: seq<Frame>, f: Frame)
    requires cfg.minRate > 0.0 && Reaches(cfg, f)
    ensures var polled := Polled(cfg, Streamed(cfg, After(cfg, frames), f), f);
            polled.bridge.last == LastBeat(Trace(cfg, frames) + PollEvents(cfg, After(cfg, frames).bridge, f.poll))
  {
    var s := After(cfg, frames);
    BooksAgree(cfg, frames);
    assert Agrees(cfg, Streamed(cfg, s, f), Trace(cfg, frames));
    PollAgrees(cfg, Streamed(cfg, s, f), Trace(cfg, frames), f.poll);
  }

  /** How a publish attempt ends, over any run: sent exactly when the feature is on, the gate is open, the link is,
      the target could be projected if it had to be, and the send did not raise; held back or failed for the first
      of these that is missing. */
  lemma AttemptEndsExactly(cfg: Settings, frames: seq<Frame>, f: Frame)
    requires cfg.minRate > 0.0 && Attempts(cfg, f)
    ensures var a, events := f.detected.target.value, StepEvents(cfg, After(cfg, frames), f);
            var ready := cfg.enabled && !Stale(cfg, frames, f);
            var linked := ready && Linked(cfg, After(cfg, frames).bridge.connected, f);
            events != [] &&
            var e := events[|events| - 1];
            && (e == Sent(a.checkedAt, a.doneAt) <==> linked && (cfg.localNed ==> a.pose.Projected?) && !a.sendRaises)
            && (e == Failed <==>
                || (ready && !linked)
                || (linked && cfg.localNed && a.pose.PoseError?)
                || (linked && (cfg.localNed ==> a.pose.Projected?) && a.sendRaises))
            && (e == Withheld(Some(NoHeartbeat)) <==> cfg.enabled && Stale(cfg, frames, f))
            && (e == Withheld(Some(MissingPose)) <==> linked && cfg.localNed && a.pose.NoPose?)
            && (e == Withheld(Some(Unprojectable)) <==> linked && cfg.localNed && a.pose.Beyond?)
            && (e == Withheld(None) <==> !cfg.enabled)
  {
    HeardByThen(cfg, frames, f);
    AttemptStep(cfg, After(cfg, frames), f);
  }

  lemma AttemptConnects(cfg: Settings, s: State, f: Frame)
    requires cfg.minRate > 0.0 && Attempts(cfg, f)
    ensures var a, b := f.detected.target.value, Polled(cfg, Streamed(cfg, s, f), f).bridge;
            var open := !cfg.gated || (b.last.Some? && a.checkedAt - b.last.value <= cfg.timeout);
            && (b.connected <==> s.bridge.connected || (cfg.gated && f.poll.opening.Opened?))
            && (Step(cfg, s, f).0.bridge.connected <==> b.connected || (cfg.enabled && open && a.opening.Opened?))
  {
    AttemptStep(cfg, s, f);
  }

  /** The link is open from the first time on that something opens it: a poll with the gate on, or a publish that
      gets past the gate. */
  lemma LinkOpensExactly(cfg: Settings, frames: seq<Frame>, f: Frame)
    requires cfg.minRate > 0.0
    ensures After(cfg, frames + [f]).bridge.connected <==>
            || After(cfg, frames).bridge.connected
            || (Reaches(cfg, f) && cfg.gated && f.poll.opening.Opened?)
            || (Attempts(cfg, f) && cfg.enabled && !Stale(cfg, frames, f) && f.detected.target.value.opening.Opened?)
  {
    assert (frames + [f])[..|frames|] == frames;
    if Attempts(cfg, f) {
      HeardByThen(cfg, frames, f);
      AttemptConnects(cfg, After(cfg, frames), f);
    } else {
      QuietStep(cfg, After(cfg, frames), f);
    }
  }

  /** Each poll with the gate on notes whether the last heartbeat heard, if any, is within the window. */
  lemma FreshnessIsNoted(cfg: Settings, frames: seq<Frame>, f: Frame)
    requires cfg.minRate > 0.0 && cfg.gated && Reaches(cfg, f)
    ensures var heard := LastBeat(Trace(cfg, frames) + PollEvents(cfg, After(cfg, frames).bridge, f.poll));
            After(cfg, frames + [f]).bridge.lastFresh ==
            Some(heard.Some? && f.poll.freshAt - heard.value <= cfg.timeout)
  {
    assert (frames + [f])[..|frames|] == frames;
    HeardByThen(cfg, frames, f);
    StepNotes(cfg, After(cfg, frames), f);
  }

  lemma StepNotes(cfg: Settings, s: State, f: Frame)
    requires cfg.minRate > 0.0 && cfg.gated && Reaches(cfg, f)
    ensures var last := Polled(cfg, Streamed(cfg, s, f), f).bridge.last;
            Step(cfg, s, f).0.bridge.lastFresh == Some(last.Some? && f.poll.freshAt - last.value <= cfg.timeout)
  {
    if Attempts(cfg, f) {
      AttemptStep(cfg, s, f);
    } else {
      QuietStep(cfg, s, f);
    }
  }

  /** Malformed detections and stream faults are counted one by one. */
  lemma {:induction false} DropsAreCounted(cfg: Settings, frames: seq<Frame>)
    requires cfg.minRate > 0.0
    ensures After(cfg, frames).droppedDetections == Count(frames, (f: Frame) => f.Frame? && f.detected.Malformed?)
    ensures After(cfg, frames).droppedStream ==
            Count(frames, (f: Frame) => f.Frame? && f.detected.Found? && f.streamRaises)
  {
    if frames != [] {
      DropsAreCounted(cfg, frames[..|frames| - 1]);
      DropsOfStep(cfg, After(cfg, frames[..|frames| - 1]), frames[|frames| - 1]);
    }
  }

  lemma DropsOfStep(cfg: Settings, s: State, f: Frame)
    requires cfg.minRate > 0.0
    ensures var t := Step(cfg, s, f).0;
            && t.droppedDetections == s.droppedDetections + (if f.Frame? && f.detected.Malformed? then 1 else 0)
            && t.droppedStream ==
               s.droppedStream + if f.Frame? && f.detected.Found? && f.streamRaises then 1 else 0
  {
  }

  // ---------- conservation ----------

  function ReasonTotal(counts: map<Reason, nat>): nat {
    CountOf(counts, NoHeartbeat) + CountOf(counts, MissingPose) + CountOf(counts, Unprojectable)
  }

  lemma PublishExplains(cfg: Settings, b: Bridge, a: Attempt)
    ensures var (c, e) := Publish(cfg, b, a);
            && ReasonTotal(c.counts) == ReasonTotal(b.counts) + (if HasReason(e) then 1 else 0)
            && (if cfg.enabled then e.Withheld? ==> HasReason(e) else e == Withheld(None))
  {
  }

  lemma StepBalances(cfg: Settings, s: State, f: Frame)
    requires cfg.minRate > 0.0
    ensures var t := Step(cfg, s, f).0;
            var one := if Attempts(cfg, f) then 1 else 0;
            && t.published + t.suppressed + t.failures == s.published + s.suppressed + s.failures + one
            && t.suppressed >= s.suppressed
            && ReasonTotal(t.bridge.counts) - ReasonTotal(s.bridge.counts) ==
               (if cfg.enabled then t.suppressed - s.suppressed else 0)
            && (!cfg.enabled ==> t.published == s.published && t.failures == s.failures)
  {
    if Attempts(cfg, f) {
      AttemptStep(cfg, s, f);
      PublishExplains(cfg, Polled(cfg, Streamed(cfg, s, f), f).bridge, f.detected.target.value);
    }
  }

  /** Every publish attempt is counted once, as a send, a suppression or a failure. */
  lemma {:induction false} AttemptsBalance(cfg: Settings, frames: seq<Frame>)
    requires cfg.minRate > 0.0
    ensures var s := After(cfg, frames);
            s.published + s.suppressed + s.failures == Count(frames, (f: Frame) => Attempts(cfg, f))
  {
    if frames != [] {
      AttemptsBalance(cfg, frames[..|frames| - 1]);
      StepBalances(cfg, After(cfg, frames[..|frames| - 1]), frames[|frames| - 1]);
    }
  }

  /** The bridge explains every suppression the pipeline counts, unless the feature is off: then none. */
  lemma {:induction false} ReasonsExplain(cfg: Settings, frames: seq<Frame>)
    requires cfg.minRate > 0.0
    ensures var s := After(cfg, frames);
            && ReasonTotal(s.bridge.counts) == (if cfg.enabled then s.suppressed else 0)
            && (!cfg.enabled ==> s.published == 0 && s.failures == 0)
  {
    if frames != [] {
      ReasonsExplain(cfg, frames[..|frames| - 1]);
      StepBalances(cfg, After(cfg, frames[..|frames| - 1]), frames[|frames| - 1]);
    }
  }

  lemma ReasonsSumExactly(cfg: Settings, frames: seq<Frame>)
    requires cfg.minRate > 0.0
    ensures var s := After(cfg, frames);
            ReasonTotal(s.bridge.counts) == s.suppressed <==>
            cfg.enabled || forall f | f in frames :: !Attempts(cfg, f)
  {
    ReasonsExplain(cfg, frames);
    AttemptsBalance(cfg, frames);
    CountZero(frames, (f: Frame) => Attempts(cfg, f));
  }

  lemma {:induction false} CountZero<T>(s: seq<T>, p: T -> bool)
    ensures Count(s, p) == 0 <==> forall x | x in s :: !p(x)
  {
    if s != [] {
      CountZero(s[..|s| - 1], p);
      assert s == s[..|s| - 1] + [s[|s| - 1]];
    }
  }

  // ---------- escalation ----------

  /** A frame raises exactly when its detector broke, or its publish failed and is at least the
      (tolerance + 1)-th failure after the last send; suppressions in between do not forgive it. */
  lemma EscalatesExactly(cfg: Settings, frames: seq<Frame>, f: Frame)
    requires cfg.minRate > 0.0
    ensures var s := After(cfg, frames);
            var events := StepEvents(cfg, s, f);
            Step(cfg, s, f).1.Raised? <==>
            || (f.Frame? && f.detected.DetectorFault?)
            || (&& events != [] && events[|events| - 1].Failed?
                && Count(SinceSent(Trace(cfg, frames) + events), IsFailed) >= cfg.tolerance + 1)
  {
    var s := After(cfg, frames);
    BooksAgree(cfg, frames);
    if Attempts(cfg, f) {
      AttemptStep(cfg, s, f);
      AttemptAgrees(cfg, s, Trace(cfg, frames), f);
    }
  }

  // ---------- tracking stays advisory ----------

  /** What the tracker answered, frame by frame, on the frames it was asked about. */
  function Updates(cfg: Settings, frames: seq<Frame>): seq<Tracks.Update> {
    if frames == [] then []
    else
      var f := frames[|frames| - 1];
      Updates(cfg, frames[..|frames| - 1]) +
      if cfg.tracking && f.Frame? && f.detected.Found? then [f.tracked] else []
  }

  lemma StepTracks(cfg: Settings, s: State, f: Frame)
    requires cfg.minRate > 0.0
    ensures Step(cfg, s, f).0.tracks ==
            if cfg.tracking && f.Frame? && f.detected.Found? then Tracks.Apply(s.tracks, f.tracked) else s.tracks
  {
  }

  /** The pipeline's track counters are those of the tracker's answers alone. */
  lemma {:induction false} TracksOfRun(cfg: Settings, frames: seq<Frame>)
    requires cfg.minRate > 0.0
    ensures After(cfg, frames).tracks == Tracks.After(Updates(cfg, frames))
  {
    if frames != [] {
      var before := frames[..|frames| - 1];
      var f := frames[|frames| - 1];
      TracksOfRun(cfg, before);
      StepTracks(cfg, After(cfg, before), f);
      var updates := Updates(cfg, before);
      if f.Frame? {
        assert (updates + [f.tracked])[..|updates|] == updates;
      }
      assert updates + [] == updates;
    } else {
      assert After(cfg, frames) == INITIAL;
    }
  }

  /** The frames as they would be had the tracker answered differently. */
  function Retracked(frames: seq<Frame>, answers: seq<Tracks.Update>): seq<Frame>
    requires |answers| == |frames|
  {
    if frames == [] then []
    else
      var f := frames[|frames| - 1];
      Retracked(frames[..|frames| - 1], answers[..|frames| - 1]) +
      [if f.Frame? then f.(tracked := answers[|frames| - 1]) else f]
  }

  ghost predicate SameButTracks(s: State, t: State) { s == t.(tracks := s.tracks) }

  lemma AccountIgnoresTracks(cfg: Settings, s: State, t: State, c: Bridge, e: Event)
    requires cfg.minRate > 0.0 && SameButTracks(s, t)
    ensures SameButTracks(Account(cfg, s.(bridge := c), e), Account(cfg, t.(bridge := c), e))
    ensures Account(cfg, s.(bridge := c), e).consecutive == Account(cfg, t.(bridge := c), e).consecutive
  {
  }

  lemma StepIgnoresTracks(cfg: Settings, s: State, t: State, f: Frame, answer: Tracks.Update)
    requires cfg.minRate > 0.0 && SameButTracks(s, t)
    ensures var g := if f.Frame? then f.(tracked := answer) else f;
            && SameButTracks(Step(cfg, s, f).0, Step(cfg, t, g).0)
            && StepEvents(cfg, s, f) == StepEvents(cfg, t, g)
  {
    if Attempts(cfg, f) {
      var g := f.(tracked := answer);
      AttemptStep(cfg, s, f);
      AttemptStep(cfg, t, g);
      var x, y := Polled(cfg, Streamed(cfg, s, f), f), Polled(cfg, Streamed(cfg, t, g), g);
      var (c, e) := Publish(cfg, x.bridge, f.detected.target.value);
      AccountIgnoresTracks(cfg, x, y, c, e);
    }
  }

  /** Whatever the tracker answers, the same messages are sent, withheld and counted. */
  lemma {:induction false} TrackingIsAdvisory(cfg: Settings, frames: seq<Frame>, answers: seq<Tracks.Update>)
    requires cfg.minRate > 0.0 && |answers| == |frames|
    ensures var other := Retracked(frames, answers);
            && Trace(cfg, other) == Trace(cfg, frames)
            && After(cfg, other) == After(cfg, frames).(tracks := After(cfg, other).tracks)
  {
    if frames != [] {
      var n := |frames| - 1;
      TrackingIsAdvisory(cfg, frames[..n], answers[..n]);
      var others := Retracked(frames[..n], answers[..n]);
      var f := frames[n];
      var g := if f.Frame? then f.(tracked := answers[n]) else f;
      StepIgnoresTracks(cfg, After(cfg, frames[..n]), After(cfg, others), f, answers[n]);
      assert Retracked(frames, answers) == others + [g];
      assert (others + [g])[..|others|] == others;
    }
  }
}
