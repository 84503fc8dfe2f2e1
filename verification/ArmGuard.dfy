/** Pre-flight arm gating in front of an RC link, and its composition with the
    link-health monitor over whole runs. */
module ArmGuard {
  import opened Options
  import opened LinkHealth

  datatype GuardSettings = GuardSettings(armIndex: nat, thresholdUs: int, maxAgeS: real, clampUs: int) {
    /** The clamp really is the disarmed position. */
    predicate Valid() { clampUs < thresholdUs }
  }

  type Channels = seq<int>

  datatype Blocked = Blocked(attemptedUs: int, clampedToUs: int, report: Option<Report>)

  datatype Guard = Guard(latched: bool, lastReport: Option<Report>, out: seq<Channels>, blocked: seq<Blocked>)

  const Disarmed := Guard(false, None, [], [])

  predicate ArmAllowed(report: Option<Report>, now: real, maxAgeS: real) {
    report.Some? && now - report.value.tMono <= maxAgeS && report.value.armPermitted
  }

  predicate WantsArm(c: GuardSettings, ch: Channels)
    requires c.armIndex < |ch|
  {
    ch[c.armIndex] >= c.thresholdUs
  }

  function Sent(c: GuardSettings, g: Guard, now: real, ch: Channels): Guard
    requires c.armIndex < |ch|
  {
    if g.latched then g.(latched := WantsArm(c, ch), out := g.out + [ch])
    else if !WantsArm(c, ch) then g.(out := g.out + [ch])
    else if ArmAllowed(g.lastReport, now, c.maxAgeS) then g.(latched := true, out := g.out + [ch])
    else g.(out := g.out + [ch[c.armIndex := c.clampUs]],
            blocked := g.blocked + [Blocked(ch[c.armIndex], c.clampUs, g.lastReport)])
  }

  class ArmGuard {
    const settings: GuardSettings
    var latched: bool
    var lastReport: Option<Report>
    var out: seq<Channels>
    var blocked: seq<Blocked>

    function View(): Guard
      reads this
    {
      Guard(latched, lastReport, out, blocked)
    }

    constructor (settings: GuardSettings)
      ensures View() == Disarmed && this.settings == settings
    {
      this.settings := settings;
      latched, lastReport, out, blocked := false, None, [], [];
    }

    method UpdateHealth(report: Report)
      modifies this`lastReport
      ensures lastReport == Some(report)
    {
      lastReport := Some(report);
    }

    /** Answers false, leaving everything alone, for a frame too short to hold the arm channel. */
    method SendRc(channels: Channels, now: real) returns (ok: bool)
      modifies this
      ensures ok == (settings.armIndex < |channels|)
      ensures View() == if ok then Sent(settings, old(View()), now, channels) else old(View())
      ensures blocked != old(blocked) ==> blocked[|blocked| - 1].report == old(lastReport)
    {
      var idx := settings.armIndex;
      if |channels| <= idx {
        return false;
      }
      var chans := channels;
      var wantsArm := chans[idx] >= settings.thresholdUs;
      if latched {
        if !wantsArm {
          latched := false;
        }
        out := out + [chans];
        return true;
      }
      if !wantsArm {
        out := out + [chans];
        return true;
      }
      if ArmAllowed(lastReport, now, settings.maxAgeS) {
        latched := true;
        out := out + [chans];
      } else {
        var attempted := chans[idx];
        chans := chans[idx := settings.clampUs];
        blocked := blocked + [Blocked(attempted, settings.clampUs, lastReport)];
        out := out + [chans];
      }
      return true;
    }
  }

  // ----- The composition: monitor evaluations, report hand-overs and RC frames, interleaved -----

  datatype Event =
    | Evaluate(call: Call)
    | HandOver(k: nat)                      // the k-th report reaches the guard
    | Rc(channels: Channels, now: real)

  /** `guarding` is the index of the report the guard holds. */
  datatype System = System(
    calls: seq<Call>, monitor: Monitor, reports: seq<Report>, guarding: Option<nat>, guard: Guard)

  /** A hand-over of a report that does not exist yet cannot happen; a frame without an
      arm channel is refused. Both leave everything alone. */
  function Step(h: Settings, c: GuardSettings, s: System, e: Event): System {
    match e
    case Evaluate(call) =>
      var m := Evaluated(h, s.monitor, call.entry, call.now);
      s.(calls := s.calls + [call], monitor := m, reports := s.reports + [m.lastReport.value])
    case HandOver(k) =>
      if k >= |s.reports| then s
      else s.(guarding := Some(k), guard := s.guard.(lastReport := Some(s.reports[k])))
    case Rc(ch, now) =>
      if |ch| <= c.armIndex then s else s.(guard := Sent(c, s.guard, now, ch))
  }

  function Run(h: Settings, c: GuardSettings, events: seq<Event>): System {
    if events == [] then System([], Monitor(Boot, None, []), [], None, Disarmed)
    else Step(h, c, Run(h, c, events[..|events| - 1]), events[|events| - 1])
  }

  /** The last frame that left the guard commands arming. */
  predicate OutputArmed(c: GuardSettings, g: Guard) {
    g.out != [] && Armed(c, g.out[|g.out| - 1])
  }

  /** The arm channel stands at or above the threshold. */
  predicate Armed(c: GuardSettings, ch: Channels) {
    |ch| > c.armIndex && ch[c.armIndex] >= c.thresholdUs
  }

  /** Report `k` carries the time of call `k` and permits arming iff the damped state was OK. */
  ghost predicate Confirmed(h: Settings, calls: seq<Call>, reports: seq<Report>, k: nat)
    requires k < |calls| == |reports|
  {
    && reports[k].tMono == calls[k].now
    && reports[k].armPermitted == (Damping(Samples(h, calls[..k + 1]), h.hysteresisS).state == Ok)
  }

  lemma MonitoredMore(h: Settings, calls: seq<Call>, call: Call)
    ensures Monitored(h, calls + [call]) == Evaluated(h, Monitored(h, calls), call.entry, call.now)
  {
    assert (calls + [call])[..|calls|] == calls;
  }

  lemma MonitorOfStep(h: Settings, c: GuardSettings, s: System, e: Event)
    requires |s.reports| == |s.calls| && s.monitor == Monitored(h, s.calls)
    requires s.guarding.Some? ==> s.guarding.value < |s.reports|
    requires s.guard.lastReport == if s.guarding.Some? then Some(s.reports[s.guarding.value]) else None
    ensures var t := Step(h, c, s, e);
            && |t.reports| == |t.calls|
            && t.monitor == Monitored(h, t.calls)
            && (t.guarding.Some? ==> t.guarding.value < |t.reports|)
            && t.guard.lastReport == if t.guarding.Some? then Some(t.reports[t.guarding.value]) else None
  {
    if e.Evaluate? {
      MonitoredMore(h, s.calls, e.call);
    }
  }

  lemma {:induction false} MonitorOfRun(h: Settings, c: GuardSettings, events: seq<Event>)
    ensures var s := Run(h, c, events);
            && |s.reports| == |s.calls|
            && s.monitor == Monitored(h, s.calls)
            && (s.guarding.Some? ==> s.guarding.value < |s.reports|)
            && s.guard.lastReport == if s.guarding.Some? then Some(s.reports[s.guarding.value]) else None
  {
    if events != [] {
      var init, last := events[..|events| - 1], events[|events| - 1];
      MonitorOfRun(h, c, init);
      MonitorOfStep(h, c, Run(h, c, init), last);
    }
  }

  lemma EvaluateConfirms(h: Settings, calls: seq<Call>, reports: seq<Report>, call: Call, report: Report)
    requires |reports| == |calls|
    requires forall k | 0 <= k < |calls| :: Confirmed(h, calls, reports, k)
    requires Monitored(h, calls + [call]).lastReport == Some(report)
    ensures forall k | 0 <= k <= |calls| :: Confirmed(h, calls + [call], reports + [report], k)
  {
    var longer := calls + [call];
    MonitoredIsDamping(h, longer);
    forall k | 0 <= k <= |calls|
      ensures Confirmed(h, longer, reports + [report], k)
    {
      if k < |calls| {
        assert Confirmed(h, calls, reports, k);
        assert longer[..k + 1] == calls[..k + 1];
      } else {
        assert longer[..k + 1] == longer;
      }
    }
  }

  lemma {:induction false} ReportsAreConfirmed(h: Settings, c: GuardSettings, events: seq<Event>)
    ensures var s := Run(h, c, events);
            && |s.reports| == |s.calls|
            && forall k | 0 <= k < |s.calls| :: Confirmed(h, s.calls, s.reports, k)
  {
    MonitorOfRun(h, c, events);
    if events != [] {
      var init, last := events[..|events| - 1], events[|events| - 1];
      ReportsAreConfirmed(h, c, init);
      if last.Evaluate? {
        var before, after := Run(h, c, init), Run(h, c, events);
        EvaluateConfirms(h, before.calls, before.reports, last.call, after.monitor.lastReport.value);
      }
    }
  }

  /** The latch says whether the last output frame was armed. */
  lemma {:induction false} LatchIsOutput(h: Settings, c: GuardSettings, events: seq<Event>)
    requires c.Valid()
    ensures Run(h, c, events).guard.latched == OutputArmed(c, Run(h, c, events).guard)
  {
    if events != [] {
      LatchIsOutput(h, c, events[..|events| - 1]);
    }
  }

  /** It does so on every run exactly when the clamp lies below the arm threshold. */
  lemma LatchIsOutputIff(h: Settings, c: GuardSettings)
    ensures c.Valid() <==> forall events :: Run(h, c, events).guard.latched == OutputArmed(c, Run(h, c, events).guard)
  {
    if c.Valid() {
      forall events
        ensures Run(h, c, events).guard.latched == OutputArmed(c, Run(h, c, events).guard)
      {
        LatchIsOutput(h, c, events);
      }
    } else {
      var ch := seq(c.armIndex + 1, i => c.thresholdUs);
      var events := [Rc(ch, 0.0)];
      assert events[..0] == [];
      assert Run(h, c, events) == Step(h, c, Run(h, c, []), Rc(ch, 0.0));
      assert Run(h, c, events).guard.out == [ch[c.armIndex := c.clampUs]];
      assert Run(h, c, events).guard.latched != OutputArmed(c, Run(h, c, events).guard);
    }
  }

  /** The report at index `k` came out of raw-OK evaluations only, at least two of them,
      spanning at least the hysteresis window, and is at most `maxAgeS` old. */
  ghost predicate Earned(h: Settings, c: GuardSettings, calls: seq<Call>, k: nat, now: real)
    requires k < |calls|
  {
    && now - calls[k].now <= c.maxAgeS
    && Sustained(Samples(h, calls[..k + 1]), Ok, h.hysteresisS)
  }

  /** An output frame is armed exactly when the caller asks for it and either the
      previous output was armed already or the guarding report has earned it. */
  lemma ArmingIsEarned(h: Settings, c: GuardSettings, events: seq<Event>, ch: Channels, now: real)
    requires c.Valid() && c.armIndex < |ch|
    requires Monotone(Samples(h, Run(h, c, events).calls))
    ensures var s := Run(h, c, events);
            && (s.guarding.Some? ==> s.guarding.value < |s.calls|)
            && (OutputArmed(c, Run(h, c, events + [Rc(ch, now)]).guard) <==>
                && Armed(c, ch)
                && (OutputArmed(c, s.guard) || (s.guarding.Some? && Earned(h, c, s.calls, s.guarding.value, now))))
  {
    var s := Run(h, c, events);
    assert (events + [Rc(ch, now)])[..|events|] == events;
    LatchIsOutput(h, c, events);
    LatchIsOutput(h, c, events + [Rc(ch, now)]);
    MonitorOfRun(h, c, events);
    LatchAfter(c, s.guard, ch, now);
    if s.guarding.Some? {
      ReportsAreConfirmed(h, c, events);
      PermitIsEarned(h, c, s.calls, s.reports, s.guarding.value, now);
    }
  }

  lemma LatchAfter(c: GuardSettings, g: Guard, ch: Channels, now: real)
    requires c.armIndex < |ch|
    ensures Sent(c, g, now, ch).latched <==> WantsArm(c, ch) && (g.latched || ArmAllowed(g.lastReport, now, c.maxAgeS))
  {
  }

  /** A confirmed report allows arming exactly when it was earned. */
  lemma PermitIsEarned(h: Settings, c: GuardSettings, calls: seq<Call>, reports: seq<Report>, k: nat, now: real)
    requires k < |calls| == |reports| && Confirmed(h, calls, reports, k) && Monotone(Samples(h, calls))
    ensures ArmAllowed(Some(reports[k]), now, c.maxAgeS) <==> Earned(h, c, calls, k, now)
  {
    var prefix := calls[..k + 1];
    var all := Samples(h, calls);
    assert forall i | 0 <= i < |prefix| :: Samples(h, prefix)[i] == all[i];
    ConfirmedOkExactly(Samples(h, prefix), h.hysteresisS);
  }

  /** The RC frames the guard accepted, in order. */
  function Accepted(c: GuardSettings, events: seq<Event>): seq<Channels> {
    if events == [] then []
    else
      Accepted(c, events[..|events| - 1]) +
      match events[|events| - 1]
      case Rc(ch, _) => if c.armIndex < |ch| then [ch] else []
      case Evaluate(_) => []
      case HandOver(_) => []
  }

  /** One output frame per accepted frame, equal to it except that an arm request made
      while the previous output was disarmed may have its arm channel clamped. */
  ghost predicate Passed(c: GuardSettings, accepted: seq<Channels>, out: seq<Channels>, i: nat)
    requires i < |accepted| == |out|
  {
    || out[i] == accepted[i]
    || (&& Armed(c, accepted[i])
        && (i > 0 ==> !Armed(c, out[i - 1]))
        && out[i] == accepted[i][c.armIndex := c.clampUs])
  }

  ghost predicate AllPassed(c: GuardSettings, accepted: seq<Channels>, out: seq<Channels>) {
    |out| == |accepted| && forall i | 0 <= i < |out| :: Passed(c, accepted, out, i)
  }

  /** What the block records must say: every accepted arm request that did not come out armed, in order, with the
      value asked for and the value sent instead. */
  function Refusals(c: GuardSettings, accepted: seq<Channels>, out: seq<Channels>): seq<(int, int)>
    requires |out| == |accepted|
  {
    if out == [] then []
    else
      var n := |out| - 1;
      Refusals(c, accepted[..n], out[..n]) +
      if Armed(c, accepted[n]) && !Armed(c, out[n]) then [(accepted[n][c.armIndex], c.clampUs)] else []
  }

  function Recorded(blocked: seq<Blocked>): seq<(int, int)> {
    seq(|blocked|, i requires 0 <= i < |blocked| => (blocked[i].attemptedUs, blocked[i].clampedToUs))
  }

  lemma BlockedMore(c: GuardSettings, g: Guard, accepted: seq<Channels>, ch: Channels, now: real)
    requires c.Valid() && c.armIndex < |ch| && |g.out| == |accepted|
    requires Recorded(g.blocked) == Refusals(c, accepted, g.out)
    ensures var t := Sent(c, g, now, ch);
            |t.out| == |accepted + [ch]| && Recorded(t.blocked) == Refusals(c, accepted + [ch], t.out)
  {
    var t := Sent(c, g, now, ch);
    RefusalsSnoc(c, accepted, g.out, ch, t.out[|g.out|]);
    if t.blocked != g.blocked {
      RecordedSnoc(g.blocked, t.blocked[|g.blocked|]);
    }
  }

  lemma RefusalsSnoc(c: GuardSettings, accepted: seq<Channels>, out: seq<Channels>, asked: Channels, sent: Channels)
    requires |out| == |accepted|
    ensures Refusals(c, accepted + [asked], out + [sent]) ==
            Refusals(c, accepted, out) +
            if Armed(c, asked) && !Armed(c, sent) then [(asked[c.armIndex], c.clampUs)] else []
  {
    assert (out + [sent])[..|out|] == out && (accepted + [asked])[..|out|] == accepted;
  }

  lemma RecordedSnoc(blocked: seq<Blocked>, b: Blocked)
    ensures Recorded(blocked + [b]) == Recorded(blocked) + [(b.attemptedUs, b.clampedToUs)]
  {
  }

  /** Every refused arm request is on record, and nothing else is. */
  lemma {:induction false} BlockedExactly(h: Settings, c: GuardSettings, events: seq<Event>)
    requires c.Valid()
    ensures var g := Run(h, c, events).guard;
            && |g.out| == |Accepted(c, events)|
            && Recorded(g.blocked) == Refusals(c, Accepted(c, events), g.out)
  {
    if events != [] {
      var init, last := events[..|events| - 1], events[|events| - 1];
      BlockedExactly(h, c, init);
      if last.Rc? && c.armIndex < |last.channels| {
        BlockedMore(c, Run(h, c, init).guard, Accepted(c, init), last.channels, last.now);
      } else {
        assert Accepted(c, events) == Accepted(c, init);
      }
    }
  }

  lemma PassedMore(c: GuardSettings, g: Guard, accepted: seq<Channels>, ch: Channels, now: real)
    requires g.latched == OutputArmed(c, g) && AllPassed(c, accepted, g.out) && c.armIndex < |ch|
    ensures AllPassed(c, accepted + [ch], Sent(c, g, now, ch).out)
  {
    var longer, out := accepted + [ch], Sent(c, g, now, ch).out;
    forall i | 0 <= i < |out|
      ensures Passed(c, longer, out, i)
    {
      if i < |g.out| {
        assert Passed(c, accepted, g.out, i);
      }
    }
  }

  lemma {:induction false} OnlyTheArmChannelChanges(h: Settings, c: GuardSettings, events: seq<Event>)
    requires c.Valid()
    ensures AllPassed(c, Accepted(c, events), Run(h, c, events).guard.out)
  {
    if events != [] {
      var init, last := events[..|events| - 1], events[|events| - 1];
      OnlyTheArmChannelChanges(h, c, init);
      LatchIsOutput(h, c, init);
      if last.Rc? && c.armIndex < |last.channels| {
        PassedMore(c, Run(h, c, init).guard, Accepted(c, init), last.channels, last.now);
      } else {
        assert Accepted(c, events) == Accepted(c, init);
      }
    }
  }
}
