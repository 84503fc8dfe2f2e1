/** Link-health monitor: instantaneous state from the last link statistics, damped so
    that degradation is immediate and recovery must persist. */
module LinkHealth {
  import opened Options

  datatype HealthState = Ok | Warn | Critical | NoData

  function Severity(s: HealthState): nat {
    match s
    case Ok => 0
    case Warn => 1
    case Critical => 2
    case NoData => 3
  }

  datatype Reason =
    | NoTelemetry | LinkStatsStale | LqBelowCritical | LqBelowWarn
    | DownlinkDegrading | RssiBelowMargin | HysteresisHold

  datatype Report = Report(state: HealthState, armPermitted: bool, reasons: seq<Reason>, tMono: real)

  datatype LinkStatistics = LinkStatistics(
    uplinkLq: int, downlinkLq: int, uplinkRssiAnt1: int, uplinkRssiAnt2: int, activeAntenna: int, rfMode: int)

  datatype Settings = Settings(
    lqWarn: int, lqCritical: int, downlinkLqWarn: int, rssiMarginDb: int,
    staleS: real, criticalFactor: real, hysteresisS: real,
    elrsMajor: int, sensitivityFloors: map<(int, int), int>)

  /** The latest link statistics and when they were stored. */
  type Entry = Option<(LinkStatistics, real)>

  function Escalate(current: HealthState, atLeast: HealthState): HealthState {
    if Severity(atLeast) > Severity(current) then atLeast else current
  }

  predicate RssiLow(c: Settings, msg: LinkStatistics) {
    var key := (c.elrsMajor, msg.rfMode);
    var active := if msg.activeAntenna == 1 then msg.uplinkRssiAnt2 else msg.uplinkRssiAnt1;
    key in c.sensitivityFloors && active < c.sensitivityFloors[key] + c.rssiMarginDb
  }

  /** What the indicators of a fresh frame say. */
  function FreshState(c: Settings, msg: LinkStatistics): (HealthState, seq<Reason>) {
    if msg.uplinkLq < c.lqCritical then (Critical, [LqBelowCritical])
    else
      var (s0, r0) := if msg.uplinkLq < c.lqWarn then (Warn, [LqBelowWarn]) else (Ok, []);
      var (s1, r1) := if msg.downlinkLq < c.downlinkLqWarn
                      then (Escalate(s0, Warn), r0 + [DownlinkDegrading]) else (s0, r0);
      if RssiLow(c, msg) then (Escalate(s1, Warn), r1 + [RssiBelowMargin]) else (s1, r1)
  }

  function RawState(c: Settings, entry: Entry, now: real): (HealthState, seq<Reason>) {
    match entry
    case None => (NoData, [NoTelemetry])
    case Some((msg, t)) =>
      var age := now - t;
      if age > c.criticalFactor * c.staleS then (Critical, [LinkStatsStale])
      else if age > c.staleS then (Warn, [LinkStatsStale])
      else FreshState(c, msg)
  }

  /** The antenna in use receives less than the sensitivity floor of this mode and the margin above it, where the
      floor is known. The other antenna does not count. */
  predicate Faint(c: Settings, msg: LinkStatistics) {
    && (c.elrsMajor, msg.rfMode) in c.sensitivityFloors
    && var limit := c.sensitivityFloors[(c.elrsMajor, msg.rfMode)] + c.rssiMarginDb;
       || (msg.activeAntenna == 1 && msg.uplinkRssiAnt2 < limit)
       || (msg.activeAntenna != 1 && msg.uplinkRssiAnt1 < limit)
  }

  predicate Aged(c: Settings, t: real, now: real) {
    now - t > c.criticalFactor * c.staleS || now - t > c.staleS
  }

  /** The raw state, state by state. */
  lemma RawStateExactly(c: Settings, entry: Entry, now: real)
    ensures var state := RawState(c, entry, now).0;
            && (state == NoData <==> entry.None?)
            && (state == Critical <==>
                && entry.Some?
                && var (msg, t) := entry.value;
                   now - t > c.criticalFactor * c.staleS || (!Aged(c, t, now) && msg.uplinkLq < c.lqCritical))
            && (state == Warn <==>
                && entry.Some?
                && var (msg, t) := entry.value;
                   && now - t <= c.criticalFactor * c.staleS
                   && (now - t > c.staleS
                       || (msg.uplinkLq >= c.lqCritical
                           && (msg.uplinkLq < c.lqWarn || msg.downlinkLq < c.downlinkLqWarn || Faint(c, msg)))))
  {
  }

  /** Each reason is given exactly when it applies; below critical link quality nothing else is looked at. */
  lemma RawReasonsExactly(c: Settings, entry: Entry, now: real)
    ensures var reasons := RawState(c, entry, now).1;
            if entry.None? then reasons == [NoTelemetry]
            else
              var (msg, t) := entry.value;
              if Aged(c, t, now) then reasons == [LinkStatsStale]
              else if msg.uplinkLq < c.lqCritical then reasons == [LqBelowCritical]
              else
                && (LqBelowWarn in reasons <==> msg.uplinkLq < c.lqWarn)
                && (DownlinkDegrading in reasons <==> msg.downlinkLq < c.downlinkLqWarn)
                && (RssiBelowMargin in reasons <==> Faint(c, msg))
                && forall r | r in reasons :: r in {LqBelowWarn, DownlinkDegrading, RssiBelowMargin}
  {
  }

  /** From best to worst. */
  lemma SeverityOrder()
    ensures Severity(Ok) < Severity(Warn) < Severity(Critical) < Severity(NoData)
  {
  }

  /** Raw OK means: a frame exists, it is fresh, and every indicator clears its limit. */
  lemma RawOkExactly(c: Settings, entry: Entry, now: real)
    ensures RawState(c, entry, now).0 == Ok <==>
            && entry.Some?
            && now - entry.value.1 <= c.staleS
            && now - entry.value.1 <= c.criticalFactor * c.staleS
            && entry.value.0.uplinkLq >= c.lqCritical
            && entry.value.0.uplinkLq >= c.lqWarn
            && entry.value.0.downlinkLq >= c.downlinkLqWarn
            && !Faint(c, entry.value.0)
    ensures RawState(c, entry, now).0 == Ok <==> RawState(c, entry, now).1 == []
  {
  }

  function SeverityAt(c: Settings, msg: LinkStatistics, t: real, now: real): nat {
    Severity(RawState(c, Some((msg, t)), now).0)
  }

  /** There is an age at which staleness is only a warning, and the fresh frame is critical. */
  predicate Softens(c: Settings, msg: LinkStatistics) {
    0.0 <= c.staleS < c.criticalFactor * c.staleS && msg.uplinkLq < c.lqCritical
  }

  /** The severity of a frame by its age: too old, stale, fresh. */
  lemma SeverityByAge(c: Settings, msg: LinkStatistics, t: real, now: real)
    ensures SeverityAt(c, msg, t, now) ==
            if now - t > c.criticalFactor * c.staleS then 2
            else if now - t > c.staleS then 1
            else Severity(FreshState(c, msg).0)
    ensures Severity(FreshState(c, msg).0) <= 2
    ensures Severity(FreshState(c, msg).0) == 2 <==> msg.uplinkLq < c.lqCritical
  {
  }

  /** Ageing can lower the raw severity: a fresh frame with critical link quality is CRITICAL, the same frame
      once slightly stale is only WARN. */
  lemma AgeingCanSoften(c: Settings, msg: LinkStatistics, t: real)
    requires Softens(c, msg)
    ensures RawState(c, Some((msg, t)), t).0 == Critical
    ensures RawState(c, Some((msg, t)), t + c.criticalFactor * c.staleS).0 == Warn
  {
    assert t + c.criticalFactor * c.staleS - t == c.criticalFactor * c.staleS;
  }

  /** The raw severity of a frame never falls as it ages, unless link quality is critical and there is room
      between the two age limits. */
  lemma AgeingHardensExactly(c: Settings, msg: LinkStatistics, t: real)
    ensures (forall a, b | t <= a <= b :: SeverityAt(c, msg, t, a) <= SeverityAt(c, msg, t, b)) <==> !Softens(c, msg)
  {
    if Softens(c, msg) {
      AgeingCanSoften(c, msg, t);
      assert SeverityAt(c, msg, t, t) > SeverityAt(c, msg, t, t + c.criticalFactor * c.staleS);
    } else {
      forall a, b | t <= a <= b ensures SeverityAt(c, msg, t, a) <= SeverityAt(c, msg, t, b) {
        SeverityByAge(c, msg, t, a);
        SeverityByAge(c, msg, t, b);
      }
    }
  }

  // ----- Hysteresis -----

  /** The confirmed state, and the recovery candidate with the time it was first seen. */
  datatype Damper = Damper(state: HealthState, pending: Option<HealthState>, pendingSince: real)

  const Boot := Damper(NoData, None, 0.0)

  function Damped(d: Damper, hysteresisS: real, raw: HealthState, now: real): Damper {
    if raw == d.state then d.(pending := None)
    else if Severity(raw) > Severity(d.state) then d.(state := raw, pending := None)
    else if d.pending != Some(raw) then d.(pending := Some(raw), pendingSince := now)
    else if now - d.pendingSince >= hysteresisS then d.(state := raw, pending := None)
    else d
  }

  /** One evaluation: the raw state and when it was computed. */
  datatype Sample = Sample(raw: HealthState, now: real)

  function Damping(samples: seq<Sample>, hysteresisS: real): Damper {
    if samples == [] then Boot
    else
      var last := samples[|samples| - 1];
      Damped(Damping(samples[..|samples| - 1], hysteresisS), hysteresisS, last.raw, last.now)
  }

  ghost predicate Monotone(samples: seq<Sample>) {
    forall i, j | 0 <= i <= j < |samples| :: samples[i].now <= samples[j].now
  }

  /** Where the unbroken run of samples equal to `raw` at the end of `samples` starts. */
  function TrailStart(samples: seq<Sample>, raw: HealthState): (start: nat)
    ensures start <= |samples|
    ensures forall i | start <= i < |samples| :: samples[i].raw == raw
    ensures start == 0 || samples[start - 1].raw != raw
  {
    if samples == [] || samples[|samples| - 1].raw != raw then |samples|
    else
      var shorter := samples[..|samples| - 1];
      var start := TrailStart(shorter, raw);
      assert start == 0 || shorter[start - 1] == samples[start - 1];
      assert forall i | start <= i < |shorter| :: shorter[i] == samples[i];
      start
  }

  /** `raw` was seen at least twice in a row up to now, over at least the window. */
  ghost predicate Sustained(samples: seq<Sample>, raw: HealthState, hysteresisS: real) {
    var start := TrailStart(samples, raw);
    start + 2 <= |samples| && samples[|samples| - 1].now - samples[start].now >= hysteresisS
  }

  lemma TrailStep(samples: seq<Sample>, raw: HealthState)
    requires samples != []
    ensures samples[|samples| - 1].raw != raw ==> TrailStart(samples, raw) == |samples|
    ensures samples[|samples| - 1].raw == raw ==> TrailStart(samples, raw) == TrailStart(samples[..|samples| - 1], raw)
  {
  }

  /** The pending candidate is the trailing raw state, timed from where its run began. */
  lemma {:induction false} PendingTracksRun(samples: seq<Sample>, hysteresisS: real)
    ensures var d := Damping(samples, hysteresisS);
            d.pending.Some? ==>
              && samples != [] && samples[|samples| - 1].raw == d.pending.value
              && Severity(d.pending.value) < Severity(d.state)
              && TrailStart(samples, d.pending.value) < |samples|
              && d.pendingSince == samples[TrailStart(samples, d.pending.value)].now
  {
    if samples != [] {
      var init, last := samples[..|samples| - 1], samples[|samples| - 1];
      PendingTracksRun(init, hysteresisS);
      TrailStep(samples, last.raw);
    }
  }

  /** The confirmed state is never better than what was just seen. */
  lemma NeverBetterThanRaw(samples: seq<Sample>, hysteresisS: real)
    requires samples != []
    ensures Severity(Damping(samples, hysteresisS).state) >= Severity(samples[|samples| - 1].raw)
  {
    PendingTracksRun(samples[..|samples| - 1], hysteresisS);
  }

  /** The confirmed state changes only to the state just seen; for the better only
      after that state was sustained over the window. */
  lemma RecoveryIsSustained(samples: seq<Sample>, hysteresisS: real)
    requires samples != []
    ensures var before := Damping(samples[..|samples| - 1], hysteresisS).state;
            var after := Damping(samples, hysteresisS).state;
            && (after != before ==> after == samples[|samples| - 1].raw)
            && (Severity(after) < Severity(before) ==> Sustained(samples, after, hysteresisS))
  {
    var init, last := samples[..|samples| - 1], samples[|samples| - 1];
    PendingTracksRun(init, hysteresisS);
    TrailStep(samples, last.raw);
  }

  /** The monitor confirms OK exactly while raw OK is sustained. */
  lemma {:induction false} ConfirmedOkExactly(samples: seq<Sample>, hysteresisS: real)
    requires Monotone(samples)
    ensures Damping(samples, hysteresisS).state == Ok <==> Sustained(samples, Ok, hysteresisS)
  {
    if samples != [] {
      var init, last := samples[..|samples| - 1], samples[|samples| - 1];
      ConfirmedOkExactly(init, hysteresisS);
      PendingTracksRun(init, hysteresisS);
      TrailStep(samples, Ok);
      if last.raw == Ok && init != [] {
        var start := TrailStart(init, Ok);
        var d := Damping(init, hysteresisS);
        if start < |init| {
          assert init[|init| - 1].raw == Ok;
          assert init[|init| - 1].now <= last.now;
          if d.state != Ok {
            NeverIdle(init, hysteresisS);
          }
        }
      }
    }
  }

  /** After a raw state better than the confirmed one, that raw state is the candidate. */
  lemma NeverIdle(samples: seq<Sample>, hysteresisS: real)
    requires samples != []
    ensures var d := Damping(samples, hysteresisS);
            Severity(samples[|samples| - 1].raw) < Severity(d.state) ==> d.pending == Some(samples[|samples| - 1].raw)
  {
  }

  // ----- The monitor object -----

  datatype Monitor = Monitor(damper: Damper, lastReport: Option<Report>, alerts: seq<(Report, Option<Report>)>)

  function Evaluated(c: Settings, m: Monitor, entry: Entry, now: real): Monitor {
    var (raw, reasons) := RawState(c, entry, now);
    var d := Damped(m.damper, c.hysteresisS, raw, now);
    var report := Report(d.state, d.state == Ok, if d.state != raw then [HysteresisHold] else reasons, now);
    var changed := m.lastReport.None? || m.lastReport.value.state != d.state;
    Monitor(d, Some(report), if changed then m.alerts + [(report, m.lastReport)] else m.alerts)
  }

  datatype Telemetry = Statistics(stats: LinkStatistics) | Battery(volts: real) | FlightMode(name: string)

  datatype Kind = StatisticsKind | BatteryKind | FlightModeKind

  function KindOf(msg: Telemetry): Kind {
    match msg
    case Statistics(_) => StatisticsKind
    case Battery(_) => BatteryKind
    case FlightMode(_) => FlightModeKind
  }

  /** Latest value per message type. */
  class TelemetryStore {
    var latest: map<Kind, (Telemetry, real)>

    ghost predicate Valid()
      reads this
    {
      forall k | k in latest :: KindOf(latest[k].0) == k
    }

    function LatestStatistics(): Entry
      requires Valid()
      reads this
    {
      if StatisticsKind in latest then Some((latest[StatisticsKind].0.stats, latest[StatisticsKind].1)) else None
    }

    constructor ()
      ensures Valid() && latest == map[]
    {
      latest := map[];
    }

    method Update(msg: Telemetry, t: real)
      requires Valid()
      modifies this
      ensures Valid()
      ensures latest == old(latest)[KindOf(msg) := (msg, t)]
      ensures LatestStatistics() == if msg.Statistics? then Some((msg.stats, t)) else old(LatestStatistics())
    {
      latest := latest[KindOf(msg) := (msg, t)];
    }
  }

  class LinkHealthMonitor {
    const settings: Settings
    const store: TelemetryStore
    var state: HealthState
    var pending: Option<HealthState>
    var pendingSince: real
    var lastReport: Option<Report>
    var alerts: seq<(Report, Option<Report>)>

    function View(): Monitor
      reads this
    {
      Monitor(Damper(state, pending, pendingSince), lastReport, alerts)
    }

    constructor (settings: Settings, store: TelemetryStore)
      ensures View() == Monitor(Boot, None, []) && this.settings == settings && this.store == store
    {
      this.settings, this.store := settings, store;
      state, pending, pendingSince := NoData, None, 0.0;
      lastReport, alerts := None, [];
    }

    method ApplyHysteresis(raw: HealthState, now: real) returns (confirmed: HealthState)
      modifies this`state, this`pending, this`pendingSince
      ensures View().damper == Damped(old(View()).damper, settings.hysteresisS, raw, now)
      ensures confirmed == state
    {
      if raw == state {
        pending := None;
        return state;
      }
      if Severity(raw) > Severity(state) {
        state := raw;
        pending := None;
        return state;
      }
      if pending != Some(raw) {
        pending := Some(raw);
        pendingSince := now;
      } else if now - pendingSince >= settings.hysteresisS {
        state := raw;
        pending := None;
      }
      return state;
    }

    method Evaluate(now: real) returns (report: Report)
      requires store.Valid()
      modifies this
      ensures View() == Evaluated(settings, old(View()), old(store.LatestStatistics()), now)
      ensures lastReport == Some(report)
    {
      var (raw, reasons) := RawState(settings, store.LatestStatistics(), now);
      var confirmed := ApplyHysteresis(raw, now);
      if confirmed != raw {
        reasons := [HysteresisHold];
      }
      report := Report(confirmed, confirmed == Ok, reasons, now);
      if lastReport.None? || lastReport.value.state != confirmed {
        alerts := alerts + [(report, lastReport)];
      }
      lastReport := Some(report);
    }
  }

  // ----- Runs of the monitor -----

  /** One call of Evaluate: what the store held and the clock reading. */
  datatype Call = Call(entry: Entry, now: real)

  function Monitored(c: Settings, calls: seq<Call>): Monitor {
    if calls == [] then Monitor(Boot, None, [])
    else
      var last := calls[|calls| - 1];
      Evaluated(c, Monitored(c, calls[..|calls| - 1]), last.entry, last.now)
  }

  function Samples(c: Settings, calls: seq<Call>): seq<Sample> {
    seq(|calls|, i requires 0 <= i < |calls| => Sample(RawState(c, calls[i].entry, calls[i].now).0, calls[i].now))
  }

  /** The confirmed states, one per call. */
  function ConfirmedStates(c: Settings, calls: seq<Call>): seq<HealthState> {
    if calls == [] then []
    else ConfirmedStates(c, calls[..|calls| - 1]) + [Monitored(c, calls).damper.state]
  }

  /** `s` without immediate repeats. */
  function Squeeze(s: seq<HealthState>): (r: seq<HealthState>)
    ensures s != [] ==> r != [] && r[|r| - 1] == s[|s| - 1]
  {
    if s == [] then []
    else
      var shorter := Squeeze(s[..|s| - 1]);
      if |s| > 1 && s[|s| - 2] == s[|s| - 1] then shorter else shorter + [s[|s| - 1]]
  }

  function AlertStates(alerts: seq<(Report, Option<Report>)>): seq<HealthState> {
    seq(|alerts|, i requires 0 <= i < |alerts| => alerts[i].0.state)
  }

  /** The monitor's state is the damped sample sequence, and its last report says so. */
  lemma {:induction false} MonitoredIsDamping(c: Settings, calls: seq<Call>)
    ensures Monitored(c, calls).damper == Damping(Samples(c, calls), c.hysteresisS)
    ensures calls != [] ==>
              var m := Monitored(c, calls);
              && m.lastReport.Some?
              && m.lastReport.value.state == m.damper.state
              && m.lastReport.value.armPermitted == (m.damper.state == Ok)
              && m.lastReport.value.tMono == calls[|calls| - 1].now
              && (m.lastReport.value.reasons == [] <==> m.damper.state == Ok)
    ensures calls == [] ==> Monitored(c, calls).lastReport == None
  {
    if calls != [] {
      var init := calls[..|calls| - 1];
      MonitoredIsDamping(c, init);
      assert Samples(c, calls)[..|init|] == Samples(c, init);
      var last := calls[|calls| - 1];
      RawOkExactly(c, last.entry, last.now);
      NeverBetterThanRaw(Samples(c, calls), c.hysteresisS);
    }
  }

  /** The report of the last of these calls, said without the monitor. */
  function ReportOf(c: Settings, calls: seq<Call>): Report
    requires calls != []
  {
    var last, state := calls[|calls| - 1], Damping(Samples(c, calls), c.hysteresisS).state;
    var (raw, reasons) := RawState(c, last.entry, last.now);
    Report(state, state == Ok, if state == raw then reasons else [HysteresisHold], last.now)
  }

  /** The alerts of a run: each report whose state differs from the one before it, with that one. */
  function ExpectedAlerts(c: Settings, calls: seq<Call>): seq<(Report, Option<Report>)> {
    if calls == [] then []
    else
      var before := calls[..|calls| - 1];
      var previous := if before == [] then None else Some(ReportOf(c, before));
      ExpectedAlerts(c, before) +
      if previous.None? || previous.value.state != ReportOf(c, calls).state
      then [(ReportOf(c, calls), previous)] else []
  }

  /** The monitor reports the damped state with the reasons of the raw one, or that it is held back, and alerts with
      whole reports. */
  lemma {:induction false} ReportsExactly(c: Settings, calls: seq<Call>)
    ensures Monitored(c, calls).lastReport == if calls == [] then None else Some(ReportOf(c, calls))
    ensures Monitored(c, calls).alerts == ExpectedAlerts(c, calls)
  {
    if calls != [] {
      ReportsExactly(c, calls[..|calls| - 1]);
      MonitoredIsDamping(c, calls);
    }
  }

  lemma SqueezeAppend(s: seq<HealthState>, x: HealthState)
    ensures Squeeze(s + [x]) == if s != [] && s[|s| - 1] == x then Squeeze(s) else Squeeze(s) + [x]
  {
    assert (s + [x])[..|s|] == s;
  }

  lemma EvaluateAlerts(c: Settings, m: Monitor, entry: Entry, now: real)
    ensures var after := Evaluated(c, m, entry, now);
            AlertStates(after.alerts) ==
            if m.lastReport.Some? && m.lastReport.value.state == after.damper.state then AlertStates(m.alerts)
            else AlertStates(m.alerts) + [after.damper.state]
  {
  }

  /** Alerts fire exactly on changes: they spell the confirmed states without repeats. */
  lemma {:induction false} AlertsAreChanges(c: Settings, calls: seq<Call>)
    ensures AlertStates(Monitored(c, calls).alerts) == Squeeze(ConfirmedStates(c, calls))
    ensures calls != [] ==>
              var states := ConfirmedStates(c, calls);
              states != [] && states[|states| - 1] == Monitored(c, calls).damper.state
  {
    if calls != [] {
      var init, last := calls[..|calls| - 1], calls[|calls| - 1];
      AlertsAreChanges(c, init);
      MonitoredIsDamping(c, init);
      EvaluateAlerts(c, Monitored(c, init), last.entry, last.now);
      SqueezeAppend(ConfirmedStates(c, init), Monitored(c, calls).damper.state);
    }
  }

  /** Alert `i` names the state it replaced: the one alert `i - 1` announced. */
  ghost predicate Follows(alerts: seq<(Report, Option<Report>)>, i: nat)
    requires i < |alerts|
  {
    if i == 0 then alerts[i].1.None?
    else alerts[i].1.Some? && alerts[i].1.value.state == alerts[i - 1].0.state
  }

  lemma {:induction false} AlertsChain(c: Settings, calls: seq<Call>)
    ensures var m := Monitored(c, calls);
            && (m.lastReport.Some? <==> m.alerts != [])
            && (m.alerts != [] ==> m.alerts[|m.alerts| - 1].0.state == m.lastReport.value.state)
            && forall i | 0 <= i < |m.alerts| :: Follows(m.alerts, i)
  {
    if calls != [] {
      var init := calls[..|calls| - 1];
      AlertsChain(c, init);
      var before, after := Monitored(c, init), Monitored(c, calls);
      forall i | 0 <= i < |after.alerts|
        ensures Follows(after.alerts, i)
      {
        if i < |before.alerts| {
          assert Follows(before.alerts, i);
        }
      }
    }
  }
}
