/** The objects of the LANDING_TARGET publisher, each method shown to take the steps of the model. */
module LandingService {
  import opened Options
  import opened LandingTarget
  import opened LandingLaws
  import Tracks

  class HeartbeatMonitor {
    const maxAge: real
    var last: Option<real>

    constructor (maxAge: real)
      ensures this.maxAge == maxAge && last.None?
    {
      this.maxAge := maxAge;
      last := None;
    }

    method Beat(now: real)
      modifies this
      ensures last == Some(now)
    {
      last := Some(now);
    }

    predicate Report(now: real)
      reads this
    {
      last.Some? && now - last.value <= maxAge
    }
  }

  class LandingTargetBridge {
    const cfg: Settings
    const heartbeat: HeartbeatMonitor?
    var connected: bool
    var suppressed: map<Reason, nat>
    var suppressedCount: nat
    var lastFresh: Option<bool>

    ghost predicate Valid()
      reads this
    {
      && (heartbeat != null <==> cfg.gated)
      && (heartbeat != null ==> heartbeat.maxAge == cfg.timeout)
    }

    ghost function Model(): Bridge
      reads this, heartbeat
    {
      Bridge(if heartbeat == null then None else heartbeat.last, connected, suppressed, suppressedCount, lastFresh)
    }

    constructor (cfg: Settings)
      ensures Valid() && this.cfg == cfg && Model() == INITIAL.bridge
      ensures heartbeat != null ==> fresh(heartbeat)
    {
      this.cfg := cfg;
      if cfg.gated {
        var monitor := new HeartbeatMonitor(cfg.timeout);
        heartbeat := monitor;
      } else {
        heartbeat := null;
      }
      connected := false;
      suppressed := map[];
      suppressedCount := 0;
      lastFresh := None;
    }

    /** Opens the connection if there is none; an exception of the factory is reported. */
    method Start(opening: Opening) returns (raised: bool)
      modifies this`connected
      ensures connected == Connect(old(connected), opening)
      ensures raised <==> !old(connected) && opening.OpenError?
    {
      raised := false;
      if !connected {
        match opening
        case Opened => connected := true;
        case OpenedNothing =>
        case OpenError => raised := true;
      }
    }

    method PollHeartbeat(p: Poll) returns (consumed: bool)
      requires Valid()
      modifies this, heartbeat
      ensures Valid() && Model() == LandingTarget.PollHeartbeat(cfg, old(Model()), p)
      ensures consumed <==>
                && cfg.gated && (old(connected) || p.opening.Opened?)
                && p.received.Got? && FromAutopilot(cfg, p.received.message)
    {
      if heartbeat == null {
        return false;
      }
      consumed := false;
      var raised := Start(p.opening);
      if !raised && connected {
        if p.received.Got? && IsTarget(cfg, p.received.message) == Some(true) {
          heartbeat.Beat(p.beatAt);
          consumed := true;
        }
      }
      lastFresh := Some(heartbeat.Report(p.freshAt));
    }

    method NoteSuppressed(reason: Reason)
      requires Valid()
      modifies this`suppressed, this`suppressedCount
      ensures Valid() && Model() == LandingTarget.NoteSuppressed(old(Model()), reason)
    {
      var count := if reason in suppressed then suppressed[reason] else 0;
      suppressed := suppressed[reason := count + 1];
      suppressedCount := suppressedCount + 1;
    }

    /** The event says whether the message went out, was held back, or the call raised. */
    method Publish(a: Attempt) returns (e: Event)
      requires Valid()
      modifies this
      ensures Valid() && (Model(), e) == LandingTarget.Publish(cfg, old(Model()), a)
    {
      if !cfg.enabled {
        return Withheld(None);
      }
      if heartbeat != null && !heartbeat.Report(a.checkedAt) {
        NoteSuppressed(NoHeartbeat);
        return Withheld(Some(NoHeartbeat));
      }
      var raised := Start(a.opening);
      if raised || !connected {
        return Failed;
      }
      if cfg.localNed {
        var refused := SendLocalNed(a);
        if refused.Some? {
          return refused.value;
        }
      } else if a.sendRaises {
        return Failed;
      }
      suppressedCount := 0;
      return Sent(a.checkedAt, a.doneAt);
    }

    /** Nothing when the message went out; otherwise how the attempt ended. */
    method SendLocalNed(a: Attempt) returns (refused: Option<Event>)
      requires Valid()
      modifies this`suppressed, this`suppressedCount
      ensures Valid()
      ensures refused == match a.pose
                         case NoPose => Some(Withheld(Some(MissingPose)))
                         case PoseError => Some(Failed)
                         case Beyond => Some(Withheld(Some(Unprojectable)))
                         case Projected => if a.sendRaises then Some(Failed) else None
      ensures Model() == match refused
                         case Some(Withheld(Some(r))) => LandingTarget.NoteSuppressed(old(Model()), r)
                         case _ => old(Model())
    {
      match a.pose
      case NoPose =>
        NoteSuppressed(MissingPose);
        return Some(Withheld(Some(MissingPose)));
      case PoseError =>
        return Some(Failed);
      case Beyond =>
        NoteSuppressed(Unprojectable);
        return Some(Withheld(Some(Unprojectable)));
      case Projected =>
        return if a.sendRaises then Some(Failed) else None;
    }
  }

  class Pipeline {
    const cfg: Settings
    const bridge: LandingTargetBridge
    var published: nat
    var suppressed: nat
    var failures: nat
    var consecutive: nat
    var violations: nat
    var lastPublish: Option<real>
    var droppedDetections: nat
    var droppedStream: nat
    var tracksActive: nat
    var tracksTotal: nat
    var maxTrackId: Option<int>
    var droppedTracks: nat

    ghost predicate Valid()
      reads this, bridge
    {
      bridge.Valid() && bridge.cfg == cfg && cfg.minRate > 0.0
    }

    ghost function Model(): State
      reads this, bridge, bridge.heartbeat
    {
      State(bridge.Model(), published, suppressed, failures, consecutive, violations, lastPublish,
            droppedDetections, droppedStream,
            Tracks.State(tracksActive, tracksTotal, maxTrackId, droppedTracks))
    }

    constructor (cfg: Settings)
      requires cfg.minRate > 0.0
      ensures Valid() && this.cfg == cfg && Model() == INITIAL
    {
      this.cfg := cfg;
      bridge := new LandingTargetBridge(cfg);
      published, suppressed, failures, consecutive, violations := 0, 0, 0, 0, 0;
      lastPublish := None;
      droppedDetections, droppedStream := 0, 0;
      tracksActive, tracksTotal, maxTrackId, droppedTracks := 0, 0, None, 0;
    }

    method NotePublishCadence(now: real)
      requires Valid()
      modifies this`violations, this`lastPublish
      ensures lastPublish == Some(now)
      ensures violations == old(violations) + if TooSlow(cfg, old(lastPublish), now) then 1 else 0
    {
      if lastPublish.Some? && now - lastPublish.value > 1.0 / cfg.minRate {
        violations := violations + 1;
      }
      lastPublish := Some(now);
    }

    method PublishTarget(a: Attempt) returns (raised: bool)
      requires Valid()
      modifies this, bridge
      ensures Valid()
      ensures (Model(), if raised then Raised else Processed) == LandingTarget.PublishTarget(cfg, old(Model()), a)
    {
      var e := bridge.Publish(a);
      match e
      case Failed =>
        failures := failures + 1;
        consecutive := consecutive + 1;
        return consecutive > cfg.tolerance;
      case Withheld(_) =>
        suppressed := suppressed + 1;
        return false;
      case Sent(_, now) =>
        consecutive := 0;
        published := published + 1;
        NotePublishCadence(now);
        return false;
      case Beat(_, _) =>
        return false;
    }

    method UpdateTracks(u: Tracks.Update)
      requires Valid()
      modifies this`tracksActive, this`tracksTotal, this`maxTrackId, this`droppedTracks
      ensures Tracks.State(tracksActive, tracksTotal, maxTrackId, droppedTracks) ==
              Tracks.Apply(old(Tracks.State(tracksActive, tracksTotal, maxTrackId, droppedTracks)), u)
    {
      match u
      case Fault =>
        droppedTracks := droppedTracks + 1;
      case Ids(ids) =>
        tracksActive := |ids|;
        tracksTotal, maxTrackId := Tracks.Tally(tracksTotal, maxTrackId, ids);
    }

    method Step(f: Frame) returns (outcome: Outcome)
      requires Valid()
      modifies this, bridge, bridge.heartbeat
      ensures Valid() && (Model(), outcome) == LandingTarget.Step(cfg, old(Model()), f)
    {
      if f.NoFrame? {
        return Empty;
      }
      match f.detected
      case Malformed =>
        droppedDetections := droppedDetections + 1;
        return Processed;
      case DetectorFault =>
        return Raised;
      case Found(target) =>
        if cfg.tracking {
          UpdateTracks(f.tracked);
        }
        if f.streamRaises {
          droppedStream := droppedStream + 1;
        }
        assert Model() == Streamed(cfg, old(Model()), f);
        if cfg.bridged {
          var _ := bridge.PollHeartbeat(f.poll);
          assert Model() == Polled(cfg, Streamed(cfg, old(Model()), f), f);
          if target.Some? {
            var raised := PublishTarget(target.value);
            return if raised then Raised else Processed;
          }
        }
        return Processed;
    }

    method StepNext(ghost history: seq<Frame>, script: seq<Frame>, n: nat) returns (outcome: Outcome)
      requires Valid() && n < |script| && Model() == After(cfg, history + script[..n])
      modifies this, bridge, bridge.heartbeat
      ensures Valid() && Model() == After(cfg, history + script[..n + 1])
      ensures outcome.Raised? <==> Breaks(cfg, history + script[..n], script[n])
      ensures outcome.Empty? <==> script[n].NoFrame?
      ensures Reads(script[..n + 1]) == Reads(script[..n]) + (if script[n].Frame? then 1 else 0)
      ensures TrailingEmpties(script[..n + 1]) == if script[n].Frame? then 0 else TrailingEmpties(script[..n]) + 1
    {
      ScriptGrows(cfg, history, script, n);
      outcome := Step(script[n]);
    }

    /** Runs over the frames the camera delivers, from a state reached by the frames of history. */
    method Run(ghost history: seq<Frame>, script: seq<Frame>, limits: Limits) returns (processed: nat, end: End, n: nat)
      requires Valid() && Model() == After(cfg, history)
      modifies this, bridge, bridge.heartbeat
      ensures Valid() && n <= |script| && Model() == After(cfg, history + script[..n])
      ensures processed == Reads(script[..n]) - (if end.Broke? then 1 else 0)
      ensures forall k | 0 <= k < n :: !Halts(limits, script[..k])
      ensures match end
              case Halted => Halts(limits, script[..n])
              case Broke => n > 0 && Breaks(cfg, history + script[..n - 1], script[n - 1])
              case Running => n == |script| && !Halts(limits, script)
    {
      processed, n, end := 0, 0, Halted;
      var empties := 0;
      assert history + script[..0] == history;
      while limits.iterations.None? || processed < limits.iterations.value
        invariant n <= |script| && Valid() && Model() == After(cfg, history + script[..n])
        invariant processed == Reads(script[..n]) && empties == TrailingEmpties(script[..n])
        invariant forall k | 0 <= k < n :: !Halts(limits, script[..k])
        invariant empties > 0 && limits.empties.Some? ==> empties < limits.empties.value
        invariant end.Halted?
        decreases |script| - n
      {
        if limits.stopAt.Some? && n >= limits.stopAt.value {
          break;
        }
        if n == |script| {
          assert script[..n] == script;
          end := Running;
          break;
        }
        assert !Halts(limits, script[..n]);
        var outcome := StepNext(history, script, n);
        n := n + 1;
        if outcome.Raised? {
          end := Broke;
          break;
        }
        if outcome.Processed? {
          processed := processed + 1;
          empties := 0;
          continue;
        }
        empties := empties + 1;
        if limits.empties.Some? && empties >= limits.empties.value {
          break;
        }
      }
    }
  }

  lemma ScriptGrows(cfg: Settings, history: seq<Frame>, script: seq<Frame>, n: nat)
    requires cfg.minRate > 0.0 && n < |script|
    ensures After(cfg, history + script[..n + 1]) ==
            LandingTarget.Step(cfg, After(cfg, history + script[..n]), script[n]).0
    ensures Reads(script[..n + 1]) == Reads(script[..n]) + (if script[n].Frame? then 1 else 0)
    ensures TrailingEmpties(script[..n + 1]) == if script[n].Frame? then 0 else TrailingEmpties(script[..n]) + 1
  {
    assert script[..n + 1][..n] == script[..n];
    assert (history + script[..n + 1])[..|history| + n] == history + script[..n];
  }

  /** When run gives up: after so many frames, after so many empty reads in a row, or once asked to stop. */
  datatype Limits = Limits(iterations: Option<nat>, empties: Option<nat>, stopAt: Option<nat>)

  /** Running stands for a loop that would go on had the camera been observed longer. */
  datatype End = Halted | Broke | Running

  function Reads(frames: seq<Frame>): nat {
    if frames == [] then 0 else Reads(frames[..|frames| - 1]) + (if frames[|frames| - 1].Frame? then 1 else 0)
  }

  function TrailingEmpties(frames: seq<Frame>): nat {
    if frames == [] || frames[|frames| - 1].Frame? then 0 else TrailingEmpties(frames[..|frames| - 1]) + 1
  }

  ghost predicate Breaks(cfg: Settings, before: seq<Frame>, f: Frame)
    requires cfg.minRate > 0.0
  {
    LandingTarget.Step(cfg, After(cfg, before), f).1.Raised?
  }

  predicate Halts(limits: Limits, frames: seq<Frame>) {
    || (limits.iterations.Some? && Reads(frames) >= limits.iterations.value)
    || (limits.stopAt.Some? && |frames| >= limits.stopAt.value)
    || (limits.empties.Some? && TrailingEmpties(frames) > 0 && TrailingEmpties(frames) >= limits.empties.value)
  }
}
