/** The LANDING_TARGET publisher: a fail-closed heartbeat gate, and a failure policy around it. */
module LandingTarget {
  import opened Options
  import Tracks

  /** tracking and bridged say which parts are wired in; minRate is the cadence floor in messages a second. */
  datatype Settings = Settings(
    tracking: bool, bridged: bool, enabled: bool, gated: bool, timeout: real, system: int, component: int,
    localNed: bool, tolerance: nat, minRate: real)

  // ---------- what the outside world answers ----------

  /** A heartbeat message; an accessor that raises answers nothing. */
  datatype Message = Message(system: Option<int>, component: Option<int>)
  datatype Received = NoMessage | ReadError | Got(message: Message)
  /** What the connection factory does if it is called. */
  datatype Opening = Opened | OpenedNothing | OpenError
  datatype Poll = Poll(opening: Opening, received: Received, beatAt: real, freshAt: real)
  datatype Pose = NoPose | PoseError | Beyond | Projected
  datatype Attempt = Attempt(checkedAt: real, opening: Opening, pose: Pose, sendRaises: bool, doneAt: real)
  datatype Detected = Malformed | DetectorFault | Found(target: Option<Attempt>)
  datatype Frame = NoFrame | Frame(detected: Detected, tracked: Tracks.Update, streamRaises: bool, poll: Poll)

  // ---------- the bridge ----------

  datatype Reason = NoHeartbeat | MissingPose | Unprojectable

  datatype Bridge = Bridge(last: Option<real>, connected: bool, counts: map<Reason, nat>, streak: nat,
                           lastFresh: Option<bool>)

  datatype Event =
    | Beat(at: real, message: Message)
    | Sent(checkedAt: real, doneAt: real)
    | Withheld(reason: Option<Reason>)
    | Failed

  function IsFresh(timeout: real, last: Option<real>, now: real): bool {
    last.Some? && now - last.value <= timeout
  }

  /** Whether a message is the configured autopilot's, zero being a wildcard; nothing when an accessor raises. */
  function IsTarget(cfg: Settings, m: Message): Option<bool> {
    if cfg.system != 0 && m.system.None? then None
    else if cfg.system != 0 && m.system.value != cfg.system then Some(false)
    else if cfg.component != 0 && m.component.None? then None
    else Some(cfg.component == 0 || m.component.value == cfg.component)
  }

  /** The connection after an attempt to open it when it is not there. */
  function Connect(connected: bool, opening: Opening): bool { connected || opening.Opened? }

  predicate Drains(cfg: Settings, b: Bridge, p: Poll) {
    && cfg.gated && Connect(b.connected, p.opening)
    && p.received.Got? && IsTarget(cfg, p.received.message) == Some(true)
  }

  function PollHeartbeat(cfg: Settings, b: Bridge, p: Poll): Bridge {
    if !cfg.gated then b
    else
      var last := if Drains(cfg, b, p) then Some(p.beatAt) else b.last;
      b.(last := last, connected := Connect(b.connected, p.opening),
         lastFresh := Some(IsFresh(cfg.timeout, last, p.freshAt)))
  }

  function PollEvents(cfg: Settings, b: Bridge, p: Poll): seq<Event> {
    if Drains(cfg, b, p) then [Beat(p.beatAt, p.received.message)] else []
  }

  function CountOf(counts: map<Reason, nat>, r: Reason): nat { if r in counts then counts[r] else 0 }

  function NoteSuppressed(b: Bridge, r: Reason): Bridge {
    b.(counts := b.counts[r := CountOf(b.counts, r) + 1], streak := b.streak + 1)
  }

  function Publish(cfg: Settings, b: Bridge, a: Attempt): (Bridge, Event) {
    if !cfg.enabled then (b, Withheld(None))
    else if cfg.gated && !IsFresh(cfg.timeout, b.last, a.checkedAt) then
      (NoteSuppressed(b, NoHeartbeat), Withheld(Some(NoHeartbeat)))
    else
      var open := b.(connected := Connect(b.connected, a.opening));
      if !open.connected then (open, Failed)
      else if cfg.localNed && a.pose.NoPose? then (NoteSuppressed(open, MissingPose), Withheld(Some(MissingPose)))
      else if cfg.localNed && a.pose.PoseError? then (open, Failed)
      else if cfg.localNed && a.pose.Beyond? then (NoteSuppressed(open, Unprojectable), Withheld(Some(Unprojectable)))
      else if a.sendRaises then (open, Failed)
      else (open.(streak := 0), Sent(a.checkedAt, a.doneAt))
  }

  // ---------- the pipeline ----------

  datatype State = State(bridge: Bridge, published: nat, suppressed: nat, failures: nat, consecutive: nat,
                         violations: nat, lastPublish: Option<real>, droppedDetections: nat, droppedStream: nat,
                         tracks: Tracks.State)

  datatype Outcome = Empty | Processed | Raised

  const INITIAL := State(Bridge(None, false, map[], 0, None), 0, 0, 0, 0, 0, None, 0, 0,
                         Tracks.INITIAL)

  function TooSlow(cfg: Settings, since: Option<real>, now: real): bool
    requires cfg.minRate > 0.0
  {
    since.Some? && now - since.value > 1.0 / cfg.minRate
  }

  /** The counters after one publish attempt that ended in e. */
  function Account(cfg: Settings, s: State, e: Event): State
    requires cfg.minRate > 0.0
  {
    match e
    case Sent(_, now) =>
      s.(consecutive := 0, published := s.published + 1,
         violations := s.violations + (if TooSlow(cfg, s.lastPublish, now) then 1 else 0),
         lastPublish := Some(now))
    case Withheld(_) => s.(suppressed := s.suppressed + 1)
    case Failed => s.(failures := s.failures + 1, consecutive := s.consecutive + 1)
    case Beat(_, _) => s
  }

  function PublishTarget(cfg: Settings, s: State, a: Attempt): (State, Outcome)
    requires cfg.minRate > 0.0
  {
    var (b, e) := Publish(cfg, s.bridge, a);
    var t := Account(cfg, s.(bridge := b), e);
    (t, if e.Failed? && t.consecutive > cfg.tolerance then Raised else Processed)
  }

  /** Tracking and the video stream come first and can only count their own faults. */
  function Streamed(cfg: Settings, s: State, f: Frame): State
    requires f.Frame?
  {
    s.(tracks := if cfg.tracking then Tracks.Apply(s.tracks, f.tracked) else s.tracks,
       droppedStream := s.droppedStream + (if f.streamRaises then 1 else 0))
  }

  function Polled(cfg: Settings, s: State, f: Frame): State
    requires f.Frame?
  {
    s.(bridge := PollHeartbeat(cfg, s.bridge, f.poll))
  }

  function Step(cfg: Settings, s: State, f: Frame): (State, Outcome)
    requires cfg.minRate > 0.0
  {
    if f.NoFrame? then (s, Empty)
    else if f.detected.Malformed? then (s.(droppedDetections := s.droppedDetections + 1), Processed)
    else if f.detected.DetectorFault? then (s, Raised)
    else
      var streamed := Streamed(cfg, s, f);
      if !cfg.bridged then (streamed, Processed)
      else if f.detected.target.None? then (Polled(cfg, streamed, f), Processed)
      else PublishTarget(cfg, Polled(cfg, streamed, f), f.detected.target.value)
  }

  predicate Reaches(cfg: Settings, f: Frame) { cfg.bridged && f.Frame? && f.detected.Found? }

  predicate Attempts(cfg: Settings, f: Frame) { Reaches(cfg, f) && f.detected.target.Some? }

  function StepEvents(cfg: Settings, s: State, f: Frame): seq<Event> {
    if !Reaches(cfg, f) then []
    else
      PollEvents(cfg, s.bridge, f.poll) +
      if Attempts(cfg, f) then [Publish(cfg, Polled(cfg, s, f).bridge, f.detected.target.value).1] else []
  }

  function After(cfg: Settings, frames: seq<Frame>): State
    requires cfg.minRate > 0.0
  {
    if frames == [] then INITIAL else Step(cfg, After(cfg, frames[..|frames| - 1]), frames[|frames| - 1]).0
  }

  function Trace(cfg: Settings, frames: seq<Frame>): seq<Event>
    requires cfg.minRate > 0.0
  {
    if frames == [] then []
    else
      var before := frames[..|frames| - 1];
      Trace(cfg, before) + StepEvents(cfg, After(cfg, before), frames[|frames| - 1])
  }
}
