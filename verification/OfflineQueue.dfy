/** Inference with an offline queue: tasks of one event loop that interleave at every await. */
module OfflineQueue {
  import opened Options

  /** A queued envelope and its place in the order of enqueueing. */
  datatype Item = Item(envelope: int, stamp: nat)

  /** Limits of zero mean: no queue, and no bound on pending tasks. */
  datatype Config = Config(maxQueue: nat, maxTasks: nat, ownUid: string, prefix: string)

  datatype Message = Message(id: int, source: string, isChat: bool, text: string)

  /** How one gated analysis ends: with or without a summary, or with an error worth retrying, not
      worth retrying, or not foreseen. */
  datatype Outcome = Insight | Silent | Retryable | Permanent | Unexpected

  /** Where a task is suspended; a finished task stays listed until its callback has run. */
  datatype Stage = Analyzing(envelope: int) | Publishing | Locking | Replaying | Republishing | Finished

  /** lost counts replays that ended in an unforeseen error; settled lists the items that left through a replay. */
  datatype State = State(
    queue: seq<Item>, enqueued: nat, dropped: nat, replay: Option<Item>, drainer: Option<nat>,
    tasks: map<nat, Stage>, spawned: nat, shed: nat, resolved: nat, lost: nat, settled: seq<Item>)

  const INITIAL := State([], 0, 0, None, None, map[], 0, 0, 0, 0, [])

  datatype Event =
    | Handled(message: Message)
    | Analyzed(task: nat, outcome: Outcome)
    | Published(task: nat, raised: bool)
    | Locked(task: nat)
    | Replayed(task: nat, outcome: Outcome)
    | Republished(task: nat, raised: bool)
    | Discarded(task: nat)

  // ---------- the queue ----------

  /** A bounded deque drops at the end opposite to the insertion. */
  function PutBack(queue: seq<Item>, max: nat, x: Item): seq<Item>
    requires max > 0
  {
    if |queue| < max then queue + [x] else queue[1..] + [x]
  }

  function PutFront(queue: seq<Item>, max: nat, x: Item): seq<Item>
    requires max > 0
  {
    if |queue| < max then [x] + queue else [x] + queue[..|queue| - 1]
  }

  function Overflow(queue: seq<Item>, max: nat): nat { if |queue| < max then 0 else 1 }

  // ---------- the steps between awaits ----------

  predicate Ignores(cfg: Config, m: Message) {
    m.source == cfg.ownUid || (m.isChat && cfg.prefix <= m.text)
  }

  function Handle(cfg: Config, s: State, m: Message): State {
    if Ignores(cfg, m) then s
    else if cfg.maxTasks > 0 && |s.tasks| >= cfg.maxTasks then s.(shed := s.shed + 1)
    else s.(tasks := s.tasks[s.spawned := Analyzing(m.id)], spawned := s.spawned + 1)
  }

  function At(s: State, t: nat, stage: Stage): State { s.(tasks := s.tasks[t := stage]) }

  function Enqueue(cfg: Config, s: State, envelope: int): State
    requires cfg.maxQueue > 0
  {
    s.(queue := PutBack(s.queue, cfg.maxQueue, Item(envelope, s.enqueued)), enqueued := s.enqueued + 1,
       dropped := s.dropped + Overflow(s.queue, cfg.maxQueue))
  }

  function FinishAnalysis(cfg: Config, s: State, t: nat, envelope: int, outcome: Outcome): State {
    match outcome
    case Insight => At(s, t, Publishing)
    case Silent => At(s, t, Finished)
    case Retryable => At(if cfg.maxQueue > 0 then Enqueue(cfg, s, envelope) else s, t, Finished)
    case Permanent => At(s, t, Finished)
    case Unexpected => At(s, t, Finished)
  }

  /** The head of the drain loop: replay the oldest item, or let go of the lock. */
  function NextReplay(s: State, t: nat): State {
    if s.queue == [] then At(s, t, Finished).(drainer := None)
    else At(s, t, Replaying).(replay := Some(s.queue[0]), queue := s.queue[1..])
  }

  function Settle(s: State, item: Item): State { s.(replay := None, settled := s.settled + [item]) }

  function Resolve(s: State, item: Item): State { Settle(s, item).(resolved := s.resolved + 1) }

  function Refuse(s: State, item: Item): State { Settle(s, item).(dropped := s.dropped + 1) }

  function Lose(s: State, item: Item): State { Settle(s, item).(lost := s.lost + 1, drainer := None) }

  function FinishReplay(cfg: Config, s: State, t: nat, item: Item, outcome: Outcome): State
    requires cfg.maxQueue > 0
  {
    match outcome
    case Insight => At(s, t, Republishing)
    case Silent => NextReplay(Resolve(s, item), t)
    case Retryable =>
      At(s, t, Finished).(queue := PutFront(s.queue, cfg.maxQueue, item), replay := None, drainer := None,
                          dropped := s.dropped + Overflow(s.queue, cfg.maxQueue))
    case Permanent => NextReplay(Refuse(s, item), t)
    case Unexpected => At(Lose(s, item), t, Finished)
  }

  predicate Enabled(cfg: Config, s: State, e: Event) {
    match e
    case Handled(_) => true
    case Analyzed(t, _) => t in s.tasks && s.tasks[t].Analyzing?
    case Published(t, _) => t in s.tasks && s.tasks[t].Publishing?
    case Locked(t) => t in s.tasks && s.tasks[t].Locking? && s.drainer.None?
    case Replayed(t, _) => t in s.tasks && s.tasks[t].Replaying? && s.replay.Some? && cfg.maxQueue > 0
    case Republished(t, _) => t in s.tasks && s.tasks[t].Republishing? && s.replay.Some?
    case Discarded(t) => t in s.tasks && s.tasks[t].Finished?
  }

  function Step(cfg: Config, s: State, e: Event): State
    requires Enabled(cfg, s, e)
  {
    match e
    case Handled(m) => Handle(cfg, s, m)
    case Analyzed(t, outcome) => FinishAnalysis(cfg, s, t, s.tasks[t].envelope, outcome)
    case Published(t, raised) => At(s, t, if raised || s.queue == [] then Finished else Locking)
    case Locked(t) => NextReplay(s.(drainer := Some(t)), t)
    case Replayed(t, outcome) => FinishReplay(cfg, s, t, s.replay.value, outcome)
    case Republished(t, raised) =>
      if raised then At(Lose(s, s.replay.value), t, Finished)
      else NextReplay(Resolve(s, s.replay.value), t)
    case Discarded(t) => s.(tasks := s.tasks - {t})
  }

  /** The states of a run: each follows from the one before it by an enabled step. */
  ghost predicate IsRun(cfg: Config, events: seq<Event>, states: seq<State>) {
    && |states| == |events| + 1 && states[0] == INITIAL
    && forall i | 0 <= i < |events| ::
         Enabled(cfg, states[i], events[i]) && states[i + 1] == Step(cfg, states[i], events[i])
  }
}
