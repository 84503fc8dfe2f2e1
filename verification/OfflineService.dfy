/** The code of the inference service between its awaits, and its drain loop across them. */
module OfflineService {
  import opened Options
  import opened OfflineQueue
  import opened OfflineLaws

  /** A deque with a bound: inserting into a full one drops an item at the other end. */
  class BoundedQueue {
    const max: nat
    var items: seq<Item>
    var dropped: nat

    constructor (max: nat)
      ensures this.max == max && items == [] && dropped == 0
    {
      this.max := max;
      items, dropped := [], 0;
    }

    method Put(x: Item, front: bool)
      requires 0 < max && |items| <= max
      modifies this
      ensures items == if front then PutFront(old(items), max, x) else PutBack(old(items), max, x)
      ensures dropped == old(dropped) + Overflow(old(items), max)
      ensures |old(items)| < max ==>
                items == (if front then [x] + old(items) else old(items) + [x]) && dropped == old(dropped)
      ensures |old(items)| == max ==>
                && items == (if front then [x] + old(items)[..max - 1] else old(items)[1..] + [x])
                && dropped == old(dropped) + 1
    {
      if |items| == max {
        dropped := dropped + 1;
      }
      if front {
        items := [x] + items;
        if |items| > max {
          items := items[..max];
        }
      } else {
        items := items + [x];
        if |items| > max {
          items := items[|items| - max..];
        }
      }
    }

    method Pop() returns (x: Item)
      requires items != []
      modifies this`items
      ensures old(items) == [x] + items
    {
      x := items[0];
      items := items[1..];
    }

    method RecordDrop()
      modifies this`dropped
      ensures dropped == old(dropped) + 1
    {
      dropped := dropped + 1;
    }
  }

  ghost predicate Reachable(cfg: Config, s: State) {
    exists events, states :: IsRun(cfg, events, states) && states[|events|] == s
  }

  lemma StepReachable(cfg: Config, s: State, e: Event)
    requires Reachable(cfg, s) && Enabled(cfg, s, e)
    ensures Reachable(cfg, Step(cfg, s, e))
  {
    var events, states :| IsRun(cfg, events, states) && states[|events|] == s;
    var longer := states + [Step(cfg, s, e)];
    assert IsRun(cfg, events + [e], longer) && longer[|events + [e]|] == Step(cfg, s, e);
  }

  lemma ReachableIsSound(cfg: Config, s: State)
    requires Reachable(cfg, s)
    ensures Sound(cfg, s)
  {
    var events, states :| IsRun(cfg, events, states) && states[|events|] == s;
    RunsAreSound(cfg, events, states, |events|);
  }

  /** A step of another task leaves mine where it was, and cannot take the drain lock from me. */
  predicate Mine(e: Event, t: nat) { !e.Handled? && e.task == t }

  lemma OthersReplayKeepsMe(cfg: Config, s: State, other: nat, outcome: Outcome, t: nat)
    requires Enabled(cfg, s, Replayed(other, outcome)) && OneDrainer(cfg, s) && other != t && t in s.tasks
    ensures var u := FinishReplay(cfg, s, other, s.replay.value, outcome);
            t in u.tasks && u.tasks[t] == s.tasks[t] && s.drainer != Some(t)
  {
  }

  lemma OthersKeepMe(cfg: Config, s: State, e: Event, t: nat)
    requires Enabled(cfg, s, e) && OneDrainer(cfg, s) && !Mine(e, t) && t in s.tasks
    ensures var u := Step(cfg, s, e);
            && t in u.tasks && u.tasks[t] == s.tasks[t]
            && (s.drainer == Some(t) ==> u.drainer == Some(t) && u.replay == s.replay && u.settled == s.settled)
  {
    if e.Replayed? {
      OthersReplayKeepsMe(cfg, s, e.task, e.outcome, t);
    }
  }

  /** How a replay ends, and, if there is a summary, whether publishing it raises. */
  datatype Answer = Answer(outcome: Outcome, publishRaises: bool)

  predicate Stops(a: Answer) {
    a.outcome.Retryable? || a.outcome.Unexpected? || (a.outcome.Insight? && a.publishRaises)
  }

  class InferenceService {
    const cfg: Config
    const offline: BoundedQueue
    var lock: Option<nat>
    var tasks: map<nat, Stage>
    var spawned: nat
    var intakeDropped: nat
    var enqueued: nat
    var pending: Option<Item>
    ghost var resolved: nat
    ghost var lost: nat
    ghost var settled: seq<Item>

    ghost function Model(): State
      reads this, offline
    {
      State(offline.items, enqueued, offline.dropped, pending, lock, tasks, spawned, intakeDropped,
            resolved, lost, settled)
    }

    ghost predicate Valid()
      reads this, offline
    {
      offline.max == cfg.maxQueue && Reachable(cfg, Model())
    }

    constructor (cfg: Config)
      ensures Valid() && this.cfg == cfg && Model() == INITIAL && fresh(offline)
    {
      this.cfg := cfg;
      offline := new BoundedQueue(cfg.maxQueue);
      lock, tasks, spawned, intakeDropped, enqueued, pending := None, map[], 0, 0, 0, None;
      resolved, lost, settled := 0, 0, [];
      new;
      assert IsRun(cfg, [], [INITIAL]) && [INITIAL][0] == Model();
    }

    method HandleMessage(m: Message)
      requires Valid()
      modifies this
      ensures Valid() && Model() == Step(cfg, old(Model()), Handled(m))
    {
      StepReachable(cfg, Model(), Handled(m));
      if m.source == cfg.ownUid {
        return;
      }
      if m.isChat && cfg.prefix <= m.text {
        return;
      }
      if cfg.maxTasks > 0 && |tasks| >= cfg.maxTasks {
        intakeDropped := intakeDropped + 1;
        return;
      }
      tasks := tasks[spawned := Analyzing(m.id)];
      spawned := spawned + 1;
    }

    /** What a live task does once its analysis has ended. */
    method FinishAnalysis(t: nat, outcome: Outcome)
      requires Valid() && t in tasks && tasks[t].Analyzing?
      modifies this, offline
      ensures Valid() && Model() == Step(cfg, old(Model()), Analyzed(t, outcome))
    {
      StepReachable(cfg, Model(), Analyzed(t, outcome));
      ReachableIsSound(cfg, Model());
      var envelope := tasks[t].envelope;
      if outcome.Insight? {
        tasks := tasks[t := Publishing];
        return;
      }
      if outcome.Retryable? && offline.max > 0 {
        offline.Put(Item(envelope, enqueued), false);
        enqueued := enqueued + 1;
      }
      tasks := tasks[t := Finished];
    }

    /** After the reply is out: go for the drain lock if something is queued. */
    method FinishPublish(t: nat, raised: bool)
      requires Valid() && t in tasks && tasks[t].Publishing?
      modifies this, offline
      ensures Valid() && Model() == Step(cfg, old(Model()), Published(t, raised))
      ensures !raised && old(offline.items) != [] ==> tasks[t].Locking?
    {
      StepReachable(cfg, Model(), Published(t, raised));
      tasks := tasks[t := if raised || |offline.items| == 0 then Finished else Locking];
    }

    /** The test and the pop at the head of the drain loop. */
    method TakeNext(t: nat)
      requires pending.None?
      modifies this, offline
      ensures Model() == NextReplay(old(Model()), t)
    {
      if |offline.items| > 0 {
        var x := offline.Pop();
        pending := Some(x);
        tasks := tasks[t := Replaying];
      } else {
        lock := None;
        tasks := tasks[t := Finished];
      }
    }

    method Acquire(t: nat)
      requires Valid() && t in tasks && tasks[t].Locking? && lock.None?
      modifies this, offline
      ensures Valid() && Model() == Step(cfg, old(Model()), Locked(t))
    {
      StepReachable(cfg, Model(), Locked(t));
      ReachableIsSound(cfg, Model());
      lock := Some(t);
      TakeNext(t);
    }

    method FinishReplay(t: nat, outcome: Outcome)
      requires Valid() && t in tasks && tasks[t].Replaying?
      modifies this, offline
      ensures Valid() && Enabled(cfg, old(Model()), Replayed(t, outcome))
      ensures Model() == Step(cfg, old(Model()), Replayed(t, outcome))
    {
      ReachableIsSound(cfg, Model());
      StepReachable(cfg, Model(), Replayed(t, outcome));
      var item := pending.value;
      match outcome
      case Insight =>
        tasks := tasks[t := Republishing];
      case Silent =>
        pending, resolved, settled := None, resolved + 1, settled + [item];
        TakeNext(t);
      case Retryable =>
        offline.Put(item, true);
        pending, lock := None, None;
        tasks := tasks[t := Finished];
      case Permanent =>
        offline.RecordDrop();
        pending, settled := None, settled + [item];
        TakeNext(t);
      case Unexpected =>
        pending, lock, lost, settled := None, None, lost + 1, settled + [item];
        tasks := tasks[t := Finished];
    }

    method FinishRepublish(t: nat, raised: bool)
      requires Valid() && t in tasks && tasks[t].Republishing?
      modifies this, offline
      ensures Valid() && Enabled(cfg, old(Model()), Republished(t, raised))
      ensures Model() == Step(cfg, old(Model()), Republished(t, raised))
    {
      ReachableIsSound(cfg, Model());
      StepReachable(cfg, Model(), Republished(t, raised));
      settled := settled + [pending.value];
      if raised {
        pending, lock, lost := None, None, lost + 1;
        tasks := tasks[t := Finished];
      } else {
        pending, resolved := None, resolved + 1;
        TakeNext(t);
      }
    }

    /** The callback that forgets a finished task. */
    method Discard(t: nat)
      requires Valid() && t in tasks && tasks[t].Finished?
      modifies this
      ensures Valid() && Model() == Step(cfg, old(Model()), Discarded(t))
    {
      StepReachable(cfg, Model(), Discarded(t));
      tasks := tasks - {t};
    }

    method Perform(e: Event)
      requires Valid() && Enabled(cfg, Model(), e)
      modifies this, offline
      ensures Valid() && Model() == Step(cfg, old(Model()), e)
    {
      match e
      case Handled(m) => HandleMessage(m);
      case Analyzed(t, outcome) => FinishAnalysis(t, outcome);
      case Published(t, raised) => FinishPublish(t, raised);
      case Locked(t) => Acquire(t);
      case Replayed(t, outcome) => FinishReplay(t, outcome);
      case Republished(t, raised) => FinishRepublish(t, raised);
      case Discarded(t) => Discard(t);
    }

    /** While t is suspended, every other task may run any number of times. */
    method Await(t: nat)
      requires Valid() && t in tasks
      modifies this, offline
      ensures Valid() && t in tasks && tasks[t] == old(tasks[t])
      ensures old(lock) == Some(t) ==> lock == Some(t) && pending == old(pending) && settled == old(settled)
    {
      var turns: int := *;
      turns := if turns < 0 then 0 else turns;
      for i := 0 to turns
        invariant Valid() && t in tasks && tasks[t] == old(tasks[t])
        invariant old(lock) == Some(t) ==> lock == Some(t) && pending == old(pending) && settled == old(settled)
      {
        var e: Event := *;
        if !Mine(e, t) && Enabled(cfg, Snapshot(), e) {
          ReachableIsSound(cfg, Model());
          OthersKeepMe(cfg, Model(), e, t);
          Perform(e);
        }
      }
    }

    function Snapshot(): State
      reads this, offline
    {
      State(offline.items, enqueued, offline.dropped, pending, lock, tasks, spawned, intakeDropped, 0, 0, [])
    }

    /** The drainer's place: in its loop with the lock, or done, having emptied the queue unless stopped. */
    ghost predicate Draining(t: nat, stopped: bool)
      reads this, offline
    {
      t in tasks &&
      if tasks[t].Finished? then lock.None? && (!stopped ==> offline.items == [])
      else tasks[t].Replaying? && lock == Some(t)
    }

    method EndReplay(t: nat, outcome: Outcome)
      requires Valid() && t in tasks && tasks[t].Replaying? && lock == Some(t)
      modifies this, offline
      ensures Valid() && t in tasks
      ensures if outcome.Insight? then tasks[t].Republishing? && lock == Some(t) && settled == old(settled)
              else Draining(t, outcome.Retryable? || outcome.Unexpected?)
                   && (outcome.Retryable? || outcome.Unexpected? ==> tasks[t].Finished?)
                   && (tasks[t].Replaying? ==> |settled| == |old(settled)| + 1)
    {
      FinishReplay(t, outcome);
    }

    method EndRepublish(t: nat, raised: bool)
      requires Valid() && t in tasks && tasks[t].Republishing? && lock == Some(t)
      modifies this, offline
      ensures Valid() && Draining(t, raised) && (raised ==> tasks[t].Finished?)
      ensures tasks[t].Replaying? ==> |settled| == |old(settled)| + 1
    {
      FinishRepublish(t, raised);
    }

    method Begin(t: nat)
      requires Valid() && t in tasks && tasks[t].Locking? && lock.None?
      modifies this, offline
      ensures Valid() && Draining(t, false) && settled == old(settled)
    {
      Acquire(t);
    }

    /** One turn of the drain loop: a replay, and the publishing of its summary. */
    method ReplayOne(t: nat, answer: Answer)
      requires Valid() && t in tasks && tasks[t].Replaying? && lock == Some(t)
      modifies this, offline
      ensures Valid() && Draining(t, Stops(answer)) && (Stops(answer) ==> tasks[t].Finished?)
      ensures tasks[t].Replaying? ==> |settled| == |old(settled)| + 1
    {
      Await(t);
      EndReplay(t, answer.outcome);
      if tasks[t].Republishing? {
        Await(t);
        EndRepublish(t, answer.publishRaises);
      }
    }

    /** Replays until the queue is empty or an error stops the drain, for as long as there are answers. The lock is
        held throughout; the drain stops at the first answer that is a setback, and one that none stopped goes on
        until nothing is queued. */
    method DrainOffline(t: nat, answers: seq<Answer>) returns (stopped: bool, used: nat)
      requires Valid() && t in tasks && tasks[t].Locking? && lock.None?
      modifies this, offline
      ensures Valid() && Draining(t, stopped) && used <= |answers|
      ensures tasks[t].Replaying? ==> used == |answers| && |settled| == |old(settled)| + used
      ensures forall i | 0 <= i < used :: Stops(answers[i]) <==> stopped && i == used - 1
    {
      stopped, used := false, 0;
      Begin(t);
      while tasks[t].Replaying? && used < |answers|
        invariant Valid() && Draining(t, stopped) && used <= |answers|
        invariant tasks[t].Replaying? ==> |settled| == |old(settled)| + used && !stopped
        invariant forall i | 0 <= i < used :: Stops(answers[i]) <==> stopped && i == used - 1
        decreases |answers| - used
      {
        ReplayOne(t, answers[used]);
        stopped := Stops(answers[used]);
        used := used + 1;
      }
    }
  }
}
