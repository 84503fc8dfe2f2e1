/** What every interleaving of the inference tasks keeps. */
module OfflineLaws {
  import opened Options
  import opened OfflineQueue

  function InReplay(s: State): nat { if s.replay.Some? then 1 else 0 }

  /** Every envelope ever enqueued is in exactly one place. */
  predicate Conserved(s: State) {
    s.enqueued == |s.queue| + InReplay(s) + s.resolved + s.dropped + s.lost
  }

  ghost predicate Ascending(a: seq<Item>) { forall i, j | 0 <= i < j < |a| :: a[i].stamp < a[j].stamp }

  /** The items on their way through: settled, being replayed, waiting. */
  function Line(s: State): seq<Item> {
    s.settled + (if s.replay.Some? then [s.replay.value] else []) + s.queue
  }

  /** They stand in the order of enqueueing, all before the next stamp. */
  ghost predicate InOrder(s: State) {
    Ascending(Line(s)) && forall x | x in Line(s) :: x.stamp < s.enqueued
  }

  /** The lock, the replay and the stages tell the same story. */
  ghost predicate OneDrainer(cfg: Config, s: State) {
    && (s.replay.Some? <==> s.drainer.Some?)
    && (s.drainer.Some? ==> s.drainer.value in s.tasks && Drains(s.tasks[s.drainer.value]))
    && (forall t | t in s.tasks && Drains(s.tasks[t]) :: s.drainer == Some(t))
    && |s.queue| <= cfg.maxQueue
    && (s.replay.Some? ==> cfg.maxQueue > 0)
    && (forall t | t in s.tasks :: t < s.spawned)
  }

  predicate Drains(stage: Stage) { stage.Replaying? || stage.Republishing? }

  predicate Capped(cfg: Config, s: State) { cfg.maxTasks > 0 ==> |s.tasks| <= cfg.maxTasks }

  // ---------- conservation ----------

  lemma ReplayConserves(cfg: Config, s: State, t: nat, outcome: Outcome)
    requires Enabled(cfg, s, Replayed(t, outcome)) && Conserved(s) && OneDrainer(cfg, s)
    ensures Conserved(FinishReplay(cfg, s, t, s.replay.value, outcome))
  {
  }

  lemma StepConserves(cfg: Config, s: State, e: Event)
    requires Enabled(cfg, s, e) && Conserved(s) && OneDrainer(cfg, s)
    ensures Conserved(Step(cfg, s, e))
  {
    if e.Replayed? {
      ReplayConserves(cfg, s, e.task, e.outcome);
    }
  }

  // ---------- one drainer ----------

  lemma ReplayKeepsDrainer(cfg: Config, s: State, t: nat, outcome: Outcome)
    requires Enabled(cfg, s, Replayed(t, outcome)) && OneDrainer(cfg, s)
    ensures OneDrainer(cfg, FinishReplay(cfg, s, t, s.replay.value, outcome))
  {
  }

  lemma StepKeepsDrainer(cfg: Config, s: State, e: Event)
    requires Enabled(cfg, s, e) && OneDrainer(cfg, s)
    ensures OneDrainer(cfg, Step(cfg, s, e))
  {
    if e.Replayed? {
      ReplayKeepsDrainer(cfg, s, e.task, e.outcome);
    }
  }

  // ---------- order ----------

  /** A line stays in order when an item leaves it. */
  lemma Leave(a: seq<Item>, x: Item, b: seq<Item>)
    requires Ascending(a + [x] + b)
    ensures Ascending(a + b) && forall y | y in a + b :: y in a + [x] + b
  {
    var long := a + [x] + b;
    forall i | 0 <= i < |a + b| ensures (a + b)[i] == long[if i < |a| then i else i + 1] {}
  }

  lemma SameLine(s: State, t: State)
    requires InOrder(s) && Line(t) == Line(s) && t.enqueued >= s.enqueued
    ensures InOrder(t)
  {
  }

  lemma NextReplayKeepsOrder(s: State, t: nat)
    requires InOrder(s) && s.replay.None?
    ensures InOrder(NextReplay(s, t))
  {
    assert s.queue != [] ==> Line(NextReplay(s, t)) == Line(s) by {
      assert s.queue != [] ==> s.queue == [s.queue[0]] + s.queue[1..];
    }
    SameLine(s, NextReplay(s, t));
  }

  lemma SettleKeepsOrder(s: State, u: State)
    requires InOrder(s) && s.replay.Some?
    requires u.settled == s.settled + [s.replay.value] && u.replay.None?
    requires u.queue == s.queue && u.enqueued == s.enqueued
    ensures InOrder(u)
  {
    assert Line(u) == Line(s);
  }

  /** A new item takes the last place, whatever the queue drops to make room. */
  lemma EnqueueKeepsOrder(cfg: Config, s: State, envelope: int)
    requires InOrder(s) && cfg.maxQueue > 0 && |s.queue| <= cfg.maxQueue
    ensures InOrder(Enqueue(cfg, s, envelope))
  {
    var front := s.settled + if s.replay.Some? then [s.replay.value] else [];
    var x := Item(envelope, s.enqueued);
    var u := Enqueue(cfg, s, envelope);
    if |s.queue| < cfg.maxQueue {
      assert Line(u) == Line(s) + [x];
    } else {
      assert Line(s) == front + [s.queue[0]] + s.queue[1..];
      Leave(front, s.queue[0], s.queue[1..]);
      assert Line(u) == front + s.queue[1..] + [x];
    }
  }

  /** A failed replay goes back to the front, ahead of everything that arrived meanwhile. */
  lemma RequeueKeepsOrder(cfg: Config, s: State, u: State)
    requires InOrder(s) && cfg.maxQueue > 0 && s.replay.Some? && |s.queue| <= cfg.maxQueue
    requires u.queue == PutFront(s.queue, cfg.maxQueue, s.replay.value)
    requires u.settled == s.settled && u.replay.None? && u.enqueued == s.enqueued
    ensures InOrder(u)
  {
    if |s.queue| < cfg.maxQueue {
      assert Line(u) == Line(s);
    } else {
      assert Line(u) == Line(s)[..|Line(s)| - 1];
    }
  }

  lemma ReplayKeepsOrder(cfg: Config, s: State, t: nat, outcome: Outcome)
    requires InOrder(s) && s.replay.Some? && cfg.maxQueue > 0 && |s.queue| <= cfg.maxQueue
    ensures InOrder(FinishReplay(cfg, s, t, s.replay.value, outcome))
  {
    var item := s.replay.value;
    var u := FinishReplay(cfg, s, t, item, outcome);
    match outcome
    case Insight => SameLine(s, u);
    case Silent =>
      SettleKeepsOrder(s, Resolve(s, item));
      NextReplayKeepsOrder(Resolve(s, item), t);
    case Retryable => RequeueKeepsOrder(cfg, s, u);
    case Permanent =>
      SettleKeepsOrder(s, Refuse(s, item));
      NextReplayKeepsOrder(Refuse(s, item), t);
    case Unexpected => SettleKeepsOrder(s, u);
  }

  lemma StepKeepsOrder(cfg: Config, s: State, e: Event)
    requires Enabled(cfg, s, e) && InOrder(s) && OneDrainer(cfg, s)
    ensures InOrder(Step(cfg, s, e))
  {
    match e
    case Handled(_) => SameLine(s, Step(cfg, s, e));
    case Analyzed(t, outcome) =>
      if outcome.Retryable? && cfg.maxQueue > 0 {
        EnqueueKeepsOrder(cfg, s, s.tasks[t].envelope);
        SameLine(Enqueue(cfg, s, s.tasks[t].envelope), Step(cfg, s, e));
      } else {
        SameLine(s, Step(cfg, s, e));
      }
    case Published(_, _) => SameLine(s, Step(cfg, s, e));
    case Locked(t) =>
      SameLine(s, s.(drainer := Some(t)));
      NextReplayKeepsOrder(s.(drainer := Some(t)), t);
    case Replayed(t, outcome) => ReplayKeepsOrder(cfg, s, t, outcome);
    case Republished(t, raised) =>
      var u := if raised then Lose(s, s.replay.value) else Resolve(s, s.replay.value);
      SettleKeepsOrder(s, u);
      if raised {
        SameLine(u, Step(cfg, s, e));
      } else {
        NextReplayKeepsOrder(u, t);
      }
    case Discarded(_) => SameLine(s, Step(cfg, s, e));
  }

  // ---------- pending tasks ----------

  lemma StepKeepsCap(cfg: Config, s: State, e: Event)
    requires Enabled(cfg, s, e) && Capped(cfg, s)
    ensures Capped(cfg, Step(cfg, s, e))
  {
  }

  // ---------- every run ----------

  ghost predicate Sound(cfg: Config, s: State) {
    Conserved(s) && InOrder(s) && OneDrainer(cfg, s) && Capped(cfg, s)
  }

  /** At every point of every interleaving: nothing enqueued is unaccounted for, at most one replay is
      under way, the queue is in order and within its bound, and pending tasks respect a non-zero cap. */
  lemma {:induction false} RunsAreSound(cfg: Config, events: seq<Event>, states: seq<State>, k: nat)
    requires IsRun(cfg, events, states) && k < |states|
    ensures Sound(cfg, states[k])
  {
    if k > 0 {
      RunsAreSound(cfg, events, states, k - 1);
      var s, e := states[k - 1], events[k - 1];
      StepConserves(cfg, s, e);
      StepKeepsDrainer(cfg, s, e);
      StepKeepsOrder(cfg, s, e);
      StepKeepsCap(cfg, s, e);
    }
  }

  /** No envelope is lost but to an error the drain does not handle. */
  predicate Handles(e: Event) {
    match e
    case Replayed(_, outcome) => !outcome.Unexpected?
    case Republished(_, raised) => !raised
    case _ => true
  }

  lemma {:induction false} LostExactly(cfg: Config, events: seq<Event>, states: seq<State>, k: nat)
    requires IsRun(cfg, events, states) && k <= |events|
    ensures states[k].lost == 0 <==> forall i | 0 <= i < k :: Handles(events[i])
  {
    if k > 0 {
      LostExactly(cfg, events, states, k - 1);
      LostStep(cfg, states[k - 1], events[k - 1]);
    }
  }

  lemma LostStep(cfg: Config, s: State, e: Event)
    requires Enabled(cfg, s, e)
    ensures Step(cfg, s, e).lost == s.lost + if Handles(e) then 0 else 1
  {
  }

  /** A step that leaves something queued with nobody replaying: a retryable failure, or a drain cut short. */
  predicate IsSetback(e: Event) {
    match e
    case Analyzed(_, outcome) => outcome.Retryable?
    case Replayed(_, outcome) => outcome.Retryable? || outcome.Unexpected?
    case Republished(_, raised) => raised
    case _ => false
  }

  /** A drain that was not cut short by an error leaves nothing queued. */
  lemma DrainEmptiesExactly(cfg: Config, s: State, e: Event)
    requires Enabled(cfg, s, e) && OneDrainer(cfg, s)
    requires s.drainer.Some? && Step(cfg, s, e).drainer.None?
    ensures Step(cfg, s, e).queue == [] <==>
            || (e.Replayed? && (e.outcome.Silent? || e.outcome.Permanent?))
            || (e.Republished? && !e.raised)
            || (!Handles(e) && s.queue == [])
  {
  }

  /** With no drain under way before or after, only a retryable failure touches the queue. */
  lemma IdleStep(cfg: Config, s: State, e: Event)
    requires Enabled(cfg, s, e) && OneDrainer(cfg, s)
    requires s.drainer.None? && Step(cfg, s, e).drainer.None? && !IsSetback(e)
    ensures Step(cfg, s, e).queue == s.queue
  {
  }

  /** No drain was under way from step i to step k, and the queue did not change. */
  ghost predicate Resting(states: seq<State>, i: nat, k: nat) {
    i < k < |states| && forall j | i < j <= k :: states[j].drainer.None? && states[j].queue == states[k].queue
  }

  /** Whenever something is queued and no drain is under way, the queue is as a setback left it: a retryable
      failure, or a drain cut short by an error. */
  lemma {:induction false} QueuedAfterSetback(cfg: Config, events: seq<Event>, states: seq<State>, k: nat)
    returns (i: nat)
    requires IsRun(cfg, events, states) && k < |states| && states[k].queue != [] && states[k].drainer.None?
    ensures i < k && IsSetback(events[i]) && Resting(states, i, k)
  {
    if IsSetback(events[k - 1]) {
      i := k - 1;
    } else {
      RunsAreSound(cfg, events, states, k - 1);
      RestedBefore(cfg, states[k - 1], events[k - 1]);
      i := QueuedAfterSetback(cfg, events, states, k - 1);
    }
  }

  lemma RestedBefore(cfg: Config, s: State, e: Event)
    requires Enabled(cfg, s, e) && OneDrainer(cfg, s) && !IsSetback(e)
    requires Step(cfg, s, e).drainer.None? && Step(cfg, s, e).queue != []
    ensures s.drainer.None? && s.queue == Step(cfg, s, e).queue
  {
    if s.drainer.Some? {
      SetbackLeavesQueue(cfg, s, e);
    }
    IdleStep(cfg, s, e);
  }

  lemma SetbackLeavesQueue(cfg: Config, s: State, e: Event)
    requires Enabled(cfg, s, e) && OneDrainer(cfg, s)
    requires s.drainer.Some? && Step(cfg, s, e).drainer.None? && Step(cfg, s, e).queue != []
    ensures IsSetback(e)
  {
    DrainEmptiesExactly(cfg, s, e);
  }
}
