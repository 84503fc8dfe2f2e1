/** What the offline queue is for: a success drains it, what is queued is what failed, and no task gets stuck. */
module OfflineProgress {
  import opened Options
  import opened OfflineQueue
  import opened OfflineLaws

  // ---------- a success drains the queue ----------

  /** Some task waits for the drain lock or has it. */
  ghost predicate SomeoneDrains(s: State) {
    exists t | t in s.tasks :: s.tasks[t].Locking? || s.tasks[t].Replaying? || s.tasks[t].Republishing?
  }

  predicate Succeeds(e: Event) { e.Published? && !e.raised }

  /** With something queued, a successful publish puts its task on the way to the lock. */
  lemma SuccessGoesForLock(cfg: Config, s: State, t: nat)
    requires Enabled(cfg, s, Published(t, false)) && s.queue != []
    ensures var u := Step(cfg, s, Published(t, false)); t in u.tasks && u.tasks[t].Locking? && u.queue == s.queue
  {
  }

  lemma SuccessStep(cfg: Config, s: State, e: Event)
    requires Enabled(cfg, s, e) && Succeeds(e)
    ensures Step(cfg, s, e).queue == [] || SomeoneDrains(Step(cfg, s, e))
  {
    if s.queue != [] {
      SuccessGoesForLock(cfg, s, e.task);
    }
  }

  /** A drain under way goes on until the queue is empty, but for a setback. */
  lemma DrainGoesOn(cfg: Config, s: State, e: Event)
    requires Enabled(cfg, s, e) && OneDrainer(cfg, s) && !IsSetback(e)
    requires s.queue == [] || SomeoneDrains(s)
    ensures Step(cfg, s, e).queue == [] || SomeoneDrains(Step(cfg, s, e))
  {
    var u := Step(cfg, s, e);
    if u.queue != [] {
      var t :| t in s.tasks && (s.tasks[t].Locking? || s.tasks[t].Replaying? || s.tasks[t].Republishing?);
      assert t in u.tasks && (u.tasks[t].Locking? || u.tasks[t].Replaying? || u.tasks[t].Republishing?);
    }
  }

  /** In every run: after a successful publish, and until the next setback, the queue is empty or on its way to be
      drained. So where every task is finished and something is queued, no success came after the last setback. */
  lemma {:induction false} SuccessDrains(cfg: Config, events: seq<Event>, states: seq<State>, i: nat, k: nat)
    requires IsRun(cfg, events, states) && i < k <= |events| && Succeeds(events[i])
    requires forall j | i < j < k :: !IsSetback(events[j])
    ensures states[k].queue == [] || SomeoneDrains(states[k])
  {
    if k == i + 1 {
      SuccessStep(cfg, states[i], events[i]);
    } else {
      SuccessDrains(cfg, events, states, i, k - 1);
      RunsAreSound(cfg, events, states, k - 1);
      DrainGoesOn(cfg, states[k - 1], events[k - 1]);
    }
  }

  /** What a drain does with an answer: publish a summary, let go of an item that needs no more, and take the next
      one as long as there is one. */
  lemma ReplayAnswered(cfg: Config, s: State, t: nat, outcome: Outcome)
    requires Enabled(cfg, s, Replayed(t, outcome)) && !IsSetback(Replayed(t, outcome))
    ensures var u := Step(cfg, s, Replayed(t, outcome));
            if outcome.Insight? then Enabled(cfg, u, Republished(t, false)) && u.replay == s.replay
            else
              && u.settled == s.settled + [s.replay.value]
              && (s.queue != [] ==> u.replay == Some(s.queue[0]) && Enabled(cfg, u, Replayed(t, Insight)))
  {
  }

  /** A summary is published before anything else happens to its task. */
  lemma InsightIsPublished(cfg: Config, s: State, t: nat)
    requires Enabled(cfg, s, Analyzed(t, Insight))
    ensures Enabled(cfg, Step(cfg, s, Analyzed(t, Insight)), Published(t, false))
  {
  }

  // ---------- no task gets stuck ----------

  lemma SomeEventOf(cfg: Config, s: State, t: nat) returns (e: Event)
    requires OneDrainer(cfg, s) && t in s.tasks && (s.tasks[t].Locking? ==> s.drainer.None?)
    ensures Enabled(cfg, s, e) && !e.Handled? && e.task == t
  {
    match s.tasks[t]
    case Analyzing(_) => e := Analyzed(t, Insight);
    case Publishing => e := Published(t, false);
    case Locking => e := Locked(t);
    case Replaying => e := Replayed(t, Insight);
    case Republishing => e := Republished(t, false);
    case Finished => e := Discarded(t);
  }

  /** As long as there is a task, some task can go on: a wait for the lock ends with the drainer's next answer. */
  lemma NoDeadlock(cfg: Config, events: seq<Event>, states: seq<State>, k: nat, t: nat) returns (e: Event)
    requires IsRun(cfg, events, states) && k < |states| && t in states[k].tasks
    ensures Enabled(cfg, states[k], e) && !e.Handled?
    ensures e.task == t || (states[k].tasks[t].Locking? && states[k].drainer == Some(e.task))
  {
    RunsAreSound(cfg, events, states, k);
    var s := states[k];
    e := SomeEventOf(cfg, s, if s.tasks[t].Locking? && s.drainer.Some? then s.drainer.value else t);
  }

  // ---------- intake ----------

  predicate StartsWith(text: string, prefix: string) {
    |text| >= |prefix| && forall i | 0 <= i < |prefix| :: text[i] == prefix[i]
  }

  /** Neither one's own message nor an insight of any service. */
  predicate IsWanted(cfg: Config, m: Message) {
    m.source != cfg.ownUid && !(m.isChat && StartsWith(m.text, cfg.prefix))
  }

  /** A wanted message starts a task of its own, or is counted as shed at the cap; another leaves no trace. */
  lemma IntakeExactly(cfg: Config, s: State, m: Message)
    requires forall t | t in s.tasks :: t < s.spawned
    ensures var u := Step(cfg, s, Handled(m));
            if !IsWanted(cfg, m) then u == s
            else if cfg.maxTasks > 0 && |s.tasks| >= cfg.maxTasks then u == s.(shed := s.shed + 1)
            else
              && s.spawned !in s.tasks && u.tasks == s.tasks[s.spawned := Analyzing(m.id)]
              && u == s.(tasks := u.tasks, spawned := s.spawned + 1)
  {
    assert StartsWith(m.text, cfg.prefix) <==> cfg.prefix <= m.text;
  }

  /** Only a wanted message makes a task analyse anything. */
  lemma StepAnalyses(cfg: Config, s: State, e: Event, t: nat)
    requires Enabled(cfg, s, e) && forall x | x in s.tasks :: x < s.spawned
    requires t in Step(cfg, s, e).tasks && Step(cfg, s, e).tasks[t].Analyzing?
    ensures var stage := Step(cfg, s, e).tasks[t];
            || (t in s.tasks && s.tasks[t] == stage)
            || (e.Handled? && IsWanted(cfg, e.message) && e.message.id == stage.envelope)
  {
    if e.Handled? {
      IntakeExactly(cfg, s, e.message);
    }
  }

  /** A task analyses a message that was wanted. */
  lemma {:induction false} TasksAreWanted(cfg: Config, events: seq<Event>, states: seq<State>, k: nat, t: nat)
    returns (i: nat)
    requires IsRun(cfg, events, states) && k < |states| && t in states[k].tasks && states[k].tasks[t].Analyzing?
    ensures i < k && events[i].Handled? && IsWanted(cfg, events[i].message)
    ensures events[i].message.id == states[k].tasks[t].envelope
  {
    RunsAreSound(cfg, events, states, k - 1);
    StepAnalyses(cfg, states[k - 1], events[k - 1], t);
    if t in states[k - 1].tasks && states[k - 1].tasks[t] == states[k].tasks[t] {
      i := TasksAreWanted(cfg, events, states, k - 1, t);
    } else {
      i := k - 1;
    }
  }

  // ---------- what is queued ----------

  /** The item was queued by step i, when the analysis of its envelope failed in a way worth retrying. */
  ghost predicate QueuedBy(cfg: Config, events: seq<Event>, states: seq<State>, i: nat, x: Item) {
    && i < |events| < |states| && cfg.maxQueue > 0
    && events[i].Analyzed? && events[i].outcome.Retryable?
    && events[i].task in states[i].tasks && states[i].tasks[events[i].task] == Analyzing(x.envelope)
    && states[i].enqueued == x.stamp
  }

  lemma ReplayQueuesNothing(cfg: Config, s: State, t: nat, outcome: Outcome, x: Item)
    requires Enabled(cfg, s, Replayed(t, outcome)) && x in Line(Step(cfg, s, Replayed(t, outcome)))
    ensures x in Line(s)
  {
    assert s.queue != [] ==> s.queue == [s.queue[0]] + s.queue[1..];
  }

  lemma StepQueues(cfg: Config, s: State, e: Event, x: Item)
    requires Enabled(cfg, s, e) && OneDrainer(cfg, s) && x in Line(Step(cfg, s, e)) && x !in Line(s)
    ensures cfg.maxQueue > 0 && e.Analyzed? && e.outcome.Retryable?
    ensures s.tasks[e.task] == Analyzing(x.envelope) && s.enqueued == x.stamp
  {
    if e.Replayed? {
      ReplayQueuesNothing(cfg, s, e.task, e.outcome, x);
    } else {
      assert s.queue != [] ==> s.queue == [s.queue[0]] + s.queue[1..];
    }
  }

  /** Whatever is queued, in replay or settled was queued for a failed analysis of its own envelope. */
  lemma {:induction false} QueuedAfterFailure(cfg: Config, events: seq<Event>, states: seq<State>, k: nat, x: Item)
    returns (i: nat)
    requires IsRun(cfg, events, states) && k < |states| && x in Line(states[k])
    ensures i < k && QueuedBy(cfg, events, states, i, x)
  {
    RunsAreSound(cfg, events, states, k - 1);
    if x in Line(states[k - 1]) {
      i := QueuedAfterFailure(cfg, events, states, k - 1, x);
    } else {
      StepQueues(cfg, states[k - 1], events[k - 1], x);
      i := k - 1;
    }
  }

  /** A failure worth retrying puts the envelope last in the queue, and costs an older one only when it is full. */
  lemma FailureIsQueued(cfg: Config, s: State, t: nat)
    requires Enabled(cfg, s, Analyzed(t, Retryable)) && OneDrainer(cfg, s) && cfg.maxQueue > 0
    ensures var u, x := Step(cfg, s, Analyzed(t, Retryable)), Item(s.tasks[t].envelope, s.enqueued);
            if |s.queue| < cfg.maxQueue then u.queue == s.queue + [x] && u.dropped == s.dropped
            else u.queue == s.queue[1..] + [x] && u.dropped == s.dropped + 1
  {
  }

  /** This step costs an item: one is squeezed out of a full queue, or its replay fails for good. */
  predicate Costs(cfg: Config, s: State, e: Event) {
    match e
    case Analyzed(_, outcome) => outcome.Retryable? && cfg.maxQueue > 0 && |s.queue| == cfg.maxQueue
    case Replayed(_, outcome) => (outcome.Retryable? && |s.queue| == cfg.maxQueue) || outcome.Permanent?
    case _ => false
  }

  function Cost(cfg: Config, events: seq<Event>, states: seq<State>, k: nat): nat
    requires k <= |events| < |states|
  {
    if k == 0 then 0
    else Cost(cfg, events, states, k - 1) + if Costs(cfg, states[k - 1], events[k - 1]) then 1 else 0
  }

  lemma StepCosts(cfg: Config, s: State, e: Event)
    requires Enabled(cfg, s, e) && OneDrainer(cfg, s)
    ensures Step(cfg, s, e).dropped == s.dropped + if Costs(cfg, s, e) then 1 else 0
  {
  }

  /** The count of dropped items is exact, at every point of every run. */
  lemma {:induction false} DroppedExactly(cfg: Config, events: seq<Event>, states: seq<State>, k: nat)
    requires IsRun(cfg, events, states) && k <= |events|
    ensures states[k].dropped == Cost(cfg, events, states, k)
  {
    if k > 0 {
      DroppedExactly(cfg, events, states, k - 1);
      RunsAreSound(cfg, events, states, k - 1);
      StepCosts(cfg, states[k - 1], events[k - 1]);
    }
  }
}
