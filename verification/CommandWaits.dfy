/** Every attempt is given its time: it ends without an ACK only after the timeout, and a matching ACK that is there
    in time is taken. */
module CommandWaits {
  import opened Options
  import opened Commands
  import opened CommandPath
  import opened CommandLedger
  import CommandAcks

  // ----- No attempt gives up early -----

  /** A place reached in an attempt whose timer was not started before `since`. */
  predicate InTime(c: Config, stage: Stage, now: real, since: real) {
    match stage
    case Timing(_) => since <= now
    case Waiting(_, deadline) => deadline >= since + c.settings.ackTimeoutS
    case Receiving(_, deadline) => deadline >= since + c.settings.ackTimeoutS
    case Recording(_, ack) => ack.None? ==> now - since >= c.settings.ackTimeoutS
    case Failing(_) => true
    case _ => false
  }

  /** The token was released; if the thread still executes it, then this attempt in time, or a later one. */
  ghost predicate Timed(c: Config, s: State, t: Thread, token: Token, attempt: nat, since: real) {
    && Tally(s.log, token, IsReleased) >= 1
    && (HasJob(At(s, t)) && At(s, t).job.token == token ==>
          At(s, t).job.attempt > attempt || (At(s, t).job.attempt == attempt && InTime(c, At(s, t), s.now, since)))
  }

  lemma OwnTurnTimed(c: Config, s: State, t: Thread, ok: bool, token: Token, attempt: nat, since: real)
    requires Timed(c, s, t, token, attempt, since) && Enabled(c, s, Turn(t, ok)) && token !in s.pending
    ensures var stage := Act(c, s, At(s, t), ok).stage;
            HasJob(stage) && stage.job.token == token ==>
              stage.job.attempt > attempt || (stage.job.attempt == attempt && InTime(c, stage, s.now, since))
  {
  }

  lemma ReleasedStays(c: Config, s: State, e: Event, token: Token)
    requires Enabled(c, s, e) && Tally(s.log, token, IsReleased) >= 1
    ensures Tally(Step(c, s, e).log, token, IsReleased) >= 1
  {
    var seen := Step(c, s, e).log[|s.log|..];
    assert Step(c, s, e).log == s.log + seen;
    TallyAppend(s.log, seen, token, IsReleased);
  }

  lemma StepTimed(c: Config, s: State, e: Event, t: Thread, token: Token, attempt: nat, since: real)
    requires Ledger(c, s) && Enabled(c, s, e) && Timed(c, s, t, token, attempt, since)
    ensures Timed(c, Step(c, s, e), t, token, attempt, since)
  {
    ReleasedStays(c, s, e, token);
    assert Located(s, token);
    if e.Turn? && e.thread == t {
      OwnTurnTimed(c, s, t, e.ok, token, attempt, since);
    }
  }

  lemma {:induction false} RunTimed(c: Config, events: seq<Event>, states: seq<State>, i: nat, j: nat, t: Thread,
                                    token: Token, attempt: nat, since: real)
    requires IsRun(c, events, states) && i <= j < |states|
    requires Timed(c, states[i], t, token, attempt, since)
    ensures Timed(c, states[j], t, token, attempt, since)
  {
    if i < j {
      RunTimed(c, events, states, i, j - 1, t, token, attempt, since);
      LedgerAt(c, events, states, j - 1);
      StepTimed(c, states[j - 1], events[j - 1], t, token, attempt, since);
    }
  }

  lemma LedgerAt(c: Config, events: seq<Event>, states: seq<State>, k: nat)
    requires IsRun(c, events, states) && k < |states|
    ensures Ledger(c, states[k])
  {
    assert forall i | 0 <= i < k :: events[..k][i] == events[i];
    CommandAcks.RunCorrelated(c, events[..k], states[..k + 1]);
  }

  /** Whatever else happens: between the moment an attempt is about to start its timer and the moment it is about
      to record that no ACK came, at least the whole timeout passes. */
  lemma NoAckMeansTimeout(c: Config, events: seq<Event>, states: seq<State>, i: nat, j: nat, t: Thread)
    requires IsRun(c, events, states) && i <= j < |states|
    requires At(states[i], t).Timing? && At(states[j], t).Recording? && At(states[j], t).ack.None?
    requires At(states[i], t).job.token == At(states[j], t).job.token
    requires At(states[i], t).job.attempt == At(states[j], t).job.attempt
    ensures states[j].now - states[i].now >= c.settings.ackTimeoutS
  {
    var job := At(states[i], t).job;
    LedgerAt(c, events, states, i);
    assert Held(c, states[i].log, At(states[i], t));
    RunTimed(c, events, states, i, j, t, job.token, job.attempt, states[i].now);
  }

  // ----- A matching ACK in time is taken -----

  predicate InWait(stage: Stage) { stage.Timing? || stage.Waiting? || stage.Receiving? }

  /** An ACK that answers the command under way, from the system asked for. */
  predicate Answers(c: Config, spec: Spec, ack: Ack) {
    ack.command == spec.command && (c.expectSystem.None? || c.expectSystem.value == ack.sourceSystem)
  }

  /** Steps of this thread alone, none of which fails, lead from s to u. */
  ghost predicate GoesOn(c: Config, s: State, t: Thread, turns: nat, u: State)
    decreases turns
  {
    if turns == 0 then s == u
    else Enabled(c, s, Turn(t, true)) && GoesOn(c, Step(c, s, Turn(t, true)), t, turns - 1, u)
  }

  lemma TakesHead(c: Config, s: State, t: Thread) returns (u: State)
    requires At(s, t).Receiving? && s.queue != [] && Answers(c, At(s, t).job.spec, s.queue[0])
    ensures GoesOn(c, s, t, 1, u) && At(u, t) == Recording(At(s, t).job, Some(s.queue[0]))
  {
    u := Step(c, s, Turn(t, true));
    assert GoesOn(c, u, t, 0, u);
  }

  lemma LooksAndTakes(c: Config, s: State, t: Thread) returns (u: State)
    requires At(s, t).Waiting? && At(s, t).deadline > s.now
    requires s.queue != [] && Answers(c, At(s, t).job.spec, s.queue[0])
    ensures GoesOn(c, s, t, 2, u) && At(u, t) == Recording(At(s, t).job, Some(s.queue[0]))
  {
    u := TakesHead(c, Step(c, s, Turn(t, true)), t);
  }

  lemma StartsAndTakes(c: Config, s: State, t: Thread) returns (u: State)
    requires At(s, t).Timing? && c.settings.ackTimeoutS > 0.0
    requires s.queue != [] && Answers(c, At(s, t).job.spec, s.queue[0])
    ensures GoesOn(c, s, t, 3, u) && At(u, t) == Recording(At(s, t).job, Some(s.queue[0]))
  {
    u := LooksAndTakes(c, Step(c, s, Turn(t, true)), t);
  }

  /** Less than the timeout after an attempt was about to start its timer, and while it still waits: with a matching
      ACK at the head of the queue, the thread's own next statements take it and come to record it. */
  lemma MatchingAckIsTaken(c: Config, events: seq<Event>, states: seq<State>, i: nat, j: nat, t: Thread)
    returns (turns: nat, u: State)
    requires IsRun(c, events, states) && i <= j < |states|
    requires At(states[i], t).Timing? && InWait(At(states[j], t))
    requires At(states[i], t).job.token == At(states[j], t).job.token
    requires At(states[i], t).job.attempt == At(states[j], t).job.attempt
    requires states[j].now - states[i].now < c.settings.ackTimeoutS
    requires states[j].queue != [] && Answers(c, At(states[j], t).job.spec, states[j].queue[0])
    ensures GoesOn(c, states[j], t, turns, u)
    ensures At(u, t) == Recording(At(states[j], t).job, Some(states[j].queue[0]))
  {
    var job := At(states[i], t).job;
    LedgerAt(c, events, states, i);
    assert Held(c, states[i].log, At(states[i], t));
    RunTimed(c, events, states, i, j, t, job.token, job.attempt, states[i].now);
    if At(states[j], t).Timing? {
      turns := 3;
      u := StartsAndTakes(c, states[j], t);
    } else if At(states[j], t).Waiting? {
      turns := 2;
      u := LooksAndTakes(c, states[j], t);
    } else {
      turns := 1;
      u := TakesHead(c, states[j], t);
    }
  }
}
