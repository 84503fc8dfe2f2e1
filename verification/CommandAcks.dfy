/** ACK correlation and waiting time over every run of the command path. */
module CommandAcks {
  import opened Options
  import opened Commands
  import opened CommandPath
  import opened CommandLedger

  /** The ACKs the reader put on the queue, in order. */
  function In(log: seq<Obs>): seq<Ack> {
    if log == [] then []
    else
      var o := log[|log| - 1];
      In(log[..|log| - 1]) + if o.Enqueued? then [o.ack] else []
  }

  /** The ACKs taken off the queue, drained or examined, in order. */
  function Out(log: seq<Obs>): seq<Ack> {
    if log == [] then []
    else
      var o := log[|log| - 1];
      Out(log[..|log| - 1]) + if o.Drained? || o.Examined? then [o.ack] else []
  }

  lemma InOutAppend(log: seq<Obs>, o: Obs)
    ensures In(log + [o]) == In(log) + if o.Enqueued? then [o.ack] else []
    ensures Out(log + [o]) == Out(log) + if o.Drained? || o.Examined? then [o.ack] else []
  {
    assert (log + [o])[..|log|] == log;
  }

  /** Nothing is lost or reordered between the reader and the dequeuers. */
  ghost predicate Fifo(s: State) {
    In(s.log) == Out(s.log) + s.queue
  }

  function Timeout(c: Config): real {
    if c.settings.ackTimeoutS < 0.0 then 0.0 else c.settings.ackTimeoutS
  }

  /** Dequeuing takes the oldest ACK; a finished drain leaves none behind; an ACK is
      examined only after its command's drain finished; waiting is bounded. */
  ghost predicate AckJustified(c: Config, before: seq<Obs>, o: Obs) {
    match o
    case Drained(ack) => Out(before) + [ack] <= In(before)
    case DrainDone(_) => Out(before) == In(before)
    case Examined(token, ack) => Out(before) + [ack] <= In(before) && DrainDone(token) in before
    case Finished(_, outcome, waited) => 0.0 <= waited <= Max0(outcome.attempts) as real * Timeout(c)
    case _ => true
  }

  ghost predicate AllAckJustified(c: Config, log: seq<Obs>) {
    forall j | 0 <= j < |log| :: AckJustified(c, log[..j], log[j])
  }

  // ----- Waiting time -----

  function Span(c: Config, attempts: nat): real {
    attempts as real * Timeout(c)
  }

  lemma SpanStep(c: Config, attempts: nat)
    ensures Span(c, attempts + 1) == Span(c, attempts) + Timeout(c)
    ensures 0.0 <= Span(c, attempts)
  {
  }

  /** The time a command has spent inside `recv_ack`, by its place in the code: at most
      one timeout per attempt, less what the current attempt has left. */
  ghost predicate Patient(c: Config, now: real, stage: Stage)
    requires HasJob(stage)
  {
    var k, w := stage.job.attempt, stage.job.waited;
    && 0.0 <= w
    && (if stage.Waiting? || stage.Receiving? then
          && stage.deadline - now <= Timeout(c)
          && w <= Span(c, k) && w <= Span(c, k) - (stage.deadline - now)
          && (stage.Receiving? ==> now <= stage.deadline)
        else if stage.Recording? || stage.Failing? then w <= Span(c, k)
        else w <= Span(c, if k == 0 then 0 else k - 1))
  }

  lemma ActPatient(c: Config, s: State, stage: Stage, ok: bool)
    requires HasJob(stage) && Placed(c, stage) && Patient(c, s.now, stage)
    ensures var e := Act(c, s, stage, ok);
            && (HasJob(e.stage) ==> Patient(c, s.now, e.stage))
            && (forall o | o in e.seen && o.Finished? :: 0.0 <= o.waited <= Span(c, Max0(o.outcome.attempts)))
  {
    if stage.job.attempt > 0 {
      SpanStep(c, stage.job.attempt - 1);
    }
  }

  // ----- The queue -----

  ghost predicate Correlated(c: Config, s: State) {
    && Fifo(s)
    && AllAckJustified(c, s.log)
    && (forall t | t in s.threads && HasJob(s.threads[t]) :: Patient(c, s.now, s.threads[t]))
    && (forall t | t in s.threads && PastDrain(s.threads[t]) :: DrainDone(s.threads[t].job.token) in s.log)
  }

  lemma AckAppend(c: Config, log: seq<Obs>, o: Obs)
    requires AllAckJustified(c, log) && AckJustified(c, log, o)
    ensures AllAckJustified(c, log + [o])
  {
    forall j | 0 <= j < |log + [o]|
      ensures AckJustified(c, (log + [o])[..j], (log + [o])[j])
    {
      assert (log + [o])[..j] == log[..j];
      assert log[..|log|] == log;
    }
  }

  /** An observation that the queue does not care about. */
  ghost predicate Neutral(c: Config, o: Obs) {
    && !o.Enqueued? && !o.Drained? && !o.Examined? && !o.DrainDone?
    && (o.Finished? ==> 0.0 <= o.waited <= Span(c, Max0(o.outcome.attempts)))
  }

  lemma NeutralAppend(c: Config, log: seq<Obs>, o: Obs)
    requires AllAckJustified(c, log) && Neutral(c, o)
    ensures AllAckJustified(c, log + [o]) && In(log + [o]) == In(log) && Out(log + [o]) == Out(log)
  {
    AckAppend(c, log, o);
    InOutAppend(log, o);
  }

  lemma {:induction false} NeutralSeen(c: Config, log: seq<Obs>, seen: seq<Obs>)
    requires AllAckJustified(c, log)
    requires forall o | o in seen :: Neutral(c, o)
    ensures AllAckJustified(c, log + seen) && In(log + seen) == In(log) && Out(log + seen) == Out(log)
    decreases |seen|
  {
    if seen == [] {
      assert log + seen == log;
    } else {
      NeutralAppend(c, log, seen[0]);
      NeutralSeen(c, log + [seen[0]], seen[1..]);
      assert log + [seen[0]] + seen[1..] == log + seen;
    }
  }

  /** Statements outside the drain loop and `recv_ack` are neutral. */
  lemma ActNeutral(c: Config, s: State, stage: Stage, ok: bool)
    requires !stage.Draining? && !(stage.Receiving? && s.queue != [])
    requires HasJob(stage) ==> Placed(c, stage) && Patient(c, s.now, stage)
    ensures var e := Act(c, s, stage, ok);
            e.queue == s.queue && forall o | o in e.seen :: Neutral(c, o)
  {
    if HasJob(stage) {
      ActPatient(c, s, stage, ok);
    }
  }

  /** Draining and receiving take the oldest ACK. */
  lemma ActDequeues(c: Config, s: State, stage: Stage, ok: bool)
    requires Fifo(s) && AllAckJustified(c, s.log)
    requires stage.Draining? || (stage.Receiving? && s.queue != [])
    requires PastDrain(stage) ==> DrainDone(stage.job.token) in s.log
    requires HasJob(stage) ==> Placed(c, stage)
    ensures var e := Act(c, s, stage, ok);
            && In(s.log + e.seen) == Out(s.log + e.seen) + e.queue
            && AllAckJustified(c, s.log + e.seen)
  {
    var e := Act(c, s, stage, ok);
    assert e.seen == [e.seen[0]];
    InOutAppend(s.log, e.seen[0]);
    if s.queue != [] {
      assert Out(s.log) + s.queue == Out(s.log) + [s.queue[0]] + s.queue[1..];
    }
    AckAppend(c, s.log, e.seen[0]);
  }

  lemma ActPastDrain(c: Config, s: State, stage: Stage, ok: bool)
    requires HasJob(stage) ==> Placed(c, stage)
    requires PastDrain(stage) ==> DrainDone(stage.job.token) in s.log
    ensures var e := Act(c, s, stage, ok);
            PastDrain(e.stage) ==> DrainDone(e.stage.job.token) in s.log + e.seen
  {
  }

  lemma TurnQueue(c: Config, s: State, t: Thread, ok: bool)
    requires Fifo(s) && AllAckJustified(c, s.log) && Enabled(c, s, Turn(t, ok))
    requires HasJob(At(s, t)) ==> Placed(c, At(s, t)) && Patient(c, s.now, At(s, t))
    requires PastDrain(At(s, t)) ==> DrainDone(At(s, t).job.token) in s.log
    ensures var after := Step(c, s, Turn(t, ok)); Fifo(after) && AllAckJustified(c, after.log)
  {
    var stage := At(s, t);
    if stage.Draining? || (stage.Receiving? && s.queue != []) {
      ActDequeues(c, s, stage, ok);
    } else {
      ActNeutral(c, s, stage, ok);
      NeutralSeen(c, s.log, Act(c, s, stage, ok).seen);
    }
  }

  lemma TurnCorrelated(c: Config, s: State, t: Thread, ok: bool)
    requires Ledger(c, s) && Correlated(c, s) && Enabled(c, s, Turn(t, ok))
    ensures Correlated(c, Step(c, s, Turn(t, ok)))
  {
    var stage, after := At(s, t), Step(c, s, Turn(t, ok));
    assert HasJob(stage) ==> Held(c, s.log, stage);
    TurnQueue(c, s, t, ok);
    ActPastDrain(c, s, stage, ok);
    if HasJob(stage) {
      ActPatient(c, s, stage, ok);
    } else {
      PopPatient(c, s, stage, ok);
    }
    forall u | u in after.threads && HasJob(after.threads[u])
      ensures Patient(c, after.now, after.threads[u])
    {
      assert u != t ==> Patient(c, s.now, s.threads[u]);
    }
  }

  lemma PopPatient(c: Config, s: State, stage: Stage, ok: bool)
    requires !HasJob(stage)
    ensures var e := Act(c, s, stage, ok); HasJob(e.stage) ==> Patient(c, s.now, e.stage) && !PastDrain(e.stage)
  {
  }

  /** The time a thread spends inside recv_ack, and no other, is what is counted. */
  lemma WaitingIsCounted(c: Config, s: State, to: real, t: Thread)
    requires Enabled(c, s, Tick(to)) && HasJob(At(s, t))
    ensures var before, after := At(s, t), At(Step(c, s, Tick(to)), t);
            && HasJob(after)
            && after.job.waited == before.job.waited + if before.Receiving? then to - s.now else 0.0
  {
  }

  lemma TickCorrelated(c: Config, s: State, to: real)
    requires Correlated(c, s) && Enabled(c, s, Tick(to))
    ensures Correlated(c, Step(c, s, Tick(to)))
  {
    var after := Step(c, s, Tick(to));
    forall t | t in after.threads && HasJob(after.threads[t])
      ensures Patient(c, after.now, after.threads[t])
    {
      assert Patient(c, s.now, s.threads[t]);
    }
    forall t | t in after.threads && PastDrain(after.threads[t])
      ensures DrainDone(after.threads[t].job.token) in after.log
    {
      assert PastDrain(s.threads[t]);
    }
  }

  lemma LogGrows(c: Config, s: State, after: State, o: Obs)
    requires Correlated(c, s) && Fifo(after) && AckJustified(c, s.log, o)
    requires after.log == s.log + [o] && after.threads == s.threads && after.now == s.now
    ensures Correlated(c, after)
  {
    AckAppend(c, s.log, o);
  }

  lemma ReadCorrelated(c: Config, s: State, message: Message)
    requires Correlated(c, s)
    ensures Correlated(c, Step(c, s, Read(message)))
  {
    if message.CommandAck? {
      AckCorrelated(c, s, message.ack);
    } else if Step(c, s, Read(message)) != s {
      BeatCorrelated(c, s, s.(lastBeat := Some(s.now), log := s.log + [Beat(s.now)]));
    }
  }

  lemma AckCorrelated(c: Config, s: State, ack: Ack)
    requires Correlated(c, s)
    ensures Correlated(c, s.(queue := s.queue + [ack], log := s.log + [Enqueued(ack)]))
  {
    InOutAppend(s.log, Enqueued(ack));
    LogGrows(c, s, s.(queue := s.queue + [ack], log := s.log + [Enqueued(ack)]), Enqueued(ack));
  }

  lemma BeatCorrelated(c: Config, s: State, after: State)
    requires Correlated(c, s) && after == s.(lastBeat := Some(s.now), log := s.log + [Beat(s.now)])
    ensures Correlated(c, after)
  {
    InOutAppend(s.log, Beat(s.now));
    LogGrows(c, s, after, Beat(s.now));
  }

  lemma GateCorrelated(c: Config, s: State, e: Event)
    requires Correlated(c, s) && Enabled(c, s, e) && (e.StageCommand? || e.Cancel?)
    ensures Correlated(c, Step(c, s, e))
  {
    var after := Step(c, s, e);
    if e.StageCommand? {
      NeutralAppend(c, s.log, Staged(e.token, BuildCommand(e.name, c.settings, e.args).spec));
    } else {
      NeutralAppend(c, s.log, Discarded(e.token));
    }
    assert after.threads == s.threads && after.queue == s.queue && after.now == s.now;
  }

  lemma ConfirmCorrelated(c: Config, s: State, t: Thread, token: Token, forceAck: bool)
    requires Correlated(c, s) && Enabled(c, s, Confirm(t, token, forceAck))
    ensures Correlated(c, Step(c, s, Confirm(t, token, forceAck)))
  {
  }

  lemma {:induction false} RunCorrelated(c: Config, events: seq<Event>, states: seq<State>)
    requires IsRun(c, events, states)
    ensures Ledger(c, states[|events|]) && Correlated(c, states[|events|])
  {
    if events != [] {
      var k := |events| - 1;
      assert forall i | 0 <= i < k :: events[..k][i] == events[i];
      RunCorrelated(c, events[..k], states[..k + 1]);
      StepKeeps(c, states[k], events[k]);
      match events[k] {
        case Turn(t, ok) => TurnCorrelated(c, states[k], t, ok);
        case Tick(to) => TickCorrelated(c, states[k], to);
        case Read(message) => ReadCorrelated(c, states[k], message);
        case Confirm(t, token, forceAck) => ConfirmCorrelated(c, states[k], t, token, forceAck);
        case _ => GateCorrelated(c, states[k], events[k]);
      }
    }
  }

  // ----- Correlation -----

  lemma {:induction false} OutGrows(log: seq<Obs>, d: nat, x: nat)
    requires d <= x <= |log|
    ensures Out(log[..d]) <= Out(log[..x])
  {
    if d < x {
      OutGrows(log, d, x - 1);
      assert log[..x][..x - 1] == log[..x - 1];
    }
  }

  lemma {:induction false} InGrows(log: seq<Obs>, d: nat, x: nat)
    requires d <= x <= |log|
    ensures In(log[..d]) <= In(log[..x])
  {
    if d < x {
      InGrows(log, d, x - 1);
      assert log[..x][..x - 1] == log[..x - 1];
    }
  }

  /** Where the `n`-th ACK was put on the queue. */
  lemma {:induction false} EnqueuedAt(log: seq<Obs>, n: nat) returns (e: nat)
    requires n < |In(log)|
    ensures e < |log| && log[e] == Enqueued(In(log)[n]) && |In(log[..e])| == n
  {
    var init := log[..|log| - 1];
    if n < |In(init)| {
      e := EnqueuedAt(init, n);
      assert log[..e] == init[..e];
    } else {
      e := |log| - 1;
    }
  }

  /** What an examined ACK says about the log before it. */
  lemma DrainBefore(c: Config, log: seq<Obs>, x: nat) returns (d: nat)
    requires AllAckJustified(c, log) && x < |log| && log[x].Examined?
    ensures d < x && log[d] == DrainDone(log[x].token)
    ensures Out(log[..x]) + [log[x].ack] <= In(log[..x])
    ensures Out(log[..d]) == In(log[..d])
  {
    assert AckJustified(c, log[..x], log[x]);
    d :| 0 <= d < x && log[..x][d] == DrainDone(log[x].token);
    assert AckJustified(c, log[..d], log[d]);
  }

  /** Every ACK a command examines was put on the queue after that command's drain found
      the queue empty: in particular the one that decides the outcome. */
  lemma ExaminedAckIsFresh(c: Config, events: seq<Event>, states: seq<State>, x: nat) returns (d: nat, e: nat)
    requires IsRun(c, events, states)
    requires x < |states[|events|].log| && states[|events|].log[x].Examined?
    ensures var log := states[|events|].log;
            && d < e < x
            && log[d] == DrainDone(log[x].token)
            && log[e] == Enqueued(log[x].ack)
            && |In(log[..e])| == |Out(log[..x])|
  {
    RunCorrelated(c, events, states);
    d, e := FreshIn(c, states[|events|].log, x);
  }

  lemma FreshIn(c: Config, log: seq<Obs>, x: nat) returns (d: nat, e: nat)
    requires AllAckJustified(c, log) && x < |log| && log[x].Examined?
    ensures d < e < x && log[d] == DrainDone(log[x].token) && log[e] == Enqueued(log[x].ack)
    ensures |In(log[..e])| == |Out(log[..x])|
  {
    d := DrainBefore(c, log, x);
    OutGrows(log, d, x);
    e := EnqueuedAt(log[..x], |Out(log[..x])|);
    assert log[..x][..e] == log[..e];
    InOutAppend(log[..e], log[e]);
    assert log[..e] + [log[e]] == log[..e + 1];
    if e < d {
      InGrows(log, e + 1, d);
    }
  }

  /** The total time a finished command spent waiting for ACKs is at most one timeout per
      frame it sent. */
  lemma WaitingIsBounded(c: Config, events: seq<Event>, states: seq<State>, j: nat)
    requires IsRun(c, events, states)
    requires j < |states[|events|].log| && states[|events|].log[j].Finished?
    ensures var o := states[|events|].log[j];
            0.0 <= o.waited <= Max0(o.outcome.attempts) as real * Timeout(c)
  {
    RunCorrelated(c, events, states);
    assert AckJustified(c, states[|events|].log[..j], states[|events|].log[j]);
  }

  // ----- One execution at a time -----

  predicate Executing(stage: Stage) {
    HasJob(stage) && stage.job.attempt >= 1
  }

  ghost predicate Solo(s: State) {
    forall t, u | t in s.threads && u in s.threads && t != u :: !(Executing(s.threads[t]) && Executing(s.threads[u]))
  }

  /** From `d` on, everything taken off the queue was examined by this command. */
  ghost predicate OwnSince(log: seq<Obs>, d: nat, token: Token) {
    && d < |log| && log[d] == DrainDone(token)
    && forall x | d < x < |log| :: !log[x].Drained? && (log[x].Examined? ==> log[x].token == token)
  }

  ghost predicate Own(s: State, t: Thread) {
    PastDrain(At(s, t)) ==> exists d :: OwnSince(s.log, d, At(s, t).job.token)
  }

  lemma OwnAppend(log: seq<Obs>, seen: seq<Obs>, token: Token)
    requires exists d :: OwnSince(log, d, token)
    requires forall o | o in seen :: !o.Drained? && (o.Examined? ==> o.token == token)
    ensures exists d :: OwnSince(log + seen, d, token)
  {
    var d :| OwnSince(log, d, token);
    assert OwnSince(log + seen, d, token);
  }

  lemma OwnTurn(c: Config, s: State, t: Thread, ok: bool, u: Thread)
    requires Ledger(c, s) && Solo(s) && Enabled(c, s, Turn(t, ok)) && Own(s, u)
    ensures Own(Step(c, s, Turn(t, ok)), u)
  {
    var stage, after := At(s, t), Step(c, s, Turn(t, ok));
    var e := Act(c, s, stage, ok);
    if PastDrain(At(after, u)) {
      if t == u {
        assert HasJob(stage) ==> Held(c, s.log, stage);
        OwnAct(c, s, stage, ok);
      } else {
        assert !Executing(stage);
        OthersDequeueNothing(c, s, stage, ok);
        OwnAppend(s.log, e.seen, At(s, u).job.token);
      }
    }
  }

  lemma OthersDequeueNothing(c: Config, s: State, stage: Stage, ok: bool)
    requires !Executing(stage) && (HasJob(stage) ==> Placed(c, stage))
    ensures forall o | o in Act(c, s, stage, ok).seen :: !o.Drained? && !o.Examined?
  {
  }

  lemma OwnAct(c: Config, s: State, stage: Stage, ok: bool)
    requires HasJob(stage) ==> Placed(c, stage)
    requires PastDrain(stage) ==> exists d :: OwnSince(s.log, d, stage.job.token)
    ensures var e := Act(c, s, stage, ok);
            PastDrain(e.stage) ==> exists d :: OwnSince(s.log + e.seen, d, e.stage.job.token)
  {
    var e := Act(c, s, stage, ok);
    if PastDrain(e.stage) {
      if PastDrain(stage) {
        OwnExamines(c, s, stage, ok);
        OwnAppend(s.log, e.seen, stage.job.token);
      } else {
        DrainEnds(c, s, stage, ok);
        assert OwnSince(s.log + e.seen, |s.log|, e.stage.job.token);
      }
    }
  }

  lemma OwnExamines(c: Config, s: State, stage: Stage, ok: bool)
    requires PastDrain(stage)
    ensures var e := Act(c, s, stage, ok);
            && (HasJob(e.stage) ==> e.stage.job.token == stage.job.token)
            && forall o | o in e.seen :: !o.Drained? && (o.Examined? ==> o.token == stage.job.token)
  {
  }

  lemma DrainEnds(c: Config, s: State, stage: Stage, ok: bool)
    requires HasJob(stage) ==> Placed(c, stage)
    requires !PastDrain(stage) && PastDrain(Act(c, s, stage, ok).stage)
    ensures var e := Act(c, s, stage, ok); e.seen == [DrainDone(e.stage.job.token)]
  {
  }

  lemma {:induction false} RunIsOwn(c: Config, events: seq<Event>, states: seq<State>, t: Thread)
    requires IsRun(c, events, states)
    requires forall i | 0 <= i <= |events| :: Solo(states[i])
    ensures Own(states[|events|], t)
  {
    if events != [] {
      var k := |events| - 1;
      assert forall i | 0 <= i < k :: events[..k][i] == events[i];
      RunIsOwn(c, events[..k], states[..k + 1], t);
      RunCorrelated(c, events[..k], states[..k + 1]);
      OwnStep(c, states[k], events[k], t);
    }
  }

  lemma OwnStep(c: Config, s: State, e: Event, t: Thread)
    requires Ledger(c, s) && Solo(s) && Enabled(c, s, e) && Own(s, t)
    ensures Own(Step(c, s, e), t)
  {
    if e.Turn? {
      OwnTurn(c, s, e.thread, e.ok, t);
    } else if PastDrain(At(Step(c, s, e), t)) {
      assert PastDrain(At(s, t)) && At(s, t).job.token == At(Step(c, s, e), t).job.token;
      var added := Step(c, s, e).log[|s.log|..];
      assert Step(c, s, e).log == s.log + added;
      OwnAppend(s.log, added, At(s, t).job.token);
    }
  }

  lemma {:induction false} OutOfTail(log: seq<Obs>, d: nat)
    requires d <= |log|
    ensures Out(log) == Out(log[..d]) + Out(log[d..])
  {
    if d < |log| {
      var init := log[..|log| - 1];
      OutOfTail(init, d);
      assert init[..d] == log[..d] && log[d..][..|log| - 1 - d] == init[d..];
    } else {
      assert log[..d] == log;
    }
  }

  /** While commands execute one at a time, the ACKs that arrived since this command's
      drain are, in order, those it has examined followed by those still queued. */
  lemma NoAckLost(c: Config, events: seq<Event>, states: seq<State>, t: Thread) returns (d: nat)
    requires IsRun(c, events, states)
    requires forall i | 0 <= i <= |events| :: Solo(states[i])
    requires PastDrain(At(states[|events|], t))
    ensures var s := states[|events|];
            && OwnSince(s.log, d, At(s, t).job.token)
            && In(s.log) == In(s.log[..d]) + Out(s.log[d..]) + s.queue
  {
    RunIsOwn(c, events, states, t);
    RunCorrelated(c, events, states);
    var s := states[|events|];
    d :| OwnSince(s.log, d, At(s, t).job.token);
    assert AckJustified(c, s.log[..d], s.log[d]);
    OutOfTail(s.log, d);
  }
}
