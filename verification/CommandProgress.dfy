/** What the command path does when nothing stands in its way, and why it ever stops short. */
module CommandProgress {
  import opened Options
  import opened Commands
  import opened CommandPath
  import opened CommandLedger
  import CommandWaits

  // ----- One command, step by step -----

  /** Between s and u thread t alone has moved, to the given place, and the log has grown. */
  predicate Moved(s: State, u: State, t: Thread, place: Stage) {
    && u.threads == s.threads[t := place] && s.log <= u.log
    && u.queue == s.queue && u.used == s.used && u.now == s.now && u.lastBeat == s.lastBeat
  }

  lemma LookUp(c: Config, s: State, t: Thread, token: Token, force: bool) returns (u: State)
    requires At(s, t).Idle? && token in s.pending
    ensures Follows(c, s, u) && Moved(s, u, t, Checked(token, force)) && u.pending == s.pending
  {
    StepFollows(c, s, Confirm(t, token, force));
    u := Step(c, s, Confirm(t, token, force));
  }

  lemma PassGate(c: Config, s: State, t: Thread, token: Token, force: bool) returns (u: State)
    requires At(s, t) == Checked(token, force) && token in s.pending
    requires s.pending[token].requiresForceConfirm ==> force
    ensures Follows(c, s, u) && Moved(s, u, t, Popping(token, s.pending[token], force)) && u.pending == s.pending
  {
    StepFollows(c, s, Turn(t, true));
    u := Step(c, s, Turn(t, true));
  }

  lemma Pop(c: Config, s: State, t: Thread, token: Token, spec: Spec, force: bool) returns (u: State)
    requires At(s, t) == Popping(token, spec, force) && token in s.pending
    ensures var job := Job(token, spec, 0, None, 0.0);
            Follows(c, s, u) && Moved(s, u, t, if spec.name == "arm" then Interlock(job) else Announcing(job))
    ensures u.pending == s.pending - {token}
  {
    StepFollows(c, s, Turn(t, true));
    u := Step(c, s, Turn(t, true));
  }

  /** The health provider and the interlock would both take the last heartbeat for fresh. */
  predicate BeatIsFresh(c: Config, s: State) {
    && c.hasHealth && s.lastBeat.Some?
    && s.now - s.lastBeat.value <= c.healthMaxAgeS
    && s.now - s.lastBeat.value <= c.settings.armReportMaxAgeS
  }

  lemma Look(c: Config, s: State, t: Thread, job: Job) returns (u: State)
    requires At(s, t) == Interlock(job) && BeatIsFresh(c, s)
    ensures Follows(c, s, u)
    ensures exists report ::
              && Moved(s, u, t, Deciding(job, Some(report)))
              && report.armPermitted && report.tMono == s.lastBeat.value
  {
    StepFollows(c, s, Turn(t, true));
    u := Step(c, s, Turn(t, true));
    assert Moved(s, u, t, Deciding(job, Some(At(u, t).report.value)));
  }

  lemma PassInterlock(c: Config, s: State, t: Thread, job: Job) returns (u: State)
    requires At(s, t) == Interlock(job) && BeatIsFresh(c, s)
    ensures Follows(c, s, u) && Moved(s, u, t, Announcing(job))
  {
    var m := Look(c, s, t, job);
    StepFollows(c, m, Turn(t, true));
    u := Step(c, m, Turn(t, true));
    FollowsOn(c, s, m, u);
  }

  lemma Announce(c: Config, s: State, t: Thread, job: Job) returns (u: State)
    requires At(s, t) == Announcing(job) && job.attempt == 0 && c.settings.maxAttempts >= 1
    ensures Follows(c, s, u) && Moved(s, u, t, Logging(job.(attempt := 1))) && u.pending == s.pending
  {
    StepFollows(c, s, Turn(t, true));
    u := Step(c, s, Turn(t, true));
  }

  lemma LogAttempt(c: Config, s: State, t: Thread, job: Job) returns (u: State)
    requires At(s, t) == Logging(job) && job.attempt == 1
    ensures Follows(c, s, u) && Moved(s, u, t, Draining(job)) && u.pending == s.pending
  {
    StepFollows(c, s, Turn(t, true));
    u := Step(c, s, Turn(t, true));
  }

  lemma ReachPop(c: Config, s: State, t: Thread, token: Token, force: bool) returns (u: State)
    requires At(s, t).Idle? && token in s.pending && (s.pending[token].requiresForceConfirm ==> force)
    ensures var spec := s.pending[token]; var job := Job(token, spec, 0, None, 0.0);
            Follows(c, s, u) && Moved(s, u, t, if spec.name == "arm" then Interlock(job) else Announcing(job))
  {
    var s1 := LookUp(c, s, t, token, force);
    var s2 := PassGate(c, s1, t, token, force);
    u := Pop(c, s2, t, token, s.pending[token], force);
    FollowsOn(c, s, s1, s2);
    FollowsOn(c, s, s2, u);
  }

  lemma ReachRelease(c: Config, s: State, t: Thread, token: Token, force: bool) returns (u: State)
    requires At(s, t).Idle? && Confirmable(c, s, token, force)
    ensures Follows(c, s, u) && Moved(s, u, t, Announcing(Job(token, s.pending[token], 0, None, 0.0)))
  {
    u := ReachPop(c, s, t, token, force);
    if s.pending[token].name == "arm" {
      var m := u;
      u := PassInterlock(c, m, t, Job(token, s.pending[token], 0, None, 0.0));
      FollowsOn(c, s, m, u);
    }
  }

  /** The command is staged, acknowledged if it must be, and an arm has a fresh heartbeat behind it. */
  predicate Confirmable(c: Config, s: State, token: Token, force: bool) {
    && token in s.pending && (s.pending[token].requiresForceConfirm ==> force)
    && (s.pending[token].name == "arm" ==> BeatIsFresh(c, s))
  }

  /** A thread confirms a command and gets as far as its drain loop. */
  lemma ReachDrain(c: Config, s: State, t: Thread, token: Token, force: bool) returns (u: State)
    requires c.settings.maxAttempts >= 1
    requires At(s, t).Idle? && Confirmable(c, s, token, force)
    ensures Follows(c, s, u) && Moved(s, u, t, Draining(Job(token, s.pending[token], 1, None, 0.0)))
  {
    var s1 := ReachRelease(c, s, t, token, force);
    var s2 := Announce(c, s1, t, Job(token, s.pending[token], 0, None, 0.0));
    u := LogAttempt(c, s2, t, Job(token, s.pending[token], 1, None, 0.0));
    FollowsOn(c, s, s1, s2);
    FollowsOn(c, s, s2, u);
  }

  lemma Arrive(c: Config, s: State, ack: Ack) returns (u: State)
    ensures Follows(c, s, u) && u.threads == s.threads && u.queue == s.queue + [ack]
    ensures u.log == s.log + [Enqueued(ack)]
  {
    StepFollows(c, s, Read(CommandAck(ack)));
    u := Step(c, s, Read(CommandAck(ack)));
  }

  lemma DiscardOne(c: Config, s: State, t: Thread, job: Job) returns (u: State)
    requires At(s, t) == Draining(job) && s.queue != []
    ensures Follows(c, s, u) && u.threads == s.threads && u.queue == s.queue[1..]
    ensures u.log == s.log + [Drained(s.queue[0])]
  {
    StepFollows(c, s, Turn(t, true));
    u := Step(c, s, Turn(t, true));
    assert u.threads == s.threads;
  }

  /** A drain that runs on takes everything there is off the queue, the last ACK last. */
  lemma {:induction false} DiscardAll(c: Config, s: State, t: Thread, job: Job) returns (u: State)
    requires At(s, t) == Draining(job) && s.queue != []
    ensures Follows(c, s, u) && u.threads == s.threads && u.queue == [] && s.log < u.log
    ensures u.log[|u.log| - 1] == Drained(s.queue[|s.queue| - 1])
    decreases |s.queue|
  {
    u := DiscardOne(c, s, t, job);
    if |s.queue| > 1 {
      var m := u;
      u := DiscardAll(c, m, t, job);
      FollowsOn(c, s, m, u);
    }
  }

  lemma FinishDrain(c: Config, s: State, t: Thread, job: Job) returns (u: State)
    requires At(s, t) == Draining(job) && s.queue == []
    ensures Follows(c, s, u) && Moved(s, u, t, Sending(job))
  {
    StepFollows(c, s, Turn(t, true));
    u := Step(c, s, Turn(t, true));
  }

  /** A drain nobody feeds comes to its end. */
  lemma DrainAll(c: Config, s: State, t: Thread, job: Job) returns (u: State)
    requires At(s, t) == Draining(job)
    ensures Follows(c, s, u) && At(u, t) == Sending(job) && u.queue == []
  {
    var m := s;
    if s.queue != [] {
      m := DiscardAll(c, s, t, job);
      u := FinishDrain(c, m, t, job);
      FollowsOn(c, s, m, u);
    } else {
      u := FinishDrain(c, s, t, job);
    }
  }

  lemma SendFrame(c: Config, s: State, t: Thread, job: Job) returns (u: State)
    requires At(s, t) == Sending(job)
    ensures Follows(c, s, u) && At(u, t) == Timing(job) && u.queue == s.queue
    ensures u.log == s.log + [Sent(job.token, job.spec, job.attempt)]
  {
    StepFollows(c, s, Turn(t, true));
    u := Step(c, s, Turn(t, true));
  }

  lemma {:induction false} GoesFollows(c: Config, s: State, t: Thread, turns: nat, u: State)
    requires CommandWaits.GoesOn(c, s, t, turns, u)
    ensures Follows(c, s, u) && s.log <= u.log
    decreases turns
  {
    if turns == 0 {
      assert Leads(c, s, [], u);
    } else {
      var m := Step(c, s, Turn(t, true));
      StepFollows(c, s, Turn(t, true));
      GoesFollows(c, m, t, turns - 1, u);
      FollowsOn(c, s, m, u);
    }
  }

  lemma ReportAccepted(c: Config, s: State, t: Thread, job: Job, ack: Ack) returns (u: State)
    requires At(s, t) == Recording(job, Some(ack)) && ack.result == 0
    ensures Follows(c, s, u) && At(u, t).Idle? && s.log <= u.log
    ensures u.log != []
    ensures u.log[|u.log| - 1] == Finished(job.token, Outcome(true, Some(0), job.attempt, Success), job.waited)
  {
    StepFollows(c, s, Turn(t, true));
    u := Step(c, s, Turn(t, true));
  }

  /** An accepting ACK that arrives right after the frame has left makes the command accepted. */
  lemma AnsweredIsAccepted(c: Config, s: State, t: Thread, job: Job, ack: Ack) returns (u: State)
    requires At(s, t) == Sending(job) && s.queue == [] && c.settings.ackTimeoutS > 0.0
    requires CommandWaits.Answers(c, job.spec, ack) && ack.result == 0
    ensures Follows(c, s, u) && At(u, t).Idle? && Sent(job.token, job.spec, job.attempt) in u.log
    ensures u.log[|u.log| - 1] == Finished(job.token, Outcome(true, Some(0), job.attempt, Success), job.waited)
  {
    var s1 := SendFrame(c, s, t, job);
    var s2 := Arrive(c, s1, ack);
    var s3 := CommandWaits.StartsAndTakes(c, s2, t);
    GoesFollows(c, s2, t, 3, s3);
    u := ReportAccepted(c, s3, t, job, ack);
    FollowsOn(c, s, s1, s2);
    FollowsOn(c, s, s2, s3);
    FollowsOn(c, s, s3, u);
    assert s1.log[|s.log|] == Sent(job.token, job.spec, job.attempt);
    assert s1.log <= u.log;
  }

  /** From any state: a command that an idle thread may confirm can be sent, and be accepted on its first attempt. */
  lemma CommandGoesThrough(c: Config, s: State, t: Thread, token: Token, force: bool, ack: Ack) returns (u: State)
    requires c.settings.maxAttempts >= 1 && c.settings.ackTimeoutS > 0.0
    requires At(s, t).Idle? && Confirmable(c, s, token, force)
    requires CommandWaits.Answers(c, s.pending[token], ack) && ack.result == 0
    ensures Follows(c, s, u) && At(u, t).Idle? && Sent(token, s.pending[token], 1) in u.log
    ensures u.log[|u.log| - 1] == Finished(token, Outcome(true, Some(0), 1, Success), 0.0)
  {
    var job := Job(token, s.pending[token], 1, None, 0.0);
    var s1 := ReachDrain(c, s, t, token, force);
    var s2 := DrainAll(c, s1, t, job);
    u := AnsweredIsAccepted(c, s2, t, job, ack);
    FollowsOn(c, s, s1, s2);
    FollowsOn(c, s, s2, u);
  }

  // ----- What an attempt's answer leads to -----

  /** Zero accepts, and 2, 3, 4 and 6 refuse for good: the command ends, on record and with its outcome. */
  lemma VerdictEnds(c: Config, s: State, t: Thread)
    requires At(s, t).Recording? && At(s, t).ack.Some? && At(s, t).ack.value.result in {0, 2, 3, 4, 6}
    ensures var u, job, result := Step(c, s, Turn(t, true)), At(s, t).job, At(s, t).ack.value.result;
            var record := if result == 0 then Accepted(job.attempt) else Rejected(job.attempt, result);
            var reason := if result == 0 then Success else TerminalReject;
            var outcome := Outcome(result == 0, Some(result), job.attempt, reason);
            At(u, t).Idle? && u.log == s.log + [Audited(job.token, record), Finished(job.token, outcome, job.waited)]
  {
  }

  /** Any other answer, and silence, is recorded and leads to another attempt as long as there is one left; the last
      answer is remembered. */
  lemma OtherwiseRetried(c: Config, s: State, t: Thread)
    requires At(s, t).Recording?
    requires At(s, t).ack.Some? ==> At(s, t).ack.value.result !in {0, 2, 3, 4, 6}
    ensures var u, job, ack := Step(c, s, Turn(t, true)), At(s, t).job, At(s, t).ack;
            var next := if ack.Some? then job.(last := Some(ack.value.result)) else job;
            var record := if ack.Some? then Retry(job.attempt, ack.value.result) else NoAck(job.attempt);
            && u.log == s.log + [Audited(job.token, record)]
            && At(u, t) == if job.attempt < c.settings.maxAttempts then Logging(next.(attempt := job.attempt + 1))
                           else Failing(next)
  {
  }

  /** With no attempt left the command fails, with the last answer it got. */
  lemma ExhaustedFails(c: Config, s: State, t: Thread)
    requires At(s, t).Failing?
    ensures var u, job := Step(c, s, Turn(t, true)), At(s, t).job;
            var outcome := Outcome(false, job.last, c.settings.maxAttempts, ExhaustedRetries);
            && At(u, t).Idle?
            && u.log == s.log + [Audited(job.token, Failed(job.last)), Finished(job.token, outcome, job.waited)]
  {
  }

  predicate IsRetry(o: Obs, token: Token) { o.Audited? && o.token == token && o.record.Retry? }

  /** The result of the last answer recorded for a token that was not final. */
  function LastAnswer(log: seq<Obs>, token: Token): Option<int> {
    if log == [] then None
    else
      var o := log[|log| - 1];
      if IsRetry(o, token) then Some(o.record.result) else LastAnswer(log[..|log| - 1], token)
  }

  lemma AnswerOfOne(log: seq<Obs>, o: Obs, token: Token)
    ensures LastAnswer(log + [o], token) ==
            if IsRetry(o, token) then Some(o.record.result) else LastAnswer(log, token)
  {
    assert (log + [o])[..|log|] == log;
  }

  lemma {:induction false} AnswerOfOthers(log: seq<Obs>, seen: seq<Obs>, token: Token)
    requires forall o | o in seen :: !IsRetry(o, token)
    ensures LastAnswer(log + seen, token) == LastAnswer(log, token)
  {
    if seen == [] {
      assert log + seen == log;
    } else {
      var n := |seen| - 1;
      AnswerOfOthers(log, seen[..n], token);
      AnswerOfOne(log + seen[..n], seen[n], token);
      assert log + seen[..n] + [seen[n]] == log + seen;
    }
  }

  /** Each command remembers its own last answer, and one not released yet has none. */
  ghost predicate Remembers(s: State) {
    && (forall t | t in s.threads && HasJob(s.threads[t]) ::
          s.threads[t].job.last == LastAnswer(s.log, s.threads[t].job.token))
    && (forall token | Tally(s.log, token, IsReleased) == 0 :: LastAnswer(s.log, token) == None)
  }

  /** A statement records a retry of its own command only, and then remembers that answer. */
  lemma ActRemembers(c: Config, s: State, stage: Stage, ok: bool)
    requires HasJob(stage) && stage.job.last == LastAnswer(s.log, stage.job.token)
    ensures var e := Act(c, s, stage, ok);
            && (forall o, token | o in e.seen && token != stage.job.token :: !IsRetry(o, token))
            && (forall o | o in e.seen :: !o.Released?)
            && (HasJob(e.stage) ==>
                  && e.stage.job.token == stage.job.token
                  && e.stage.job.last == LastAnswer(s.log + e.seen, stage.job.token))
  {
    var e := Act(c, s, stage, ok);
    if |e.seen| == 1 {
      AnswerOfOne(s.log, e.seen[0], stage.job.token);
      assert e.seen == [e.seen[0]];
    } else if e.seen == [] {
      assert s.log + e.seen == s.log;
    }
  }

  lemma ReleaseRemembers(c: Config, s: State, stage: Stage, ok: bool)
    requires Ledger(c, s) && Remembers(s) && !HasJob(stage)
    ensures var e := Act(c, s, stage, ok);
            && (forall o, token | o in e.seen :: !IsRetry(o, token))
            && (HasJob(e.stage) ==> e.stage.job.last == LastAnswer(s.log + e.seen, e.stage.job.token))
  {
    var e := Act(c, s, stage, ok);
    if HasJob(e.stage) {
      assert Located(s, stage.id);
      AnswerOfOthers(s.log, e.seen, stage.id);
    }
  }

  lemma UnreleasedBefore(log: seq<Obs>, seen: seq<Obs>, token: Token)
    requires Tally(log + seen, token, IsReleased) == 0
    ensures Tally(log, token, IsReleased) == 0
  {
    TallyAppend(log, seen, token, IsReleased);
  }

  lemma TurnRemembers(c: Config, s: State, t: Thread, ok: bool)
    requires Ledger(c, s) && Remembers(s) && Enabled(c, s, Turn(t, ok))
    ensures Remembers(Step(c, s, Turn(t, ok)))
  {
    var stage, u := At(s, t), Step(c, s, Turn(t, ok));
    var e := Act(c, s, stage, ok);
    if HasJob(stage) {
      ActRemembers(c, s, stage, ok);
      assert Held(c, s.log, stage);
    } else {
      ReleaseRemembers(c, s, stage, ok);
    }
    forall x | x in u.threads && HasJob(u.threads[x])
      ensures u.threads[x].job.last == LastAnswer(u.log, u.threads[x].job.token)
    {
      if x != t {
        assert HasJob(stage) ==> s.threads[x].job.token != stage.job.token;
        AnswerOfOthers(s.log, e.seen, s.threads[x].job.token);
      }
    }
    forall token | Tally(u.log, token, IsReleased) == 0
      ensures LastAnswer(u.log, token) == None
    {
      UnreleasedBefore(s.log, e.seen, token);
      AnswerOfOthers(s.log, e.seen, token);
    }
  }

  lemma QuietRemembers(s: State, u: State, seen: seq<Obs>)
    requires Remembers(s) && u.log == s.log + seen && forall o, token | o in seen :: !IsRetry(o, token)
    requires forall t | t in u.threads && HasJob(u.threads[t]) ::
               t in s.threads && HasJob(s.threads[t])
               && u.threads[t].job.token == s.threads[t].job.token && u.threads[t].job.last == s.threads[t].job.last
    ensures Remembers(u)
  {
    forall t | t in u.threads && HasJob(u.threads[t])
      ensures u.threads[t].job.last == LastAnswer(u.log, u.threads[t].job.token)
    {
      AnswerOfOthers(s.log, seen, u.threads[t].job.token);
    }
    forall token | Tally(u.log, token, IsReleased) == 0
      ensures LastAnswer(u.log, token) == None
    {
      UnreleasedBefore(s.log, seen, token);
      AnswerOfOthers(s.log, seen, token);
    }
  }

  lemma StepRemembers(c: Config, s: State, e: Event)
    requires Ledger(c, s) && Remembers(s) && Enabled(c, s, e)
    ensures Remembers(Step(c, s, e))
  {
    if e.Turn? {
      TurnRemembers(c, s, e.thread, e.ok);
    } else {
      var u := Step(c, s, e);
      assert u.log == s.log + u.log[|s.log|..];
      QuietRemembers(s, u, u.log[|s.log|..]);
    }
  }

  lemma {:induction false} RunRemembers(c: Config, events: seq<Event>, states: seq<State>, k: nat)
    requires IsRun(c, events, states) && k < |states|
    ensures Remembers(states[k])
  {
    if k > 0 {
      RunRemembers(c, events, states, k - 1);
      CommandWaits.LedgerAt(c, events, states, k - 1);
      StepRemembers(c, states[k - 1], events[k - 1]);
    }
  }

  /** In every run: a command that fails for want of attempts is reported with the last answer on record for it, or
      with none if there was none. */
  lemma ExhaustedReportsLast(c: Config, events: seq<Event>, states: seq<State>, k: nat, t: Thread)
    requires IsRun(c, events, states) && k < |states| && At(states[k], t).Failing?
    ensures var s, token := states[k], At(states[k], t).job.token;
            var u := Step(c, s, Turn(t, true));
            u.log[|u.log| - 1].Finished? && u.log[|u.log| - 1].token == token
            && u.log[|u.log| - 1].outcome ==
               Outcome(false, LastAnswer(s.log, token), c.settings.maxAttempts, ExhaustedRetries)
  {
    RunRemembers(c, events, states, k);
    ExhaustedFails(c, states[k], t);
  }

  // ----- Heartbeats -----

  /** The time of the last heartbeat changes exactly on a heartbeat of the configured target. */
  lemma OnlyTargetBeats(c: Config, s: State, e: Event)
    requires Enabled(c, s, e)
    ensures var u := Step(c, s, e);
            if e == Read(Heartbeat(c.targetSystem, c.targetComponent))
            then u.lastBeat == Some(s.now) && u.log == s.log + [Beat(s.now)]
            else u.lastBeat == s.lastBeat && forall i | |s.log| <= i < |u.log| :: !u.log[i].Beat?
  {
  }

  /** Every heartbeat on record was sent by the target, at that time. */
  lemma {:induction false} BeatsAreTargets(c: Config, events: seq<Event>, states: seq<State>, k: nat, j: nat)
    returns (i: nat)
    requires IsRun(c, events, states) && k < |states| && j < |states[k].log| && states[k].log[j].Beat?
    ensures i < k && events[i] == Read(Heartbeat(c.targetSystem, c.targetComponent))
    ensures states[k].log[j] == Beat(states[i].now)
  {
    if k == 0 {
      assert false;
    }
    OnlyTargetBeats(c, states[k - 1], events[k - 1]);
    assert states[k - 1].log <= states[k].log by { LogGrows(c, states[k - 1], events[k - 1]); }
    if j < |states[k - 1].log| {
      i := BeatsAreTargets(c, events, states, k - 1, j);
    } else {
      i := k - 1;
    }
  }

  lemma LogGrows(c: Config, s: State, e: Event)
    requires Enabled(c, s, e)
    ensures s.log <= Step(c, s, e).log
  {
  }

  // ----- Why a thread ever stops -----

  /** The gate has nothing for this thread: the entry is gone, or lacks the acknowledgement. */
  predicate GateRefuses(s: State, stage: Stage) {
    || (stage.Checked? && (stage.id !in s.pending || (s.pending[stage.id].requiresForceConfirm && !stage.forceAck)))
    || (stage.Popping? && stage.id !in s.pending)
  }

  /** A thread stops only when something raised, when the gate refuses, when the interlock's refusal is on record, or
      with the outcome of its command. */
  lemma StopsOnlyForCause(c: Config, s: State, t: Thread, ok: bool)
    requires Enabled(c, s, Turn(t, ok)) && At(Step(c, s, Turn(t, ok)), t).Idle?
    ensures var seen := Step(c, s, Turn(t, ok)).log[|s.log|..];
            || !ok || GateRefuses(s, At(s, t))
            || (HasJob(At(s, t)) && seen != [] &&
                var token, last := At(s, t).job.token, seen[|seen| - 1];
                last == Audited(token, ArmBlocked) || (last.Finished? && last.token == token))
  {
  }

  // ----- The interlock -----

  lemma {:induction false} OthersLeaveStage(
      c: Config, events: seq<Event>, states: seq<State>, i: nat, j: nat, t: Thread)
    requires IsRun(c, events, states) && i <= j < |states| && At(states[i], t).Deciding?
    requires forall k | i <= k < j :: !(events[k].Turn? && events[k].thread == t)
    ensures At(states[j], t) == At(states[i], t)
  {
    if i < j {
      OthersLeaveStage(c, events, states, i, j - 1, t);
    }
  }

  /** The interlock lets an arm through exactly when there is a health provider that takes the last heartbeat for
      fresh when asked, and that heartbeat is still recent enough when compared with the clock. */
  lemma InterlockExactly(c: Config, events: seq<Event>, states: seq<State>, i: nat, j: nat, t: Thread)
    requires IsRun(c, events, states) && i < j < |events|
    requires At(states[i], t).Interlock?
    requires events[i].Turn? && events[i].thread == t && events[j].Turn? && events[j].thread == t
    requires forall k | i < k < j :: !(events[k].Turn? && events[k].thread == t)
    ensures At(states[j + 1], t).Announcing? || At(states[j + 1], t).Refusing?
    ensures At(states[j + 1], t).Announcing? <==>
            && c.hasHealth && states[i].lastBeat.Some?
            && states[i].now - states[i].lastBeat.value <= c.healthMaxAgeS
            && states[j].now - states[i].lastBeat.value <= c.settings.armReportMaxAgeS
  {
    OthersLeaveStage(c, events, states, i + 1, j, t);
  }
}
