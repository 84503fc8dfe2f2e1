/** Why a command may leave: every observation of every run is justified by what was
    observed before it. */
module CommandSafety {
  import opened Options
  import opened Commands
  import opened CommandPath
  import opened CommandLedger

  ghost predicate SpecSound(c: Config, log: seq<Obs>, token: Token, spec: Spec) {
    Staged(token, spec) in log && Buildable(c.settings, spec)
  }

  /** A heartbeat of the target, seen earlier, was recent enough when arming was judged. */
  ghost predicate ArmPermitted(log: seq<Obs>, token: Token) {
    exists beat, at :: Permitted(token, beat, at) in log
  }

  /** The pre-arm interlock lies behind this place in the code. */
  predicate PastInterlock(stage: Stage) {
    HasJob(stage) && !stage.Interlock? && !stage.Deciding? && !stage.Refusing?
  }

  ghost predicate JobSound(c: Config, log: seq<Obs>, job: Job) {
    && SpecSound(c, log, job.token, job.spec)
    && (exists forceAck :: Released(job.token, job.spec, forceAck) in log)
    && (job.spec.requiresForceConfirm ==> Released(job.token, job.spec, true) in log)
  }

  /** The health provider found this heartbeat fresh for the interlock of this command. */
  ghost predicate Vouched(log: seq<Obs>, token: Token, beat: real) {
    exists at :: Looked(token, beat, at) in log
  }

  ghost predicate PlaceSound(c: Config, log: seq<Obs>, stage: Stage)
    requires HasJob(stage)
  {
    var job := stage.job;
    && (PastDrain(stage) ==> DrainDone(job.token) in log)
    && (job.spec.name == "arm" && PastInterlock(stage) ==> ArmPermitted(log, job.token))
    && (stage.Draining? || stage.Sending? ==> Audited(job.token, Attempt(job.attempt)) in log)
    && (stage.Deciding? && stage.report.Some? && stage.report.value.armPermitted ==>
          Vouched(log, job.token, stage.report.value.tMono))
    && (stage.Recording? && stage.ack.Some? ==>
          Examined(job.token, stage.ack.value) in log && Matches(c, job, stage.ack.value))
  }

  ghost predicate StageSound(c: Config, log: seq<Obs>, stage: Stage) {
    && (stage.Popping? ==>
          SpecSound(c, log, stage.id, stage.popped) && (stage.popped.requiresForceConfirm ==> stage.forceAck))
    && (HasJob(stage) ==> JobSound(c, log, stage.job) && PlaceSound(c, log, stage))
  }

  ghost predicate Sound(c: Config, s: State) {
    && (forall token | token in s.pending :: SpecSound(c, s.log, token, s.pending[token]))
    && (s.lastBeat.Some? ==> Beat(s.lastBeat.value) in s.log)
    && (forall t | t in s.threads :: StageSound(c, s.log, s.threads[t]))
  }

  // ----- The justifications -----

  /** A frame leaves only for a staged, buildable command that was released once and never
      cancelled; its attempt was logged and stale ACKs were drained first, no audit write was
      lost, no earlier attempt concluded; the force magic needs the flag and the force acknowledgement; arming needs
      the interlock's permission. */
  ghost predicate SendJustified(c: Config, before: seq<Obs>, token: Token, spec: Spec, attempt: nat) {
    && Staged(token, spec) in before && Tally(before, token, IsStaged) == 1
    && Buildable(c.settings, spec)
    && (exists forceAck :: Released(token, spec, forceAck) in before)
    && Tally(before, token, IsReleased) == 1 && Tally(before, token, IsDiscarded) == 0
    && 1 <= attempt <= c.settings.maxAttempts
    && Tally(before, token, IsSent) == attempt - 1
    && Tally(before, token, IsAttempt) == attempt && Audited(token, Attempt(attempt)) in before
    && Tally(before, token, IsLost) == 0 && Tally(before, token, IsTerminal) == 0
    && DrainDone(token) in before
    && (ForceDisarms(spec) ==> c.settings.allowForceDisarm && Released(token, spec, true) in before)
    && (Arms(spec) ==> ArmPermitted(before, token))
  }

  /** An outcome is announced once, after exactly one terminal record; it reports the
      number of frames sent (a negative attempt bound is reported as it stands), and
      acceptance rests on an examined, matching, accepting ACK. */
  ghost predicate OutcomeJustified(c: Config, before: seq<Obs>, token: Token, outcome: Outcome) {
    && Tally(before, token, IsTerminal) == 1 && Tally(before, token, IsFinished) == 0
    && Tally(before, token, IsLost) == 0
    && Tally(before, token, IsSent) == Max0(outcome.attempts) == Tally(before, token, IsAttempt)
    && (outcome.accepted <==> outcome.reason == Success)
    && (outcome.reason == Success ==> outcome.result == Some(ACCEPTED))
    && (outcome.reason == TerminalReject ==> outcome.result.Some? && outcome.result.value in TERMINAL_FAILURES)
    && (outcome.reason == ExhaustedRetries ==> outcome.attempts == c.settings.maxAttempts)
    && (outcome.reason != ExhaustedRetries ==>
          exists ack, spec :: Examined(token, ack) in before && Staged(token, spec) in before
            && ack.command == spec.command && (c.expectSystem.Some? ==> ack.sourceSystem == c.expectSystem.value)
            && outcome.result == Some(ack.result))
  }

  ghost predicate Justified(c: Config, before: seq<Obs>, o: Obs) {
    match o
    case Staged(token, spec) => Buildable(c.settings, spec) && Tally(before, token, IsStaged) == 0
    case Released(token, spec, forceAck) =>
      && Staged(token, spec) in before
      && Tally(before, token, IsReleased) == 0 && Tally(before, token, IsDiscarded) == 0
      && (ForceDisarms(spec) ==> forceAck)
    case Looked(token, beat, at) =>
      && Beat(beat) in before && at - beat <= c.healthMaxAgeS
      && (exists spec, forceAck :: Released(token, spec, forceAck) in before)
    case Permitted(token, beat, at) =>
      at - beat <= c.settings.armReportMaxAgeS && Vouched(before, token, beat)
    case Sent(token, spec, attempt) => SendJustified(c, before, token, spec, attempt)
    case Finished(token, outcome, _) => OutcomeJustified(c, before, token, outcome)
    case _ => true
  }

  ghost predicate AllJustified(c: Config, log: seq<Obs>) {
    forall j | 0 <= j < |log| :: Justified(c, log[..j], log[j])
  }

  lemma JustifiedAppend(c: Config, log: seq<Obs>, o: Obs)
    requires AllJustified(c, log) && Justified(c, log, o)
    ensures AllJustified(c, log + [o])
  {
    forall j | 0 <= j < |log + [o]|
      ensures Justified(c, (log + [o])[..j], (log + [o])[j])
    {
      assert (log + [o])[..j] == log[..j];
      assert log[..|log|] == log;
    }
  }

  lemma SoundGrows(c: Config, log: seq<Obs>, seen: seq<Obs>)
    ensures forall stage | StageSound(c, log, stage) :: StageSound(c, log + seen, stage)
    ensures forall token, spec | SpecSound(c, log, token, spec) :: SpecSound(c, log + seen, token, spec)
  {
  }

  predicate SameCommand(a: Job, b: Job) {
    a.token == b.token && a.spec == b.spec
  }

  lemma ActKeepsCommand(c: Config, s: State, stage: Stage, ok: bool)
    requires HasJob(stage)
    ensures var e := Act(c, s, stage, ok); HasJob(e.stage) ==> SameCommand(e.stage.job, stage.job)
    ensures var e := Act(c, s, stage, ok); !HasJob(e.stage) ==> e.stage.Idle?
  {
  }

  lemma GatePlace(c: Config, s: State, stage: Stage, ok: bool)
    requires stage.Interlock? || stage.Deciding? || stage.Refusing? || stage.Announcing?
    requires PlaceSound(c, s.log, stage)
    requires stage.job.attempt == 0
    ensures var e := Act(c, s, stage, ok); HasJob(e.stage) ==> PlaceSound(c, s.log + e.seen, e.stage)
  {
    var e := Act(c, s, stage, ok);
    if stage.Deciding? && e.stage.Announcing? {
      assert Permitted(stage.job.token, stage.report.value.tMono, s.now) in s.log + e.seen;
    }
    if stage.Interlock? && e.stage.report.Some? && e.stage.report.value.armPermitted {
      assert Looked(stage.job.token, e.stage.report.value.tMono, s.now) in s.log + e.seen;
    }
  }

  lemma SendPlace(c: Config, s: State, stage: Stage, ok: bool)
    requires HasJob(stage) && !stage.Interlock? && !stage.Deciding? && !stage.Refusing? && !stage.Announcing?
    requires Placed(c, stage) && PlaceSound(c, s.log, stage)
    ensures var e := Act(c, s, stage, ok); HasJob(e.stage) ==> PlaceSound(c, s.log + e.seen, e.stage)
  {
    assert PastInterlock(stage);
  }

  lemma PopSound(c: Config, s: State, stage: Stage, ok: bool)
    requires StageSound(c, s.log, stage) && stage.Popping?
    ensures var e := Act(c, s, stage, ok); StageSound(c, s.log + e.seen, e.stage)
  {
    var e := Act(c, s, stage, ok);
    if HasJob(e.stage) {
      assert Released(stage.id, stage.popped, stage.forceAck) in s.log + e.seen;
    }
  }

  /** The thread's next place is sound after its statement. */
  lemma ActSound(c: Config, s: State, stage: Stage, ok: bool)
    requires StageSound(c, s.log, stage) && (HasJob(stage) ==> Placed(c, stage))
    requires forall token | token in s.pending :: SpecSound(c, s.log, token, s.pending[token])
    ensures var e := Act(c, s, stage, ok); StageSound(c, s.log + e.seen, e.stage)
  {
    if HasJob(stage) {
      ActKeepsCommand(c, s, stage, ok);
      if stage.Interlock? || stage.Deciding? || stage.Refusing? || stage.Announcing? {
        GatePlace(c, s, stage, ok);
      } else {
        SendPlace(c, s, stage, ok);
      }
    } else if stage.Popping? {
      PopSound(c, s, stage, ok);
    }
  }

  // ----- Every new observation is justified -----

  lemma ReleaseJustified(c: Config, s: State, stage: Stage)
    requires Ledger(c, s) && StageSound(c, s.log, stage) && stage.Popping? && stage.id in s.pending
    ensures Justified(c, s.log, Released(stage.id, stage.popped, stage.forceAck))
  {
    assert Located(s, stage.id);
    BuiltIsWhatItSays(c.settings, stage.popped);
  }

  lemma SentJustified(c: Config, s: State, stage: Stage)
    requires stage.Sending? && Held(c, s.log, stage) && Located(s, stage.job.token)
    requires StageSound(c, s.log, stage)
    ensures Justified(c, s.log, Sent(stage.job.token, stage.job.spec, stage.job.attempt))
  {
    BuiltIsWhatItSays(c.settings, stage.job.spec);
    assert s.log != [] && Tally(s.log, stage.job.token, IsStaged) == 1;
  }

  /** What a statement reports last is justified once what it reports first is in the log. */
  ghost predicate SeenJustified(c: Config, log: seq<Obs>, seen: seq<Obs>) {
    && |seen| <= 2
    && (|seen| > 0 ==> Justified(c, log, seen[0]))
    && (|seen| > 1 ==> Justified(c, log + [seen[0]], seen[1]))
  }

  /** A terminal record after an answer, and the outcome that goes with it. */
  predicate Answers(stage: Stage, record: Obs, outcome: Outcome) {
    && stage.Recording? && stage.ack.Some? && outcome.reason != ExhaustedRetries
    && outcome.result == Some(stage.ack.value.result) && outcome.attempts == stage.job.attempt
    && (outcome.accepted <==> outcome.reason == Success)
    && (if outcome.accepted
        then stage.ack.value.result == ACCEPTED
             && record == Audited(stage.job.token, Accepted(stage.job.attempt))
        else stage.ack.value.result in TERMINAL_FAILURES
             && record == Audited(stage.job.token, Rejected(stage.job.attempt, stage.ack.value.result)))
  }

  lemma AnswerTallies(c: Config, log: seq<Obs>, stage: Stage, record: Obs, outcome: Outcome)
    requires Answers(stage, record, outcome) && Held(c, log, stage)
    ensures var before, token := log + [record], stage.job.token;
            && Tally(before, token, IsTerminal) == 1 && Tally(before, token, IsFinished) == 0
            && Tally(before, token, IsLost) == 0
            && Tally(before, token, IsSent) == Max0(outcome.attempts) == Tally(before, token, IsAttempt)
  {
    OneMore(log, record);
  }

  lemma AnswerJustified(c: Config, log: seq<Obs>, stage: Stage, record: Obs, outcome: Outcome)
    requires Answers(stage, record, outcome) && Held(c, log, stage) && StageSound(c, log, stage)
    ensures OutcomeJustified(c, log + [record], stage.job.token, outcome)
  {
    AnswerTallies(c, log, stage, record, outcome);
    var before, token, ack, spec := log + [record], stage.job.token, stage.ack.value, stage.job.spec;
    assert Examined(token, ack) in before && Staged(token, spec) in before;
    assert ack.command == spec.command && (c.expectSystem.Some? ==> ack.sourceSystem == c.expectSystem.value);
  }

  lemma ConcludeJustified(c: Config, s: State, stage: Stage, ok: bool)
    requires stage.Recording? && Held(c, s.log, stage) && StageSound(c, s.log, stage)
    ensures SeenJustified(c, s.log, Act(c, s, stage, ok).seen)
  {
    var seen := Act(c, s, stage, ok).seen;
    if |seen| == 2 {
      AnswerJustified(c, s.log, stage, seen[0], seen[1].outcome);
    }
  }

  lemma FailJustified(c: Config, s: State, stage: Stage, ok: bool)
    requires stage.Failing? && Held(c, s.log, stage)
    ensures SeenJustified(c, s.log, Act(c, s, stage, ok).seen)
  {
    var seen := Act(c, s, stage, ok).seen;
    OneMore(s.log, seen[0]);
  }

  lemma LookJustified(c: Config, s: State, stage: Stage, ok: bool)
    requires stage.Interlock? && StageSound(c, s.log, stage)
    requires s.lastBeat.Some? ==> Beat(s.lastBeat.value) in s.log
    ensures SeenJustified(c, s.log, Act(c, s, stage, ok).seen)
  {
  }

  /** Statements other than the five above report nothing that needs a reason. */
  lemma OtherJustified(c: Config, s: State, stage: Stage, ok: bool)
    requires !stage.Popping? && !stage.Sending? && !stage.Recording? && !stage.Failing? && !stage.Interlock?
    requires StageSound(c, s.log, stage)
    ensures SeenJustified(c, s.log, Act(c, s, stage, ok).seen)
  {
  }

  lemma SeenAppend(c: Config, log: seq<Obs>, seen: seq<Obs>)
    requires AllJustified(c, log) && SeenJustified(c, log, seen)
    ensures AllJustified(c, log + seen)
  {
    if |seen| == 0 {
      assert log + seen == log;
    } else {
      JustifiedAppend(c, log, seen[0]);
      if |seen| == 1 {
        assert seen == [seen[0]];
      } else {
        JustifiedAppend(c, log + [seen[0]], seen[1]);
        assert log + seen == log + [seen[0]] + [seen[1]];
      }
    }
  }

  lemma ActJustified(c: Config, s: State, stage: Stage, ok: bool)
    requires Ledger(c, s) && StageSound(c, s.log, stage)
    requires HasJob(stage) ==> Held(c, s.log, stage)
    requires s.lastBeat.Some? ==> Beat(s.lastBeat.value) in s.log
    ensures SeenJustified(c, s.log, Act(c, s, stage, ok).seen)
  {
    if stage.Recording? {
      ConcludeJustified(c, s, stage, ok);
    } else if stage.Failing? {
      FailJustified(c, s, stage, ok);
    } else if stage.Popping? {
      if stage.id in s.pending {
        ReleaseJustified(c, s, stage);
      }
    } else if stage.Sending? {
      assert Located(s, stage.job.token);
      SentJustified(c, s, stage);
    } else if stage.Interlock? {
      LookJustified(c, s, stage, ok);
    } else {
      OtherJustified(c, s, stage, ok);
    }
  }

  lemma TurnJustified(c: Config, s: State, t: Thread, ok: bool)
    requires Ledger(c, s) && Sound(c, s) && AllJustified(c, s.log) && Enabled(c, s, Turn(t, ok))
    ensures AllJustified(c, Step(c, s, Turn(t, ok)).log)
  {
    ActJustified(c, s, At(s, t), ok);
    SeenAppend(c, s.log, Act(c, s, At(s, t), ok).seen);
  }

  lemma ActKeepsPending(c: Config, s: State, stage: Stage, ok: bool)
    ensures var e := Act(c, s, stage, ok);
            forall token | token in e.pending :: token in s.pending && e.pending[token] == s.pending[token]
  {
  }

  /** A longer log, one thread moved to a sound place, and no new command pending. */
  lemma SoundMoves(c: Config, s: State, after: State, t: Thread, next: Stage, seen: seq<Obs>)
    requires Sound(c, s) && after.log == s.log + seen && after.threads == s.threads[t := next]
    requires StageSound(c, after.log, next) && after.lastBeat == s.lastBeat
    requires forall token | token in after.pending :: token in s.pending && after.pending[token] == s.pending[token]
    ensures Sound(c, after)
  {
    SoundGrows(c, s.log, seen);
    forall u | u in after.threads
      ensures StageSound(c, after.log, after.threads[u])
    {
      if u != t {
        assert StageSound(c, s.log, s.threads[u]);
      }
    }
  }

  lemma TurnSound(c: Config, s: State, t: Thread, ok: bool)
    requires Ledger(c, s) && Sound(c, s) && Enabled(c, s, Turn(t, ok))
    ensures Sound(c, Step(c, s, Turn(t, ok)))
  {
    var stage := At(s, t);
    var e := Act(c, s, stage, ok);
    assert StageSound(c, s.log, stage) && (HasJob(stage) ==> Placed(c, stage)) by {
      assert HasJob(stage) ==> Held(c, s.log, stage);
    }
    ActSound(c, s, stage, ok);
    ActKeepsPending(c, s, stage, ok);
    SoundMoves(c, s, Step(c, s, Turn(t, ok)), t, e.stage, e.seen);
  }

  lemma StagingSound(c: Config, s: State, e: Event)
    requires Ledger(c, s) && Sound(c, s) && AllJustified(c, s.log) && Enabled(c, s, e) && e.StageCommand?
    ensures Sound(c, Step(c, s, e)) && AllJustified(c, Step(c, s, e).log)
  {
    var spec := BuildCommand(e.name, c.settings, e.args).spec;
    assert Located(s, e.token);
    assert Buildable(c.settings, spec);
    SoundGrows(c, s.log, [Staged(e.token, spec)]);
    assert Staged(e.token, spec) in Step(c, s, e).log;
    JustifiedAppend(c, s.log, Staged(e.token, spec));
  }

  /** What the reader and a cancel report needs no reason. */
  lemma UnrelatedSound(c: Config, s: State, after: State, o: Obs)
    requires Sound(c, s) && AllJustified(c, s.log) && (o.Beat? || o.Enqueued? || o.Discarded?)
    requires after.log == s.log + [o] && after.threads == s.threads
    requires after.lastBeat == s.lastBeat || (o.Beat? && after.lastBeat == Some(o.at))
    requires forall token | token in after.pending :: token in s.pending && after.pending[token] == s.pending[token]
    ensures Sound(c, after) && AllJustified(c, after.log)
  {
    SoundGrows(c, s.log, [o]);
    JustifiedAppend(c, s.log, o);
  }

  lemma EnvironmentSound(c: Config, s: State, e: Event)
    requires Sound(c, s) && AllJustified(c, s.log) && Enabled(c, s, e) && (e.Cancel? || e.Read? || e.Confirm?)
    ensures Sound(c, Step(c, s, e)) && AllJustified(c, Step(c, s, e).log)
  {
    var after := Step(c, s, e);
    if |after.log| > |s.log| {
      UnrelatedSound(c, s, after, after.log[|s.log|]);
    }
  }

  lemma TickSound(c: Config, s: State, to: real)
    requires Sound(c, s) && Enabled(c, s, Tick(to))
    ensures Sound(c, Step(c, s, Tick(to)))
  {
    var after := Step(c, s, Tick(to));
    forall t | t in after.threads
      ensures StageSound(c, after.log, after.threads[t])
    {
      assert StageSound(c, s.log, s.threads[t]);
    }
  }

  // ----- Whole runs -----

  lemma {:induction false} RunIsSound(c: Config, events: seq<Event>, states: seq<State>)
    requires IsRun(c, events, states)
    ensures Ledger(c, states[|events|]) && Sound(c, states[|events|]) && AllJustified(c, states[|events|].log)
  {
    if events != [] {
      var k := |events| - 1;
      assert forall i | 0 <= i < k :: events[..k][i] == events[i];
      RunIsSound(c, events[..k], states[..k + 1]);
      var s, e := states[k], events[k];
      StepKeeps(c, s, e);
      match e {
        case Turn(t, ok) =>
          TurnJustified(c, s, t, ok);
          TurnSound(c, s, t, ok);
        case Tick(to) => TickSound(c, s, to);
        case StageCommand(_, _, _) => StagingSound(c, s, e);
        case _ => EnvironmentSound(c, s, e);
      }
    }
  }

  /** Whole-run command safety: in every run, with any number of threads confirming at
      once, every frame that leaves is justified by what happened before it. */
  lemma EverySendIsJustified(c: Config, events: seq<Event>, states: seq<State>, j: nat)
    requires IsRun(c, events, states)
    requires j < |states[|events|].log| && states[|events|].log[j].Sent?
    ensures var log := states[|events|].log;
            SendJustified(c, log[..j], log[j].token, log[j].spec, log[j].attempt)
  {
    RunIsSound(c, events, states);
  }

  lemma EveryOutcomeIsJustified(c: Config, events: seq<Event>, states: seq<State>, j: nat)
    requires IsRun(c, events, states)
    requires j < |states[|events|].log| && states[|events|].log[j].Finished?
    ensures var log := states[|events|].log;
            OutcomeJustified(c, log[..j], log[j].token, log[j].outcome)
  {
    RunIsSound(c, events, states);
  }

  /** Arming: behind an arm frame stands a permission, behind that the provider's look at a heartbeat of the
      target seen before, within both age limits, all after the token was released. */
  lemma ArmRestsOnHeartbeat(c: Config, events: seq<Event>, states: seq<State>, j: nat)
    returns (r: nat, b: nat, l: nat, p: nat)
    requires IsRun(c, events, states)
    requires var log := states[|events|].log; j < |log| && log[j].Sent? && Arms(log[j].spec)
    ensures var log := states[|events|].log;
            && b < l < p < j && r < l
            && log[p].Permitted? && log[p].token == log[j].token
            && log[p].at - log[p].beat <= c.settings.armReportMaxAgeS
            && log[l].Looked? && log[l].token == log[j].token && log[l].beat == log[p].beat
            && log[l].at - log[l].beat <= c.healthMaxAgeS
            && log[b] == Beat(log[p].beat)
            && log[r].Released? && log[r].token == log[j].token
  {
    EverySendIsJustified(c, events, states, j);
    RunIsSound(c, events, states);
    var log := states[|events|].log;
    var beat, at :| Permitted(log[j].token, beat, at) in log[..j];
    p := Position(log, j, Permitted(log[j].token, beat, at));
    r, b, l := BehindPermission(c, log, p);
  }

  lemma BehindPermission(c: Config, log: seq<Obs>, p: nat) returns (r: nat, b: nat, l: nat)
    requires AllJustified(c, log) && p < |log| && log[p].Permitted?
    ensures b < l < p && r < l && log[p].at - log[p].beat <= c.settings.armReportMaxAgeS
    ensures log[l].Looked? && log[l].token == log[p].token && log[l].beat == log[p].beat
    ensures log[l].at - log[l].beat <= c.healthMaxAgeS
    ensures log[b] == Beat(log[p].beat) && log[r].Released? && log[r].token == log[p].token
  {
    assert Justified(c, log[..p], log[p]);
    var token, beat := log[p].token, log[p].beat;
    var seenAt :| Looked(token, beat, seenAt) in log[..p];
    l := Position(log, p, Looked(token, beat, seenAt));
    assert Justified(c, log[..l], log[l]);
    b := Position(log, l, Beat(beat));
    var spec, forceAck :| Released(token, spec, forceAck) in log[..l];
    r := Position(log, l, Released(token, spec, forceAck));
  }

  lemma Position(log: seq<Obs>, before: nat, o: Obs) returns (i: nat)
    requires before <= |log| && o in log[..before]
    ensures i < before && log[i] == o
  {
    i :| 0 <= i < before && log[..before][i] == o;
  }

  /** However many threads confirm a token at once, and whoever cancels it meanwhile, at
      most one obtains it, never together with a cancel, and at most `maxAttempts` frames
      follow. */
  lemma OneWinner(c: Config, events: seq<Event>, states: seq<State>, token: Token)
    requires IsRun(c, events, states)
    ensures var s := states[|events|];
            && Tally(s.log, token, IsReleased) + Tally(s.log, token, IsDiscarded)
               + (if token in s.pending then 1 else 0)
               == (if token in s.used then 1 else 0)
            && Tally(s.log, token, IsSent) <= Tally(s.log, token, IsAttempt) <= Max0(c.settings.maxAttempts)
            && Tally(s.log, token, IsFinished) <= 1
            && (Tally(s.log, token, IsSent) > 0 ==> Tally(s.log, token, IsReleased) == 1)
  {
    RunIsSound(c, events, states);
    assert Located(states[|events|], token) && Bounded(c, states[|events|].log, token);
  }

  /** After a lost audit write nothing more is sent for that command. */
  lemma LostAuditSilences(c: Config, events: seq<Event>, states: seq<State>, i: nat, j: nat)
    requires IsRun(c, events, states)
    requires i < j < |states[|events|].log|
    requires var log := states[|events|].log; log[i].AuditLost? && log[j].Sent?
    ensures var log := states[|events|].log; log[i].token != log[j].token
  {
    EverySendIsJustified(c, events, states, j);
    var log := states[|events|].log;
    TallyAt(log[..j], i, log[i].token, IsLost);
  }

  lemma {:induction false} TallyAt(log: seq<Obs>, i: nat, token: Token, kind: Kind)
    requires i < |log| && Is(log[i], token, kind)
    ensures Tally(log, token, kind) > 0
  {
    if i < |log| - 1 {
      TallyAt(log[..|log| - 1], i, token, kind);
    }
  }
}
