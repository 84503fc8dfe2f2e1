/** The code of the supervised command service, statement by statement. Between any two
    statements of the thread in question every other thread, the reader and the clock may
    take any number of steps; all of it is shown to be a run of the state machine. */
module CommandService {
  import opened Options
  import opened Commands
  import opened CommandPath
  import ArmGuard
  import CommandSafety

  datatype Confirmation =
    | Returned(outcome: Outcome)
    | UnknownConfirmation | ForceConfirmationRequired | ArmBlockedError
    | Raised          // an audit write or the link failed; the command is abandoned
    | Unfinished      // the caller stopped looking after a bounded number of loop turns

  datatype Tried = Heard(ack: Option<Ack>) | Broken | Pending

  datatype Awaited = Got(ack: Ack) | Nothing | StillWaiting

  /** Which audit writes and which sends of an execution succeed. */
  datatype Effects = Effects(writes: Record -> bool, sends: nat -> bool)

  ghost predicate AllWork(fx: Effects) {
    (forall record :: fx.writes(record)) && forall attempt :: fx.sends(attempt)
  }

  /** What the place in the code says about the command in execution, waiting time aside. */
  predicate Runs(stage: Stage, token: Token, spec: Spec, attempt: nat, last: Option<int>) {
    && !stage.Idle? && !stage.Checked? && !stage.Popping?
    && stage.job.token == token && stage.job.spec == spec && stage.job.attempt == attempt && stage.job.last == last
  }

  /** Only the time spent inside recv_ack may differ. */
  predicate Same(a: Job, b: Job) {
    a.token == b.token && a.spec == b.spec && a.attempt == b.attempt && a.last == b.last
  }

  predicate SamePlace(a: Stage, b: Stage) {
    a == b || (a.Receiving? && b.Receiving? && a.deadline == b.deadline && Same(a.job, b.job))
  }

  lemma OthersKeepPlace(c: Config, s: State, e: Event, me: Thread)
    requires Enabled(c, s, e) && !(e.Turn? && e.thread == me) && !(e.Confirm? && e.thread == me)
    ensures s.log <= Step(c, s, e).log && s.now <= Step(c, s, e).now
    ensures SamePlace(At(s, me), At(Step(c, s, e), me))
  {
  }

  lemma SamePlaceTransitive(a: Stage, b: Stage, d: Stage)
    requires SamePlace(a, b) && SamePlace(b, d)
    ensures SamePlace(a, d)
  {
  }

  class CommandService {
    const config: Config
    var now: real
    var lastBeat: Option<real>
    var pending: map<Token, Spec>
    var used: set<Token>
    var acks: seq<Ack>
    var threads: map<Thread, Stage>
    var log: seq<Obs>

    function View(): State
      reads this
    {
      State(now, lastBeat, pending, used, acks, threads, log)
    }

    /** The process is in a state some run reaches. */
    ghost predicate Valid()
      reads this
    {
      Reachable(config, View())
    }

    constructor (config: Config)
      ensures Valid() && View() == Start && this.config == config
    {
      this.config := config;
      now, lastBeat, pending, used, acks, threads, log := 0.0, None, map[], {}, [], map[], [];
      new;
      assert Leads(config, Start, [], View());
    }

    method Become(e: Event)
      requires Valid() && Enabled(config, View(), e)
      modifies this
      ensures Valid() && View() == Step(config, old(View()), e)
    {
      StepReachable(config, View(), e);
      var s := Step(config, View(), e);
      now, lastBeat, pending, used := s.now, s.lastBeat, s.pending, s.used;
      acks, threads, log := s.queue, s.threads, s.log;
    }

    /** Any number of steps of everybody but `me`. */
    method Interfere(me: Thread)
      requires Valid()
      modifies this
      ensures Valid() && old(log) <= log && old(now) <= now && SamePlace(old(At(View(), me)), At(View(), me))
    {
      var turns: int := *;
      turns := if turns < 0 then 0 else turns;
      for i := 0 to turns
        invariant Valid() && old(log) <= log && old(now) <= now
        invariant SamePlace(old(At(View(), me)), At(View(), me))
      {
        var e: Event := *;
        var mine := (e.Turn? && e.thread == me) || (e.Confirm? && e.thread == me);
        if !mine && Enabled(config, View(), e) {
          ghost var before := View();
          OthersKeepPlace(config, before, e, me);
          Become(e);
          SamePlaceTransitive(old(At(View(), me)), At(before, me), At(View(), me));
        }
      }
    }

    /** One statement of `me`, after whatever the others did meanwhile. */
    method Proceed(me: Thread, ok: bool)
      requires Valid() && Enabled(config, View(), Turn(me, ok))
      modifies this
      ensures Valid()
      ensures var e := Act(config, old(View()), old(At(View(), me)), ok);
              && At(View(), me) == e.stage
              && acks == e.queue && pending == e.pending && now == old(now)
              && log == old(log) + e.seen
    {
      Become(Turn(me, ok));
    }

    // ----- The gate -----

    method Stage(token: Token, name: string, args: Arguments) returns (r: BuildResult)
      requires Valid() && token !in used   // ids are fresh
      modifies this
      ensures Valid()
      ensures r == BuildCommand(name, config.settings, args)
      ensures r.Built? <==>
                && name in Known && name in config.settings.allowed
                && (name == "force_disarm" ==> config.settings.allowForceDisarm)
                && args.Keys == Parameters(name)
      ensures r.Built? ==> Means(name, args, r.spec)
      ensures View() == if r.Built? then Step(config, old(View()), StageCommand(token, name, args)) else old(View())
    {
      BuildsExactly(name, config.settings, args);
      r := BuildCommand(name, config.settings, args);
      if r.Built? {
        BuiltMeansRequest(name, config.settings, args);
        Become(StageCommand(token, name, args));
      }
    }

    method Cancel(token: Token)
      requires Valid()
      modifies this
      ensures Valid() && pending == old(pending) - {token}
      ensures log == if token in old(pending) then old(log) + [Discarded(token)] else old(log)
    {
      Become(Event.Cancel(token));
    }

    /** The reader thread's dispatch of one message; answers whether it was of use. */
    method Dispatch(message: Message) returns (used: bool)
      requires Valid()
      modifies this
      ensures Valid()
      ensures acks == old(acks) + if message.CommandAck? then [message.ack] else []
      ensures lastBeat == if used && message.Heartbeat? then Some(now) else old(lastBeat)
      ensures used <==> message.CommandAck? || message == Heartbeat(config.targetSystem, config.targetComponent)
      ensures pending == old(pending) && threads == old(threads) && now == old(now)
    {
      used := message.CommandAck? || message == Heartbeat(config.targetSystem, config.targetComponent);
      Become(Read(message));
    }

    // ----- Audit, drain, send, receive -----

    /** The record the statement at `stage` writes. */
    static predicate Writes(stage: Stage, record: Record) {
      match stage
      case Refusing(_) => record == ArmBlocked
      case Announcing(_) => record == Confirmed
      case Logging(job) => record == Attempt(job.attempt)
      case Recording(job, None) => record == NoAck(job.attempt)
      case Recording(job, Some(ack)) =>
        if ack.result == ACCEPTED then record == Accepted(job.attempt)
        else if ack.result in TERMINAL_FAILURES then record == Rejected(job.attempt, ack.result)
        else record == Retry(job.attempt, ack.result)
      case Failing(job) => record == Failed(job.last)
      case _ => false
    }

    /** Where the thread stands after its record was written. */
    function Afterwards(stage: Stage): Stage {
      match stage
      case Announcing(job) => NextAttempt(config, job)
      case Logging(job) => if job.attempt == 1 then Draining(job) else Sending(job)
      case Recording(job, None) => NextAttempt(config, job)
      case Recording(job, Some(ack)) =>
        if ack.result == ACCEPTED || ack.result in TERMINAL_FAILURES then Idle
        else NextAttempt(config, job.(last := Some(ack.result)))
      case _ => Idle
    }

    /** The outcome announced together with a terminal record. */
    function Verdict(stage: Stage): Option<Outcome> {
      match stage
      case Recording(job, Some(ack)) =>
        if ack.result == ACCEPTED then Some(Outcome(true, Some(ack.result), job.attempt, Success))
        else if ack.result in TERMINAL_FAILURES then Some(Outcome(false, Some(ack.result), job.attempt, TerminalReject))
        else None
      case Failing(job) => Some(Outcome(false, job.last, config.settings.maxAttempts, ExhaustedRetries))
      case _ => None
    }

    /** The last thing observed is this command's outcome. */
    ghost predicate Announced(token: Token, outcome: Outcome)
      reads this
    {
      log != [] && log[|log| - 1].Finished? && log[|log| - 1].token == token && log[|log| - 1].outcome == outcome
    }

    /** Writes `record`; on failure the command is abandoned. */
    method Audit(me: Thread, record: Record, fx: Effects) returns (ok: bool)
      requires Valid() && Writes(At(View(), me), record)
      modifies this
      ensures Valid() && old(log) <= log
      ensures At(View(), me) == if ok then Afterwards(old(At(View(), me))) else Idle
      ensures ok && Verdict(old(At(View(), me))).Some? ==>
                Announced(old(At(View(), me)).job.token, Verdict(old(At(View(), me))).value)
      ensures ok ==> Audited(old(At(View(), me)).job.token, record) in log
      ensures ok == fx.writes(record)
    {
      Interfere(me);
      ok := fx.writes(record);
      ghost var before, stage := log, At(View(), me);
      Proceed(me, ok);
      assert ok ==> log[|before|] == Audited(stage.job.token, record);
    }

    /** Inside recv_ack with nothing queued and time left. */
    predicate Blocked(me: Thread)
      reads this
    {
      At(View(), me).Receiving? && acks == [] && now < At(View(), me).deadline
    }

    /** Empties the ACK queue one element at a time, while the reader may refill it. */
    method Drain(me: Thread, patience: nat) returns (done: bool)
      requires Valid() && At(View(), me).Draining?
      modifies this
      ensures Valid() && old(log) <= log
      ensures !done ==> |log| >= |old(log)| + patience
      ensures done ==> At(View(), me) == Sending(old(At(View(), me)).job)
      ensures done ==> log != [] && log[|log| - 1] == DrainDone(old(At(View(), me)).job.token)
    {
      for turn := 0 to patience
        invariant Valid() && old(log) <= log && At(View(), me) == old(At(View(), me))
        invariant |log| >= |old(log)| + turn
      {
        Interfere(me);
        var empty := acks == [];
        Proceed(me, true);
        if empty {
          return true;
        }
      }
      return false;
    }

    method Send(me: Thread, spec: Spec, fx: Effects) returns (ok: bool)
      requires Valid() && At(View(), me).Sending? && At(View(), me).job.spec == spec
      modifies this
      ensures Valid() && old(log) <= log
      ensures ok ==> At(View(), me) == Timing(old(At(View(), me)).job)
      ensures ok ==>
                && log != []
                && var job := old(At(View(), me)).job; log[|log| - 1] == Sent(job.token, spec, job.attempt)
      ensures !ok ==> At(View(), me).Idle?
      ensures ok == fx.sends(old(At(View(), me)).job.attempt)
    {
      Interfere(me);
      ok := fx.sends(At(View(), me).job.attempt);
      Proceed(me, ok);
    }

    method StartTimer(me: Thread) returns (deadline: real)
      requires Valid() && At(View(), me).Timing?
      modifies this
      ensures Valid() && old(log) <= log && old(now) <= now
      ensures deadline == now + config.settings.ackTimeoutS
      ensures At(View(), me) == Waiting(old(At(View(), me)).job, deadline)
    {
      Interfere(me);
      deadline := now + config.settings.ackTimeoutS;
      Proceed(me, true);
    }

    method CheckDeadline(me: Thread) returns (expired: bool)
      requires Valid() && At(View(), me).Waiting?
      modifies this
      ensures Valid() && old(log) <= log && old(now) <= now
      ensures expired <==> old(At(View(), me)).deadline <= now
      ensures var stage := old(At(View(), me));
              At(View(), me) == if expired then Recording(stage.job, None) else Receiving(stage.job, stage.deadline)
    {
      Interfere(me);
      var remaining := At(View(), me).deadline - now;
      Proceed(me, true);
      return remaining <= 0.0;
    }

    /** The next queued ACK, or nothing once the timeout has passed. */
    method RecvAck(me: Thread) returns (r: Awaited)
      requires Valid() && At(View(), me).Receiving?
      modifies this
      ensures Valid() && old(log) <= log && old(now) <= now
      ensures r.Nothing? ==> old(At(View(), me)).deadline <= now
      ensures var stage := old(At(View(), me));
              match r
              case StillWaiting => Blocked(me)
              case Nothing =>
                At(View(), me).Recording? && At(View(), me).ack == None && Same(At(View(), me).job, stage.job)
              case Got(ack) =>
                && |log| > |old(log)| && log[|log| - 1] == Examined(stage.job.token, ack)
                && (if Matches(config, stage.job, ack)
                    then At(View(), me).Recording? && At(View(), me).ack == Some(ack)
                         && Same(At(View(), me).job, stage.job)
                    else At(View(), me).Waiting? && At(View(), me).deadline == stage.deadline
                         && Same(At(View(), me).job, stage.job))
    {
      Interfere(me);
      if acks == [] {
        if now < At(View(), me).deadline {
          return StillWaiting;
        }
        Proceed(me, true);
        return Nothing;
      }
      var ack := acks[0];
      Proceed(me, true);
      return Got(ack);
    }

    /** Waits for the ACK of this command, skipping unrelated ones, and gives up only after the timeout. */
    method AwaitAck(me: Thread, spec: Spec, patience: nat) returns (r: Awaited)
      requires Valid() && At(View(), me).Timing? && At(View(), me).job.spec == spec
      modifies this
      ensures Valid() && old(log) <= log
      ensures r.Nothing? ==> now - old(now) >= config.settings.ackTimeoutS
      ensures r.StillWaiting? ==> Blocked(me) || |log| >= |old(log)| + patience
      ensures !r.StillWaiting? ==>
                && At(View(), me).Recording? && Same(At(View(), me).job, old(At(View(), me)).job)
                && At(View(), me).ack == if r.Got? then Some(r.ack) else None
      ensures r.Got? ==>
                && log != [] && log[|log| - 1] == Examined(old(At(View(), me)).job.token, r.ack)
                && r.ack.command == spec.command
                && (config.expectSystem.Some? ==> r.ack.sourceSystem == config.expectSystem.value)
    {
      ghost var job := At(View(), me).job;
      var deadline := StartTimer(me);
      for turn := 0 to patience
        invariant Valid() && |log| >= |old(log)| + turn && old(log) <= log
        invariant deadline - old(now) >= config.settings.ackTimeoutS
        invariant At(View(), me).Waiting? && At(View(), me).deadline == deadline && Same(At(View(), me).job, job)
      {
        var expired := CheckDeadline(me);
        if expired {
          return Nothing;
        }
        r := RecvAck(me);
        if !r.Got? {
          return;
        }
        if r.ack.command == spec.command {
          if config.expectSystem.None? || r.ack.sourceSystem == config.expectSystem.value {
            return;
          }
        }
      }
      return StillWaiting;
    }

    /** One attempt: log, drain before the first, send, wait. */
    method TryOnce(me: Thread, spec: Spec, attempt: nat, fx: Effects, patience: nat) returns (r: Tried)
      requires Valid() && At(View(), me).Logging?
      requires At(View(), me).job.attempt == attempt && At(View(), me).job.spec == spec
      modifies this
      ensures Valid() && old(log) <= log
      ensures r.Heard? ==>
                && At(View(), me).Recording? && Same(At(View(), me).job, old(At(View(), me)).job)
                && At(View(), me).ack == r.ack
      ensures r.Broken? ==> At(View(), me).Idle? && !(fx.writes(Attempt(attempt)) && fx.sends(attempt))
      ensures r.Pending? ==> Blocked(me) || |log| >= |old(log)| + patience
    {
      var ok := Audit(me, Attempt(attempt), fx);
      if !ok {
        return Broken;
      }
      if attempt == 1 {
        var done := Drain(me, patience);
        if !done {
          return Pending;
        }
      }
      ok := Send(me, spec, fx);
      if !ok {
        return Broken;
      }
      var awaited := AwaitAck(me, spec, patience);
      return if awaited.StillWaiting? then Pending else Heard(if awaited.Got? then Some(awaited.ack) else None);
    }

    /** Where the retry loop stands before attempt number `attempt`. */
    predicate Retrying(me: Thread, token: Token, spec: Spec, attempt: nat, last: Option<int>)
      reads this
    {
      if attempt <= config.settings.maxAttempts
      then At(View(), me).Logging? && Runs(At(View(), me), token, spec, attempt, last)
      else At(View(), me).Failing? && attempt >= 1 && Runs(At(View(), me), token, spec, attempt - 1, last)
    }

    /** What an attempt's answer means: the end of the command, or the next attempt. */
    method Conclude(
        me: Thread, token: Token, spec: Spec, attempt: nat, last: Option<int>, ack: Option<Ack>, fx: Effects)
        returns (r: Option<Confirmation>, heard: Option<int>)
      requires Valid() && At(View(), me).Recording? && At(View(), me).ack == ack
      requires Runs(At(View(), me), token, spec, attempt, last)
      modifies this
      ensures Valid() && old(log) <= log
      ensures heard == if ack.Some? then Some(ack.value.result) else last
      ensures r.None? ==> Retrying(me, token, spec, attempt + 1, heard)
      ensures r.Some? ==> At(View(), me).Idle? && (r.value.Returned? || r.value.Raised?)
      ensures r.Some? && r.value.Returned? ==> Announced(token, r.value.outcome)
      ensures AllWork(fx) ==> (r.None? <==> ack.None? || ack.value.result !in {0, 2, 3, 4, 6})
      ensures AllWork(fx) && r.Some? ==> r.value.Returned?
    {
      heard := last;
      var ok;
      if ack.None? {
        ok := Audit(me, NoAck(attempt), fx);
      } else {
        var result := ack.value.result;
        heard := Some(result);
        if result == ACCEPTED {
          ok := Audit(me, Accepted(attempt), fx);
          return Some(if ok then Returned(Outcome(true, heard, attempt, Success)) else Raised), heard;
        }
        if result in TERMINAL_FAILURES {
          ok := Audit(me, Rejected(attempt, result), fx);
          return Some(if ok then Returned(Outcome(false, heard, attempt, TerminalReject)) else Raised), heard;
        }
        ok := Audit(me, Retry(attempt, result), fx);
      }
      r := if ok then None else Some(Raised);
    }

    /** The bounded retry loop. */
    method Execute(me: Thread, token: Token, spec: Spec, fx: Effects, patience: nat) returns (r: Confirmation)
      requires Valid()
      requires Runs(At(View(), me), token, spec, if config.settings.maxAttempts >= 1 then 1 else 0, None)
      requires if config.settings.maxAttempts >= 1 then At(View(), me).Logging? else At(View(), me).Failing?
      modifies this
      ensures Valid() && old(log) <= log
      ensures r.Returned? || r.Raised? || r.Unfinished?
      ensures AllWork(fx) ==> !r.Raised?
      ensures if r.Unfinished? then Blocked(me) || |log| >= |old(log)| + patience else At(View(), me).Idle?
      ensures r.Returned? ==> Announced(token, r.outcome)
    {
      var attempt, last := 1, None;
      while attempt <= config.settings.maxAttempts
        invariant 1 <= attempt && Valid() && old(log) <= log
        invariant Retrying(me, token, spec, attempt, last)
      {
        var tried := TryOnce(me, spec, attempt, fx, patience);
        if !tried.Heard? {
          return if tried.Broken? then Raised else Unfinished;
        }
        var ended;
        ended, last := Conclude(me, token, spec, attempt, last, tried.ack, fx);
        if ended.Some? {
          return ended.value;
        }
        attempt := attempt + 1;
      }
      var ok := Audit(me, Failed(last), fx);
      return if ok then Returned(Outcome(false, last, config.settings.maxAttempts, ExhaustedRetries)) else Raised;
    }

    method LookUp(me: Thread, token: Token, forceAck: bool) returns (known: bool)
      requires Valid() && At(View(), me).Idle?
      modifies this
      ensures Valid() && old(log) <= log
      ensures known <==> token in pending
      ensures At(View(), me) == if known then Checked(token, forceAck) else Idle
    {
      Interfere(me);
      known := token in pending;
      Become(Event.Confirm(me, token, forceAck));
    }

    /** Applies the force rule to the entry, which may have gone since it was looked up. */
    method PassGate(me: Thread, token: Token, forceAck: bool) returns (found: Option<Spec>)
      requires Valid() && At(View(), me) == Checked(token, forceAck)
      modifies this
      ensures Valid() && old(log) <= log
      ensures found == if token in pending && (pending[token].requiresForceConfirm ==> forceAck)
                       then Some(pending[token]) else None
      ensures At(View(), me) == if found.Some? then Popping(token, found.value, forceAck) else Idle
    {
      Interfere(me);
      found := if token in pending && (pending[token].requiresForceConfirm ==> forceAck)
               then Some(pending[token]) else None;
      Proceed(me, true);
    }

    /** Deletes the entry; only one of several callers finds it there. */
    method Pop(me: Thread, token: Token, spec: Spec, forceAck: bool) returns (won: bool)
      requires Valid() && At(View(), me) == Popping(token, spec, forceAck)
      modifies this
      ensures Valid() && old(log) <= log
      ensures token !in pending
      ensures won ==> log != [] && log[|log| - 1] == Released(token, spec, forceAck)
      ensures At(View(), me) == if won then Opening(Job(token, spec, 0, None, 0.0)) else Idle
    {
      Interfere(me);
      won := token in pending;
      Proceed(me, true);
    }

    /** Where a released command starts. */
    static function Opening(job: Job): Stage {
      if job.spec.name == "arm" then Interlock(job) else Announcing(job)
    }

    /** The gate's confirm: look the token up, apply the force rule, delete it. */
    method Release(me: Thread, token: Token, forceAck: bool) returns (r: Confirmation, spec: Option<Spec>)
      requires Valid() && At(View(), me).Idle?
      modifies this
      ensures Valid() && old(log) <= log
      ensures spec.None? ==> At(View(), me).Idle? && TurnedAway(r, token, forceAck)
      ensures spec.Some? ==>
                && token !in pending
                && log != [] && log[|log| - 1] == Released(token, spec.value, forceAck)
                && (spec.value.requiresForceConfirm ==> forceAck)
                && At(View(), me) == Opening(Job(token, spec.value, 0, None, 0.0))
    {
      var known := LookUp(me, token, forceAck);
      if !known {
        return UnknownConfirmation, None;
      }
      spec := PassGate(me, token, forceAck);
      if spec.None? {
        return if token in pending then ForceConfirmationRequired else Raised, None;
      }
      var won := Pop(me, token, spec.value, forceAck);
      return Raised, if won then spec else None;
    }

    /** Why the gate let nothing through: the token is not staged, or it is and lacks the acknowledgement. */
    predicate TurnedAway(r: Confirmation, token: Token, forceAck: bool)
      reads this
    {
      if r.ForceConfirmationRequired? then token in pending && pending[token].requiresForceConfirm && !forceAck
      else (r.UnknownConfirmation? || r.Raised?) && token !in pending
    }

    /** Lets an arm through, or records that it is blocked. */
    method PassInterlock(me: Thread, fx: Effects) returns (refused: Option<Confirmation>)
      requires Valid() && At(View(), me).Interlock?
      modifies this
      ensures Valid() && old(log) <= log
      ensures refused.None? ==> At(View(), me) == Announcing(old(At(View(), me)).job)
      ensures refused.Some? ==>
                && At(View(), me).Idle?
                && refused.value == (if fx.writes(ArmBlocked) then ArmBlockedError else Raised)
                && (fx.writes(ArmBlocked) ==> Audited(old(At(View(), me)).job.token, ArmBlocked) in log)
    {
      var allowed := CheckInterlock(me);
      if allowed {
        return None;
      }
      var ok := Audit(me, ArmBlocked, fx);
      return Some(if ok then ArmBlockedError else Raised);
    }

    /** Confirms a staged command and executes it. */
    method Confirm(me: Thread, token: Token, forceAck: bool, fx: Effects, patience: nat) returns (r: Confirmation)
      requires Valid() && At(View(), me).Idle?
      modifies this
      ensures Valid() && old(log) <= log
      ensures if r.Unfinished? then Blocked(me) || |log| >= |old(log)| + patience else At(View(), me).Idle?
      ensures r.Returned? ==> Announced(token, r.outcome)
      ensures r.ArmBlockedError? ==> Audited(token, ArmBlocked) in log
      ensures r.UnknownConfirmation? || r.ForceConfirmationRequired? ==> TurnedAway(r, token, forceAck)
      ensures r.Raised? && AllWork(fx) ==> TurnedAway(r, token, forceAck)
    {
      var spec;
      r, spec := Release(me, token, forceAck);
      if spec.None? {
        return;
      }
      if spec.value.name == "arm" {
        var refused := PassInterlock(me, fx);
        if refused.Some? {
          return refused.value;
        }
      }
      var ok := Audit(me, Confirmed, fx);
      if !ok {
        return Raised;
      }
      r := Execute(me, token, spec.value, fx, patience);
    }

    /** The pre-arm interlock: one look at the health report, then one at the clock. */
    method CheckInterlock(me: Thread) returns (allowed: bool)
      requires Valid() && At(View(), me).Interlock?
      modifies this
      ensures Valid() && old(log) <= log
      ensures var job := old(At(View(), me)).job; At(View(), me) == if allowed then Announcing(job) else Refusing(job)
    {
      Interfere(me);
      var report := HealthReport(config, View());
      Proceed(me, true);
      Interfere(me);
      allowed := ArmGuard.ArmAllowed(report, now, config.settings.armReportMaxAgeS);
      Proceed(me, true);
    }
  }

  /** Whatever the methods of the service have done, its log satisfies all that is proved of runs. */
  lemma LogIsJustified(service: CommandService)
    requires service.Valid()
    ensures CommandSafety.AllJustified(service.config, service.log)
  {
    var events, states := ReachableIsRun(service.config, service.View());
    CommandSafety.RunIsSound(service.config, events, states);
  }
}
