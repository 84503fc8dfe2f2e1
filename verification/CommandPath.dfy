/** The supervised command path as a state machine: any number of confirming threads, one
    reader thread and the clock, interleaved statement by statement. A thread's place in
    the code of `confirm` and `execute` is its `Stage`. */
module CommandPath {
  import opened Options
  import opened Commands
  import H = LinkHealth
  import ArmGuard

  type Token = string
  type Thread = nat

  datatype Config = Config(
    settings: Settings,
    hasHealth: bool,              // a health provider is wired
    healthMaxAgeS: real,          // the provider's own freshness window
    targetSystem: int, targetComponent: int,
    expectSystem: Option<int>)    // the sender's ACK filter

  const ACCEPTED := 0
  const TERMINAL_FAILURES: set<int> := {2, 3, 4, 6}

  datatype Ack = Ack(command: int, result: int, sourceSystem: int)

  datatype Message = Heartbeat(system: int, component: int) | CommandAck(ack: Ack) | Malformed | Unrelated

  datatype Reason = Success | TerminalReject | ExhaustedRetries
  datatype Outcome = Outcome(accepted: bool, result: Option<int>, attempts: int, reason: Reason)

  /** One command in execution: `attempt` is the number of the attempt under way (0 before
      the first), `last` the last refusal, `waited` the time spent inside `recv_ack`. */
  datatype Job = Job(token: Token, spec: Spec, attempt: nat, last: Option<int>, waited: real)

  datatype Stage =
    | Idle
    | Checked(id: Token, forceAck: bool)              // the token was pending
    | Popping(id: Token, popped: Spec, forceAck: bool) // the force rule passed; about to delete
    | Interlock(job: Job)                             // arm: about to ask for the health report
    | Deciding(job: Job, report: Option<H.Report>)    // arm: about to compare it with the clock
    | Refusing(job: Job)                              // about to audit arm_blocked
    | Announcing(job: Job)                            // about to audit command_confirmed
    | Logging(job: Job)                               // about to audit command_attempt
    | Draining(job: Job)                              // first attempt: discarding stale ACKs
    | Sending(job: Job)
    | Timing(job: Job)                                // about to compute the deadline
    | Waiting(job: Job, deadline: real)               // top of the await loop
    | Receiving(job: Job, deadline: real)             // inside recv_ack
    | Recording(job: Job, ack: Option<Ack>)           // about to audit the attempt's result
    | Failing(job: Job)                               // about to audit command_failed

  datatype Record =
    | ArmBlocked | Confirmed | Attempt(attempt: nat) | NoAck(attempt: nat)
    | Accepted(attempt: nat) | Rejected(attempt: nat, result: int) | Retry(attempt: nat, result: int)
    | Failed(last: Option<int>)

  /** What an observer of the process sees, in order. */
  datatype Obs =
    | Staged(token: Token, spec: Spec)
    | Discarded(token: Token)                         // a cancel that removed something
    | Released(token: Token, spec: Spec, forceAck: bool)
    | Beat(at: real)
    | Looked(token: Token, beat: real, at: real)      // the provider vouched for this heartbeat
    | Permitted(token: Token, beat: real, at: real)   // and the interlock found it recent enough
    | Audited(token: Token, record: Record)
    | AuditLost(token: Token)
    | Enqueued(ack: Ack)
    | Drained(ack: Ack)
    | DrainDone(token: Token)
    | Sent(token: Token, spec: Spec, attempt: nat)
    | Examined(token: Token, ack: Ack)
    | Finished(token: Token, outcome: Outcome, waited: real)

  datatype State = State(
    now: real, lastBeat: Option<real>, pending: map<Token, Spec>, used: set<Token>,
    queue: seq<Ack>, threads: map<Thread, Stage>, log: seq<Obs>)

  const Start := State(0.0, None, map[], {}, [], map[], [])

  function At(s: State, t: Thread): Stage {
    if t in s.threads then s.threads[t] else Idle
  }

  datatype Event =
    | StageCommand(token: Token, name: string, args: Arguments)
    | Cancel(token: Token)
    | Read(message: Message)
    | Tick(to: real)
    | Confirm(thread: Thread, token: Token, forceAck: bool)
    | Turn(thread: Thread, ok: bool)   // the thread's next statement; `ok` is false when its effect raises

  // ----- One statement of one thread -----

  /** What one statement changes besides the thread's own place. */
  datatype Effect = Effect(pending: map<Token, Spec>, queue: seq<Ack>, stage: Stage, seen: seq<Obs>)

  function HealthReport(c: Config, s: State): Option<H.Report> {
    if !c.hasHealth || s.lastBeat.None? then None
    else
      var alive := s.now - s.lastBeat.value <= c.healthMaxAgeS;
      Some(H.Report(if alive then H.Ok else H.NoData, alive, [], s.lastBeat.value))
  }

  predicate Matches(c: Config, job: Job, ack: Ack) {
    ack.command == job.spec.command && (c.expectSystem.None? || ack.sourceSystem == c.expectSystem.value)
  }

  function NextAttempt(c: Config, job: Job): Stage {
    if job.attempt + 1 <= c.settings.maxAttempts then Logging(job.(attempt := job.attempt + 1)) else Failing(job)
  }

  function Act(c: Config, s: State, stage: Stage, ok: bool): Effect {
    var same := Effect(s.pending, s.queue, stage, []);
    match stage
    case Idle => same
    case Checked(id, forceAck) =>
      if id !in s.pending || (s.pending[id].requiresForceConfirm && !forceAck) then same.(stage := Idle)
      else same.(stage := Popping(id, s.pending[id], forceAck))
    case Popping(id, spec, forceAck) =>
      if id !in s.pending then same.(stage := Idle)
      else
        var job := Job(id, spec, 0, None, 0.0);
        same.(pending := s.pending - {id}, seen := [Released(id, spec, forceAck)],
              stage := if spec.name == "arm" then Interlock(job) else Announcing(job))
    case Interlock(job) =>
      var report := HealthReport(c, s);
      same.(stage := Deciding(job, report),
            seen := if report.Some? && report.value.armPermitted
                    then [Looked(job.token, report.value.tMono, s.now)] else [])
    case Deciding(job, report) =>
      if ArmGuard.ArmAllowed(report, s.now, c.settings.armReportMaxAgeS)
      then same.(stage := Announcing(job), seen := [Permitted(job.token, report.value.tMono, s.now)])
      else same.(stage := Refusing(job))
    case Refusing(job) =>
      same.(stage := Idle, seen := [if ok then Audited(job.token, ArmBlocked) else AuditLost(job.token)])
    case Announcing(job) =>
      if ok then same.(stage := NextAttempt(c, job), seen := [Audited(job.token, Confirmed)])
      else same.(stage := Idle, seen := [AuditLost(job.token)])
    case Logging(job) =>
      if ok then same.(stage := if job.attempt == 1 then Draining(job) else Sending(job),
                       seen := [Audited(job.token, Attempt(job.attempt))])
      else same.(stage := Idle, seen := [AuditLost(job.token)])
    case Draining(job) =>
      if s.queue == [] then same.(stage := Sending(job), seen := [DrainDone(job.token)])
      else same.(queue := s.queue[1..], seen := [Drained(s.queue[0])])
    case Sending(job) =>
      if ok then same.(stage := Timing(job), seen := [Sent(job.token, job.spec, job.attempt)])
      else same.(stage := Idle)
    case Timing(job) => same.(stage := Waiting(job, s.now + c.settings.ackTimeoutS))
    case Waiting(job, deadline) =>
      same.(stage := if deadline - s.now <= 0.0 then Recording(job, None) else Receiving(job, deadline))
    case Receiving(job, deadline) =>
      if s.queue == [] then same.(stage := Recording(job, None))
      else
        var ack := s.queue[0];
        same.(queue := s.queue[1..], seen := [Examined(job.token, ack)],
              stage := if Matches(c, job, ack) then Recording(job, Some(ack)) else Waiting(job, deadline))
    case Recording(job, ack) => Conclude(c, same, job, ack, ok)
    case Failing(job) =>
      if ok then same.(stage := Idle, seen := [
          Audited(job.token, Failed(job.last)),
          Finished(job.token, Outcome(false, job.last, c.settings.maxAttempts, ExhaustedRetries), job.waited)])
      else same.(stage := Idle, seen := [AuditLost(job.token)])
  }

  function Conclude(c: Config, same: Effect, job: Job, ack: Option<Ack>, ok: bool): Effect {
    if !ok then same.(stage := Idle, seen := [AuditLost(job.token)])
    else match ack
      case None => same.(stage := NextAttempt(c, job), seen := [Audited(job.token, NoAck(job.attempt))])
      case Some(a) =>
        if a.result == ACCEPTED then same.(stage := Idle, seen := [
            Audited(job.token, Accepted(job.attempt)),
            Finished(job.token, Outcome(true, Some(a.result), job.attempt, Success), job.waited)])
        else if a.result in TERMINAL_FAILURES then same.(stage := Idle, seen := [
            Audited(job.token, Rejected(job.attempt, a.result)),
            Finished(job.token, Outcome(false, Some(a.result), job.attempt, TerminalReject), job.waited)])
        else same.(stage := NextAttempt(c, job.(last := Some(a.result))),
                   seen := [Audited(job.token, Retry(job.attempt, a.result))])
  }

  // ----- Steps of the whole process -----

  predicate Enabled(c: Config, s: State, e: Event) {
    match e
    // Ids are fresh and the command builds; anything else raises before the gate is touched.
    case StageCommand(token, name, args) => token !in s.used && BuildCommand(name, c.settings, args).Built?
    case Cancel(_) => true
    case Read(_) => true
    // The clock is monotone, and no recv_ack outlives its timeout.
    case Tick(to) => s.now <= to && forall t | t in s.threads && s.threads[t].Receiving? :: to <= s.threads[t].deadline
    case Confirm(t, _, _) => At(s, t).Idle?
    // recv_ack returns nothing only once its timeout has passed.
    case Turn(t, _) => !At(s, t).Idle? && (At(s, t).Receiving? && s.queue == [] ==> At(s, t).deadline <= s.now)
  }

  function Aged(stage: Stage, elapsed: real): Stage {
    match stage
    case Receiving(job, deadline) => Receiving(job.(waited := job.waited + elapsed), deadline)
    case _ => stage
  }

  function Step(c: Config, s: State, e: Event): State
    requires Enabled(c, s, e)
  {
    match e
    case StageCommand(token, name, args) =>
      var spec := BuildCommand(name, c.settings, args).spec;
      s.(pending := s.pending[token := spec], used := s.used + {token}, log := s.log + [Staged(token, spec)])
    case Cancel(token) =>
      if token in s.pending then s.(pending := s.pending - {token}, log := s.log + [Discarded(token)]) else s
    case Read(Heartbeat(system, component)) =>
      if system == c.targetSystem && component == c.targetComponent
      then s.(lastBeat := Some(s.now), log := s.log + [Beat(s.now)]) else s
    case Read(CommandAck(ack)) => s.(queue := s.queue + [ack], log := s.log + [Enqueued(ack)])
    case Read(_) => s
    case Tick(to) => s.(now := to, threads := map t | t in s.threads :: Aged(s.threads[t], to - s.now))
    case Confirm(t, token, forceAck) =>
      s.(threads := s.threads[t := if token in s.pending then Checked(token, forceAck) else Idle])
    case Turn(t, ok) =>
      var effect := Act(c, s, At(s, t), ok);
      s.(pending := effect.pending, queue := effect.queue, threads := s.threads[t := effect.stage],
         log := s.log + effect.seen)
  }

  ghost predicate IsRun(c: Config, events: seq<Event>, states: seq<State>) {
    && |states| == |events| + 1
    && states[0] == Start
    && forall i | 0 <= i < |events| ::
         Enabled(c, states[i], events[i]) && states[i + 1] == Step(c, states[i], events[i])
  }

  lemma Extend(c: Config, events: seq<Event>, states: seq<State>, e: Event)
    requires IsRun(c, events, states) && Enabled(c, states[|events|], e)
    ensures IsRun(c, events + [e], states + [Step(c, states[|events|], e)])
  {
  }

  /** This schedule takes the process from s to u. */
  ghost predicate Leads(c: Config, s: State, schedule: seq<Event>, u: State)
    decreases |schedule|
  {
    if schedule == [] then s == u
    else Enabled(c, s, schedule[0]) && Leads(c, Step(c, s, schedule[0]), schedule[1..], u)
  }

  lemma {:induction false} LeadsOn(c: Config, s: State, first: seq<Event>, m: State, second: seq<Event>, u: State)
    requires Leads(c, s, first, m) && Leads(c, m, second, u)
    ensures Leads(c, s, first + second, u)
    decreases |first|
  {
    if first == [] {
      assert first + second == second;
    } else {
      LeadsOn(c, Step(c, s, first[0]), first[1..], m, second, u);
      assert (first + second)[1..] == first[1..] + second;
    }
  }

  /** Some schedule takes the process from s to u. */
  ghost predicate Follows(c: Config, s: State, u: State) {
    exists schedule :: Leads(c, s, schedule, u)
  }

  lemma FollowsOn(c: Config, s: State, m: State, u: State)
    requires Follows(c, s, m) && Follows(c, m, u)
    ensures Follows(c, s, u)
  {
    var first :| Leads(c, s, first, m);
    var second :| Leads(c, m, second, u);
    LeadsOn(c, s, first, m, second, u);
  }

  lemma StepFollows(c: Config, s: State, e: Event)
    requires Enabled(c, s, e)
    ensures Follows(c, s, Step(c, s, e))
  {
    assert Leads(c, s, [e], Step(c, s, e));
  }

  ghost predicate Reachable(c: Config, s: State) {
    Follows(c, Start, s)
  }

  lemma StepReachable(c: Config, s: State, e: Event)
    requires Reachable(c, s) && Enabled(c, s, e)
    ensures Reachable(c, Step(c, s, e))
  {
    StepFollows(c, s, e);
    FollowsOn(c, Start, s, Step(c, s, e));
  }

  lemma {:induction false} LeadsIsRun(c: Config, schedule: seq<Event>, s: State, states: seq<State>, events: seq<Event>)
      returns (all: seq<State>)
    requires IsRun(c, events, states) && Leads(c, states[|events|], schedule, s)
    ensures IsRun(c, events + schedule, all) && all[|events + schedule|] == s
    decreases |schedule|
  {
    if schedule == [] {
      all := states;
      assert events + schedule == events;
    } else {
      var e := schedule[0];
      Extend(c, events, states, e);
      all := LeadsIsRun(c, schedule[1..], s, states + [Step(c, states[|events|], e)], events + [e]);
      assert events + [e] + schedule[1..] == events + schedule;
    }
  }

  /** The states schedules reach are those at the end of runs. */
  lemma ReachableIsRun(c: Config, s: State) returns (events: seq<Event>, states: seq<State>)
    requires Reachable(c, s)
    ensures IsRun(c, events, states) && states[|events|] == s
  {
    events :| Leads(c, Start, events, s);
    states := LeadsIsRun(c, events, s, [Start], []);
    assert [] + events == events;
  }
}
