/** Book-keeping over every run of the command path: where each token can be, how often
    it is released, and how many attempts are logged and sent for it. */
module CommandLedger {
  import opened Options
  import opened Commands
  import opened CommandPath

  datatype Kind = IsStaged | IsDiscarded | IsReleased | IsAttempt | IsSent | IsTerminal | IsFinished | IsLost

  predicate Is(o: Obs, token: Token, kind: Kind) {
    match kind
    case IsStaged => o.Staged? && o.token == token
    case IsDiscarded => o.Discarded? && o.token == token
    case IsReleased => o.Released? && o.token == token
    case IsAttempt => o.Audited? && o.token == token && o.record.Attempt?
    case IsSent => o.Sent? && o.token == token
    case IsTerminal => o.Audited? && o.token == token && (o.record.Accepted? || o.record.Rejected? || o.record.Failed?)
    case IsFinished => o.Finished? && o.token == token
    case IsLost => o.AuditLost? && o.token == token
  }

  /** How many observations of a kind concern `token`. */
  function Tally(log: seq<Obs>, token: Token, kind: Kind): nat {
    if log == [] then 0
    else Tally(log[..|log| - 1], token, kind) + if Is(log[|log| - 1], token, kind) then 1 else 0
  }

  lemma {:induction false} TallyAppend(a: seq<Obs>, b: seq<Obs>, token: Token, kind: Kind)
    ensures Tally(a + b, token, kind) == Tally(a, token, kind) + Tally(b, token, kind)
  {
    if b == [] {
      assert a + b == a;
    } else {
      assert (a + b)[..|a + b| - 1] == a + b[..|b| - 1];
      TallyAppend(a, b[..|b| - 1], token, kind);
    }
  }

  lemma TallyShort(seen: seq<Obs>, token: Token, kind: Kind)
    requires |seen| <= 2
    ensures Tally(seen, token, kind) ==
            (if |seen| > 0 && Is(seen[0], token, kind) then 1 else 0) +
            (if |seen| > 1 && Is(seen[1], token, kind) then 1 else 0)
  {
    if |seen| == 2 {
      assert seen[..1] == [seen[0]];
    }
  }

  predicate HasJob(stage: Stage) {
    !stage.Idle? && !stage.Checked? && !stage.Popping?
  }

  /** The drain loop of this command has seen the queue empty. */
  predicate PastDrain(stage: Stage) {
    HasJob(stage) && stage.job.attempt >= 1 && !stage.Draining? && !(stage.Logging? && stage.job.attempt == 1)
  }

  function Max0(n: int): nat {
    if n < 0 then 0 else n
  }

  /** Attempts whose audit record exists, by the place in the code. */
  function Attempts(stage: Stage): int
    requires HasJob(stage)
  {
    if stage.Logging? then stage.job.attempt - 1 else stage.job.attempt
  }

  /** Attempts whose frame left, by the place in the code. */
  function Sends(stage: Stage): int
    requires HasJob(stage)
  {
    if stage.Logging? || stage.Draining? || stage.Sending? then stage.job.attempt - 1 else stage.job.attempt
  }

  predicate Placed(c: Config, stage: Stage)
    requires HasJob(stage)
  {
    var k := stage.job.attempt;
    if stage.Interlock? || stage.Deciding? || stage.Refusing? || stage.Announcing? then k == 0
    else if stage.Failing? then k == Max0(c.settings.maxAttempts)
    else 1 <= k <= c.settings.maxAttempts && (stage.Draining? ==> k == 1)
  }

  /** The books of the token a thread is executing. */
  ghost predicate Held(c: Config, log: seq<Obs>, stage: Stage)
    requires HasJob(stage)
  {
    var token := stage.job.token;
    && Placed(c, stage)
    && Tally(log, token, IsReleased) == 1
    && Tally(log, token, IsAttempt) == Attempts(stage)
    && Tally(log, token, IsSent) == Sends(stage)
    && Tally(log, token, IsTerminal) == 0
    && Tally(log, token, IsFinished) == 0
    && Tally(log, token, IsLost) == 0
  }

  /** What holds of any token at any time. */
  ghost predicate Bounded(c: Config, log: seq<Obs>, token: Token) {
    var released := Tally(log, token, IsReleased);
    var attempts, sent := Tally(log, token, IsAttempt), Tally(log, token, IsSent);
    && sent <= attempts <= sent + 1
    && attempts <= Max0(c.settings.maxAttempts)
    && Tally(log, token, IsFinished) == Tally(log, token, IsTerminal) <= 1
    && Tally(log, token, IsLost) + Tally(log, token, IsTerminal) <= 1
    && (released == 0 ==> attempts == 0 && Tally(log, token, IsTerminal) == 0 && Tally(log, token, IsLost) == 0)
  }

  /** A staged token is in exactly one place: still pending, cancelled, or released. */
  ghost predicate Located(s: State, token: Token) {
    && Tally(s.log, token, IsStaged) == (if token in s.used then 1 else 0)
    && Tally(s.log, token, IsStaged) ==
       (if token in s.pending then 1 else 0) + Tally(s.log, token, IsDiscarded) + Tally(s.log, token, IsReleased)
  }

  ghost predicate Ledger(c: Config, s: State) {
    && (forall token :: Located(s, token) && Bounded(c, s.log, token))
    && (forall t | t in s.threads && HasJob(s.threads[t]) :: Held(c, s.log, s.threads[t]))
    && (forall t, u | t in s.threads && u in s.threads && t != u && HasJob(s.threads[t]) && HasJob(s.threads[u]) ::
          s.threads[t].job.token != s.threads[u].job.token)
  }

  /** The books that one statement of a thread with a job adds to. */
  ghost predicate Booked(c: Config, stage: Stage, after: Stage, seen: seq<Obs>)
    requires HasJob(stage)
  {
    var token := stage.job.token;
    && Tally(seen, token, IsReleased) == 0 && Tally(seen, token, IsStaged) == 0 && Tally(seen, token, IsDiscarded) == 0
    && (if HasJob(after) then
          && after.job.token == token
          && Placed(c, after)
          && Attempts(stage) + Tally(seen, token, IsAttempt) == Attempts(after)
          && Sends(stage) + Tally(seen, token, IsSent) == Sends(after)
          && Tally(seen, token, IsTerminal) == 0 && Tally(seen, token, IsFinished) == 0
          && Tally(seen, token, IsLost) == 0
        else
          && after.Idle?
          && Tally(seen, token, IsAttempt) == 0 && Tally(seen, token, IsSent) == 0
          && Tally(seen, token, IsFinished) == Tally(seen, token, IsTerminal)
          && Tally(seen, token, IsTerminal) + Tally(seen, token, IsLost) <= 1)
  }

  /** A statement reports at most twice, and on the thread's own token only. */
  lemma ActNames(c: Config, s: State, stage: Stage, ok: bool)
    requires HasJob(stage)
    ensures var e := Act(c, s, stage, ok);
            && |e.seen| <= 2
            && e.pending == s.pending
            && forall o, kind, other | o in e.seen && other != stage.job.token :: !Is(o, other, kind)
  {
  }

  lemma TallyOfShort(seen: seq<Obs>, token: Token)
    requires |seen| <= 2
    ensures forall kind :: Tally(seen, token, kind) ==
                           (if |seen| > 0 && Is(seen[0], token, kind) then 1 else 0) +
                           (if |seen| > 1 && Is(seen[1], token, kind) then 1 else 0)
  {
    forall kind
      ensures Tally(seen, token, kind) ==
              (if |seen| > 0 && Is(seen[0], token, kind) then 1 else 0) +
              (if |seen| > 1 && Is(seen[1], token, kind) then 1 else 0)
    {
      TallyShort(seen, token, kind);
    }
  }

  lemma TallyOfOne(seen: seq<Obs>, token: Token)
    requires |seen| <= 1
    ensures forall kind :: Tally(seen, token, kind) == if |seen| == 1 && Is(seen[0], token, kind) then 1 else 0
  {
    TallyOfShort(seen, token);
  }

  lemma GateBooks(c: Config, s: State, stage: Stage, ok: bool)
    requires stage.Interlock? || stage.Deciding? || stage.Refusing? || stage.Announcing?
    requires Placed(c, stage)
    ensures Booked(c, stage, Act(c, s, stage, ok).stage, Act(c, s, stage, ok).seen)
  {
    TallyOfOne(Act(c, s, stage, ok).seen, stage.job.token);
  }

  lemma SendBooks(c: Config, s: State, stage: Stage, ok: bool)
    requires stage.Logging? || stage.Draining? || stage.Sending?
    requires Placed(c, stage)
    ensures Booked(c, stage, Act(c, s, stage, ok).stage, Act(c, s, stage, ok).seen)
  {
    TallyOfOne(Act(c, s, stage, ok).seen, stage.job.token);
  }

  lemma WaitBooks(c: Config, s: State, stage: Stage, ok: bool)
    requires stage.Timing? || stage.Waiting? || stage.Receiving?
    requires Placed(c, stage)
    ensures Booked(c, stage, Act(c, s, stage, ok).stage, Act(c, s, stage, ok).seen)
  {
    TallyOfShort(Act(c, s, stage, ok).seen, stage.job.token);
  }

  lemma ConcludeBooks(c: Config, s: State, stage: Stage, ok: bool)
    requires stage.Recording? && Placed(c, stage)
    ensures Booked(c, stage, Act(c, s, stage, ok).stage, Act(c, s, stage, ok).seen)
  {
    var e := Act(c, s, stage, ok);
    if HasJob(e.stage) {
      RetryBooks(c, s, stage, ok);
    } else {
      EndBooks(c, s, stage, ok);
    }
  }

  lemma RetryBooks(c: Config, s: State, stage: Stage, ok: bool)
    requires stage.Recording? && Placed(c, stage) && HasJob(Act(c, s, stage, ok).stage)
    ensures Booked(c, stage, Act(c, s, stage, ok).stage, Act(c, s, stage, ok).seen)
  {
    TallyOfShort(Act(c, s, stage, ok).seen, stage.job.token);
  }

  lemma EndBooks(c: Config, s: State, stage: Stage, ok: bool)
    requires stage.Recording? && Placed(c, stage) && !HasJob(Act(c, s, stage, ok).stage)
    ensures Booked(c, stage, Act(c, s, stage, ok).stage, Act(c, s, stage, ok).seen)
  {
    if ok {
      VerdictBooks(stage.job, Act(c, s, stage, ok).seen);
    } else {
      assert Act(c, s, stage, ok).seen == [AuditLost(stage.job.token)];
      TallyOfShort([AuditLost(stage.job.token)], stage.job.token);
    }
  }

  lemma VerdictBooks(job: Job, seen: seq<Obs>)
    requires |seen| == 2 && Is(seen[0], job.token, IsTerminal) && Is(seen[1], job.token, IsFinished)
    ensures forall kind :: Tally(seen, job.token, kind) == if kind == IsTerminal || kind == IsFinished then 1 else 0
  {
    TallyOfShort(seen, job.token);
  }

  lemma FailBooks(c: Config, s: State, stage: Stage, ok: bool)
    requires stage.Failing? && Placed(c, stage)
    ensures Booked(c, stage, Act(c, s, stage, ok).stage, Act(c, s, stage, ok).seen)
  {
    TallyOfShort(Act(c, s, stage, ok).seen, stage.job.token);
  }

  lemma ActBooks(c: Config, s: State, stage: Stage, ok: bool)
    requires HasJob(stage) && Placed(c, stage)
    ensures Booked(c, stage, Act(c, s, stage, ok).stage, Act(c, s, stage, ok).seen)
  {
    if stage.Recording? {
      ConcludeBooks(c, s, stage, ok);
    } else if stage.Failing? {
      FailBooks(c, s, stage, ok);
    } else if stage.Interlock? || stage.Deciding? || stage.Refusing? || stage.Announcing? {
      GateBooks(c, s, stage, ok);
    } else if stage.Logging? || stage.Draining? || stage.Sending? {
      SendBooks(c, s, stage, ok);
    } else {
      WaitBooks(c, s, stage, ok);
    }
  }

  // ----- Every step keeps the ledger -----

  /** Observations that concern other tokens only leave a token's books alone. */
  lemma {:induction false} Untouched(c: Config, log: seq<Obs>, seen: seq<Obs>, token: Token)
    requires forall o, kind | o in seen :: !Is(o, token, kind)
    ensures forall kind :: Tally(log + seen, token, kind) == Tally(log, token, kind)
    ensures Bounded(c, log + seen, token) <==> Bounded(c, log, token)
  {
    forall kind
      ensures Tally(log + seen, token, kind) == Tally(log, token, kind)
    {
      TallyAppend(log, seen, token, kind);
      NothingTallied(seen, token, kind);
    }
  }

  lemma {:induction false} NothingTallied(seen: seq<Obs>, token: Token, kind: Kind)
    requires forall o | o in seen :: !Is(o, token, kind)
    ensures Tally(seen, token, kind) == 0
  {
    if seen != [] {
      NothingTallied(seen[..|seen| - 1], token, kind);
    }
  }

  /** Appending to the books of the token `stage` holds. */
  lemma HeldMoves(c: Config, log: seq<Obs>, stage: Stage, after: Stage, seen: seq<Obs>)
    requires HasJob(stage) && Held(c, log, stage) && Booked(c, stage, after, seen)
    requires Bounded(c, log, stage.job.token)
    ensures Bounded(c, log + seen, stage.job.token)
    ensures HasJob(after) ==> Held(c, log + seen, after)
    ensures Tally(log + seen, stage.job.token, IsReleased) == 1
    ensures forall kind | kind == IsStaged || kind == IsDiscarded || kind == IsReleased ::
              Tally(log + seen, stage.job.token, kind) == Tally(log, stage.job.token, kind)
  {
    var token := stage.job.token;
    forall kind
      ensures Tally(log + seen, token, kind) == Tally(log, token, kind) + Tally(seen, token, kind)
    {
      TallyAppend(log, seen, token, kind);
    }
  }

  lemma OthersKeepBooks(c: Config, s: State, after: State, seen: seq<Obs>, token: Token)
    requires Ledger(c, s)
    requires after.log == s.log + seen && after.used == s.used
    requires forall other | other != token :: other in after.pending <==> other in s.pending
    requires forall o, kind, other | o in seen && other != token :: !Is(o, other, kind)
    ensures forall other | other != token :: Located(after, other) && Bounded(c, after.log, other)
    ensures forall stage: Stage | HasJob(stage) && stage.job.token != token && Held(c, s.log, stage) ::
              Held(c, after.log, stage)
  {
    forall stage: Stage | HasJob(stage) && stage.job.token != token && Held(c, s.log, stage)
      ensures Held(c, after.log, stage)
    {
      Untouched(c, s.log, seen, stage.job.token);
    }
    forall other | other != token
      ensures Located(after, other) && Bounded(c, after.log, other)
      ensures forall kind :: Tally(after.log, other, kind) == Tally(s.log, other, kind)
    {
      assert Located(s, other) && Bounded(c, s.log, other);
      Untouched(c, s.log, seen, other);
    }
  }

  lemma OwnTokenLocated(s: State, after: State, token: Token)
    requires Located(s, token) && after.used == s.used && (token in after.pending <==> token in s.pending)
    requires forall kind | kind == IsStaged || kind == IsDiscarded || kind == IsReleased ::
               Tally(after.log, token, kind) == Tally(s.log, token, kind)
    ensures Located(after, token)
  {
  }

  /** The ledger of a state that differs in the place of one thread, whose token's books are settled. */
  lemma LedgerAfterMove(c: Config, s: State, after: State, t: Thread, next: Stage, token: Token)
    requires Ledger(c, s) && HasJob(At(s, t)) && At(s, t).job.token == token
    requires after.threads == s.threads[t := next]
    requires HasJob(next) ==> next.job.token == token && Held(c, after.log, next)
    requires Located(after, token) && Bounded(c, after.log, token)
    requires forall other | other != token :: Located(after, other) && Bounded(c, after.log, other)
    requires forall stage: Stage | HasJob(stage) && stage.job.token != token && Held(c, s.log, stage) ::
               Held(c, after.log, stage)
    ensures Ledger(c, after)
  {
    forall u | u in after.threads && HasJob(after.threads[u])
      ensures Held(c, after.log, after.threads[u])
    {
      if u != t {
        assert after.threads[u] == s.threads[u] && Held(c, s.log, s.threads[u]);
      }
    }
  }

  lemma TurnWithJob(c: Config, s: State, t: Thread, ok: bool)
    requires Ledger(c, s) && Enabled(c, s, Turn(t, ok)) && HasJob(At(s, t))
    ensures Ledger(c, Step(c, s, Turn(t, ok)))
  {
    var stage := At(s, t);
    var e := Act(c, s, stage, ok);
    var after := Step(c, s, Turn(t, ok));
    var token := stage.job.token;
    ActNames(c, s, stage, ok);
    assert Booked(c, stage, e.stage, e.seen) by { ActBooks(c, s, stage, ok); }
    assert Located(s, token) && Bounded(c, s.log, token);
    HeldMoves(c, s.log, stage, e.stage, e.seen);
    OthersKeepBooks(c, s, after, e.seen, token);
    OwnTokenLocated(s, after, token);
    LedgerAfterMove(c, s, after, t, e.stage, token);
  }

  /** A token just released has clean books. */
  lemma ReleaseOpensBooks(c: Config, log: seq<Obs>, id: Token, spec: Spec, forceAck: bool, stage: Stage)
    requires Bounded(c, log, id) && Tally(log, id, IsReleased) == 0
    requires (stage.Interlock? || stage.Announcing?) && stage.job.token == id && stage.job.attempt == 0
    ensures var longer := log + [Released(id, spec, forceAck)];
            Bounded(c, longer, id) && Held(c, longer, stage)
  {
    OneMore(log, Released(id, spec, forceAck));
  }

  lemma ReleaseLocates(s: State, after: State, id: Token, spec: Spec, forceAck: bool)
    requires Located(s, id) && id in s.pending
    requires after.log == s.log + [Released(id, spec, forceAck)] && after.used == s.used && id !in after.pending
    ensures Located(after, id) && Tally(s.log, id, IsReleased) == 0
  {
    OneMore(s.log, Released(id, spec, forceAck));
  }

  /** The one statement that moves a token from the gate to a thread. */
  lemma PopBooks(c: Config, s: State, t: Thread, ok: bool)
    requires Ledger(c, s) && At(s, t).Popping? && At(s, t).id in s.pending
    ensures var after := Step(c, s, Turn(t, ok));
            && Located(after, At(s, t).id) && Bounded(c, after.log, At(s, t).id)
            && At(after, t).job.token == At(s, t).id
            && Held(c, after.log, At(after, t))
  {
    var after, stage := Step(c, s, Turn(t, ok)), At(s, t);
    assert Located(s, stage.id) && Bounded(c, s.log, stage.id);
    ReleaseLocates(s, after, stage.id, stage.popped, stage.forceAck);
    ReleaseOpensBooks(c, s.log, stage.id, stage.popped, stage.forceAck, At(after, t));
  }

  lemma PopMoves(c: Config, s: State, t: Thread, ok: bool)
    requires Ledger(c, s) && At(s, t).Popping? && At(s, t).id in s.pending
    ensures Ledger(c, Step(c, s, Turn(t, ok)))
  {
    var id, after := At(s, t).id, Step(c, s, Turn(t, ok));
    PopBooks(c, s, t, ok);
    OthersKeepBooks(c, s, after, Act(c, s, At(s, t), ok).seen, id);
    forall u | u in s.threads && u != t && HasJob(s.threads[u])
      ensures s.threads[u].job.token != id
    {
      assert Held(c, s.log, s.threads[u]) && Located(s, id);
    }
  }

  /** Moving a thread between places that hold no job changes no book. */
  lemma NoBooks(c: Config, s: State, t: Thread, stage: Stage)
    requires Ledger(c, s) && !HasJob(stage)
    ensures Ledger(c, s.(threads := s.threads[t := stage]))
  {
    var after := s.(threads := s.threads[t := stage]);
    forall token
      ensures Located(after, token) && Bounded(c, after.log, token)
    {
      assert Located(s, token);
    }
  }

  lemma TurnKeeps(c: Config, s: State, t: Thread, ok: bool)
    requires Ledger(c, s) && Enabled(c, s, Turn(t, ok))
    ensures Ledger(c, Step(c, s, Turn(t, ok)))
  {
    var stage := At(s, t);
    if HasJob(stage) {
      TurnWithJob(c, s, t, ok);
    } else if stage.Popping? && stage.id in s.pending {
      PopMoves(c, s, t, ok);
    } else {
      NoBooks(c, s, t, Act(c, s, stage, ok).stage);
      assert Step(c, s, Turn(t, ok)) == s.(threads := s.threads[t := Act(c, s, stage, ok).stage]);
    }
  }

  /** Appending one observation about one token, or about none. */
  lemma OneMore(log: seq<Obs>, o: Obs)
    ensures forall token, kind ::
              Tally(log + [o], token, kind) == Tally(log, token, kind) + if Is(o, token, kind) then 1 else 0
  {
    assert (log + [o])[..|log|] == log;
  }

  lemma TickKeeps(c: Config, s: State, to: real)
    requires Ledger(c, s) && Enabled(c, s, Tick(to))
    ensures Ledger(c, Step(c, s, Tick(to)))
  {
    var after := Step(c, s, Tick(to));
    forall token
      ensures Located(after, token) && Bounded(c, after.log, token)
    {
      assert Located(s, token);
    }
    forall t | t in after.threads && HasJob(after.threads[t])
      ensures Held(c, after.log, after.threads[t])
    {
      assert Held(c, s.log, s.threads[t]);
    }
  }

  /** An observation by or about the gate moves the books of one token, and of no thread's. */
  lemma GateMoves(c: Config, s: State, after: State, o: Obs, token: Token)
    requires Ledger(c, s) && after.threads == s.threads && after.log == s.log + [o]
    requires o == Discarded(token) || (o.Staged? && o.token == token)
    requires after.used == s.used + {token}
    requires forall other | other != token :: other in after.pending <==> other in s.pending
    requires Located(after, token)
    ensures Ledger(c, after)
  {
    OneMore(s.log, o);
    forall other
      ensures Located(after, other) && Bounded(c, after.log, other)
    {
      assert Located(s, other) && Bounded(c, s.log, other);
    }
    forall t | t in after.threads && HasJob(after.threads[t])
      ensures Held(c, after.log, after.threads[t])
    {
      assert Held(c, s.log, s.threads[t]);
    }
  }

  lemma StagingLocates(s: State, token: Token, spec: Spec)
    requires Located(s, token) && token !in s.used
    ensures Located(s.(pending := s.pending[token := spec], used := s.used + {token},
                       log := s.log + [Staged(token, spec)]), token)
  {
    OneMore(s.log, Staged(token, spec));
  }

  lemma CancellingLocates(s: State, token: Token)
    requires Located(s, token) && token in s.pending
    ensures token in s.used
    ensures Located(s.(pending := s.pending - {token}, log := s.log + [Discarded(token)]), token)
  {
    OneMore(s.log, Discarded(token));
  }

  lemma GateKeeps(c: Config, s: State, e: Event)
    requires Ledger(c, s) && Enabled(c, s, e) && (e.StageCommand? || e.Cancel?)
    ensures Ledger(c, Step(c, s, e))
  {
    var after := Step(c, s, e);
    assert Located(s, e.token);
    if e.StageCommand? {
      var spec := BuildCommand(e.name, c.settings, e.args).spec;
      StagingLocates(s, e.token, spec);
      GateMoves(c, s, after, Staged(e.token, spec), e.token);
    } else if e.token in s.pending {
      CancellingLocates(s, e.token);
      assert after.used == s.used + {e.token};
      GateMoves(c, s, after, Discarded(e.token), e.token);
    }
  }

  /** An observation about no token changes no book. */
  lemma UnrelatedKeeps(c: Config, s: State, after: State, o: Obs)
    requires Ledger(c, s) && after.log == s.log + [o]
    requires after.threads == s.threads && after.pending == s.pending && after.used == s.used
    requires forall token, kind :: !Is(o, token, kind)
    ensures Ledger(c, after)
  {
    OneMore(s.log, o);
    forall token
      ensures Located(after, token) && Bounded(c, after.log, token)
    {
      assert Located(s, token) && Bounded(c, s.log, token);
    }
    forall t | t in after.threads && HasJob(after.threads[t])
      ensures Held(c, after.log, after.threads[t])
    {
      assert Held(c, s.log, s.threads[t]);
    }
  }

  lemma ReadKeeps(c: Config, s: State, message: Message)
    requires Ledger(c, s)
    ensures Ledger(c, Step(c, s, Read(message)))
  {
    if message.CommandAck? {
      AckKeeps(c, s, message.ack);
    } else if Step(c, s, Read(message)) != s {
      BeatKeeps(c, s);
    }
  }

  lemma AckKeeps(c: Config, s: State, ack: Ack)
    requires Ledger(c, s)
    ensures Ledger(c, s.(queue := s.queue + [ack], log := s.log + [Enqueued(ack)]))
  {
    UnrelatedKeeps(c, s, s.(queue := s.queue + [ack], log := s.log + [Enqueued(ack)]), Enqueued(ack));
  }

  lemma BeatKeeps(c: Config, s: State)
    requires Ledger(c, s)
    ensures Ledger(c, s.(lastBeat := Some(s.now), log := s.log + [Beat(s.now)]))
  {
    UnrelatedKeeps(c, s, s.(lastBeat := Some(s.now), log := s.log + [Beat(s.now)]), Beat(s.now));
  }

  lemma StepKeeps(c: Config, s: State, e: Event)
    requires Ledger(c, s) && Enabled(c, s, e)
    ensures Ledger(c, Step(c, s, e))
  {
    match e {
      case StageCommand(_, _, _) => GateKeeps(c, s, e);
      case Cancel(_) => GateKeeps(c, s, e);
      case Read(message) => ReadKeeps(c, s, message);
      case Tick(to) => TickKeeps(c, s, to);
      case Confirm(t, token, forceAck) =>
        NoBooks(c, s, t, if token in s.pending then Checked(token, forceAck) else Idle);
      case Turn(t, ok) => TurnKeeps(c, s, t, ok);
    }
  }
}
