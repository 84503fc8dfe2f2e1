/** Why commands must be executed one at a time: the drain of one execution can discard what another waits for. */
module CommandOverlap {
  import opened Options
  import opened CommandPath
  import opened CommandLedger
  import opened CommandAcks
  import opened CommandProgress

  lemma DrainedIsNotOwn(log: seq<Obs>, token: Token)
    requires log != [] && log[|log| - 1].Drained?
    ensures !exists d :: OwnSince(log, d, token)
  {
  }

  lemma DrainTakes(c: Config, s: State, t: Thread, token: Token, ack: Ack) returns (u: State)
    requires c.settings.maxAttempts >= 1
    requires At(s, t).Idle? && Confirmable(c, s, token, true)
    ensures Follows(c, s, u) && u.threads == s.threads[t := At(u, t)]
    ensures u.queue == [] && u.log != [] && u.log[|u.log| - 1] == Drained(ack)
  {
    var s1 := ReachDrain(c, s, t, token, true);
    var s2 := Arrive(c, s1, ack);
    u := DiscardAll(c, s2, t, Job(token, s.pending[token], 1, None, 0.0));
    FollowsOn(c, s, s1, s2);
    FollowsOn(c, s, s2, u);
  }

  lemma DrainTakesForeign(c: Config, s: State, t: Thread, u: Thread, b: Token, ack: Ack) returns (after: State)
    requires c.settings.maxAttempts >= 1
    requires PastDrain(At(s, t)) && t != u && At(s, u).Idle?
    requires Confirmable(c, s, b, true)
    ensures Follows(c, s, after) && At(after, t) == At(s, t)
    ensures after.queue == [] && after.log != [] && after.log[|after.log| - 1] == Drained(ack)
    ensures !Own(after, t)
  {
    after := DrainTakes(c, s, u, b, ack);
    DrainedIsNotOwn(after.log, At(s, t).job.token);
  }

  /** In any reachable state in which one thread is past its drain and another is idle, with a command that
      may be confirmed, there is a schedule that leaves the first thread where it is, lets any ACK arrive, and has the
      other thread's drain discard it. Then what was dequeued since the first command's drain is no longer that
      command's own. */
  lemma OverlapDiscards(c: Config, s: State, t: Thread, u: Thread, b: Token, ack: Ack) returns (after: State)
    requires Reachable(c, s) && c.settings.maxAttempts >= 1
    requires PastDrain(At(s, t)) && t != u && At(s, u).Idle?
    requires Confirmable(c, s, b, true)
    ensures Reachable(c, after) && Follows(c, s, after) && At(after, t) == At(s, t)
    ensures after.queue == [] && after.log != [] && after.log[|after.log| - 1] == Drained(ack)
    ensures !Own(after, t)
  {
    after := DrainTakesForeign(c, s, t, u, b, ack);
    FollowsOn(c, Start, s, after);
  }
}
