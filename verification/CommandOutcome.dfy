/** What stands behind a command reported as accepted, from its drain to its outcome. */
module CommandOutcome {
  import opened Options
  import opened CommandPath
  import CommandSafety
  import CommandAcks

  /** The first time the drain of this command saw the queue empty. */
  ghost predicate FirstDrain(log: seq<Obs>, token: Token, d: nat) {
    d < |log| && log[d] == DrainDone(token) && forall i | 0 <= i < d :: log[i] != DrainDone(token)
  }

  lemma {:induction false} FindFirstDrain(log: seq<Obs>, token: Token, i: nat) returns (d: nat)
    requires i < |log| && log[i] == DrainDone(token)
    ensures d <= i && FirstDrain(log, token, d)
  {
    if DrainDone(token) in log[..i] {
      var k :| 0 <= k < i && log[..i][k] == DrainDone(token);
      d := FindFirstDrain(log, token, k);
    } else {
      d := i;
      assert forall k | 0 <= k < i :: log[..i][k] == log[k];
    }
  }

  /** Every frame of a command leaves after its drain. */
  lemma SendsFollowDrain(c: Config, log: seq<Obs>, d: nat, i: nat)
    requires CommandSafety.AllJustified(c, log) && i < |log| && log[i].Sent? && FirstDrain(log, log[i].token, d)
    ensures d < i
  {
    assert CommandSafety.Justified(c, log[..i], log[i]);
    var k :| 0 <= k < i && log[..i][k] == DrainDone(log[i].token);
    assert log[k] == DrainDone(log[i].token);
  }

  /** The ACK the outcome names was examined before it, and answers the staged command. */
  ghost predicate Answered(c: Config, log: seq<Obs>, token: Token, ack: Ack) {
    exists spec :: Staged(token, spec) in log && ack.command == spec.command
                   && (c.expectSystem.Some? ==> ack.sourceSystem == c.expectSystem.value)
  }

  lemma ExaminedBefore(c: Config, events: seq<Event>, states: seq<State>, j: nat) returns (x: nat)
    requires IsRun(c, events, states)
    requires var log := states[|events|].log; j < |log| && log[j].Finished? && log[j].outcome.accepted
    ensures var log := states[|events|].log;
            && x < j && log[x].Examined? && log[x].token == log[j].token
            && log[x].ack.result == ACCEPTED && Answered(c, log[..j], log[j].token, log[x].ack)
  {
    CommandSafety.EveryOutcomeIsJustified(c, events, states, j);
    var log := states[|events|].log;
    var ack, spec :| Examined(log[j].token, ack) in log[..j] && Staged(log[j].token, spec) in log[..j]
                     && ack.command == spec.command
                     && (c.expectSystem.Some? ==> ack.sourceSystem == c.expectSystem.value)
                     && log[j].outcome.result == Some(ack.result);
    x := CommandSafety.Position(log, j, Examined(log[j].token, ack));
  }

  /** A command is reported as accepted only on an accepting ACK, matching the command and the system, that was
      enqueued after the drain; the drain precedes every frame of the command. */
  lemma AcceptedRestsOnFreshAck(c: Config, events: seq<Event>, states: seq<State>, j: nat)
    returns (d: nat, e: nat, x: nat)
    requires IsRun(c, events, states)
    requires var log := states[|events|].log; j < |log| && log[j].Finished? && log[j].outcome.accepted
    ensures var log, token := states[|events|].log, states[|events|].log[j].token;
            && d < e < x < j && FirstDrain(log, token, d)
            && log[x].Examined? && log[x].token == token && log[e] == Enqueued(log[x].ack)
            && log[x].ack.result == ACCEPTED && Answered(c, log[..j], token, log[x].ack)
            && forall i | 0 <= i < |log| && log[i].Sent? && log[i].token == token :: d < i
  {
    var log, token := states[|events|].log, states[|events|].log[j].token;
    x := ExaminedBefore(c, events, states, j);
    var drained;
    drained, e := CommandAcks.ExaminedAckIsFresh(c, events, states, x);
    d := FindFirstDrain(log, token, drained);
    CommandSafety.RunIsSound(c, events, states);
    forall i | 0 <= i < |log| && log[i].Sent? && log[i].token == token ensures d < i {
      SendsFollowDrain(c, log, d, i);
    }
  }
}
