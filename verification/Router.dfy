/** One router: a bounded first-in-first-out dedupe cache in front of
    "deliver to the subscribers and forward to every other transport". */
module Router {
  import opened Options
  import opened Sequences

  type MsgId = string
  type Transport = nat

  datatype Envelope = Envelope(msgId: MsgId, payload: string)

  /** What a transport's codec makes of one frame read from the wire. */
  datatype Decoded = Decoded(envelope: Envelope) | SchemaMismatch | Undecodable

  /** Everything a router owns; `sent` and `delivered` are what it handed to its
      transports and its subscribers, in order. */
  datatype State = State(
    seen: seq<MsgId>,
    sent: seq<(Transport, Envelope)>,
    delivered: seq<Envelope>,
    tx: nat, rx: nat, forwarded: nat, schemaMismatch: nat, droppedUndecodable: nat)

  const Initial := State([], [], [], 0, 0, 0, 0, 0)

  /** The cache after `id` was shown to it: oldest ids leave first. */
  function Marked(seen: seq<MsgId>, id: MsgId, size: nat): seq<MsgId> {
    if id in seen then seen else LastN(seen + [id], size)
  }

  /** The frames that carry `e` over every transport but `skip`. */
  function Outgoing(transports: seq<Transport>, skip: Option<Transport>, e: Envelope): seq<(Transport, Envelope)> {
    if transports == [] then []
    else
      var last := transports[|transports| - 1];
      Outgoing(transports[..|transports| - 1], skip, e) + if skip == Some(last) then [] else [(last, e)]
  }

  function Published(s: State, transports: seq<Transport>, size: nat, e: Envelope): State {
    var out := Outgoing(transports, None, e);
    s.(seen := Marked(s.seen, e.msgId, size), sent := s.sent + out, tx := s.tx + |out|)
  }

  function Received(s: State, transports: seq<Transport>, size: nat, source: Transport, frame: Decoded): State {
    match frame
    case SchemaMismatch => s.(schemaMismatch := s.schemaMismatch + 1)
    case Undecodable => s.(droppedUndecodable := s.droppedUndecodable + 1)
    case Decoded(e) =>
      if e.msgId in s.seen then s.(rx := s.rx + 1)
      else
        var out := Outgoing(transports, Some(source), e);
        s.(rx := s.rx + 1,
           seen := Marked(s.seen, e.msgId, size),
           delivered := s.delivered + [e],
           sent := s.sent + out,
           forwarded := s.forwarded + |out|)
  }

  class Router {
    const transports: seq<Transport>
    const size: nat
    var seen: seq<MsgId>
    var sent: seq<(Transport, Envelope)>
    var delivered: seq<Envelope>
    var tx: nat
    var rx: nat
    var forwarded: nat
    var schemaMismatch: nat
    var droppedUndecodable: nat

    function View(): State
      reads this
    {
      State(seen, sent, delivered, tx, rx, forwarded, schemaMismatch, droppedUndecodable)
    }

    constructor (transports: seq<Transport>, size: nat)
      ensures View() == Initial && this.transports == transports && this.size == size
    {
      this.transports, this.size := transports, size;
      seen, sent, delivered := [], [], [];
      tx, rx, forwarded, schemaMismatch, droppedUndecodable := 0, 0, 0, 0, 0;
    }

    /** Records `id`; answers whether it was new. Evicts from the oldest end. */
    method MarkSeen(id: MsgId) returns (isNew: bool)
      modifies this`seen
      ensures isNew == (id !in old(seen))
      ensures seen == Marked(old(seen), id, size)
    {
      if id in seen {
        return false;
      }
      seen := seen + [id];
      ghost var grown := seen;
      while |seen| > size
        invariant |seen| <= |grown| && seen == LastN(grown, |seen|)
        invariant |seen| >= size || seen == grown
      {
        seen := seen[1..];
      }
      return true;
    }

    method Publish(e: Envelope)
      modifies this
      ensures View() == Published(old(View()), transports, size, e)
    {
      var _ := MarkSeen(e.msgId);
      for i := 0 to |transports|
        invariant View() == old(View()).(
                              seen := Marked(old(seen), e.msgId, size),
                              sent := old(sent) + Outgoing(transports[..i], None, e),
                              tx := old(tx) + |Outgoing(transports[..i], None, e)|)
      {
        assert transports[..i + 1][..i] == transports[..i];
        sent := sent + [(transports[i], e)];
        tx := tx + 1;
      }
      assert transports[..|transports|] == transports;
    }

    method Forward(source: Transport, e: Envelope)
      modifies this`sent, this`forwarded
      ensures sent == old(sent) + Outgoing(transports, Some(source), e)
      ensures forwarded == old(forwarded) + |Outgoing(transports, Some(source), e)|
    {
      for i := 0 to |transports|
        invariant sent == old(sent) + Outgoing(transports[..i], Some(source), e)
        invariant forwarded == old(forwarded) + |Outgoing(transports[..i], Some(source), e)|
      {
        assert transports[..i + 1][..i] == transports[..i];
        if transports[i] != source {
          sent := sent + [(transports[i], e)];
          forwarded := forwarded + 1;
        }
      }
      assert transports[..|transports|] == transports;
    }

    /** One turn of the pump loop for one frame of one transport. */
    method Receive(source: Transport, frame: Decoded)
      modifies this
      ensures View() == Received(old(View()), transports, size, source, frame)
    {
      match frame {
        case SchemaMismatch => schemaMismatch := schemaMismatch + 1;
        case Undecodable => droppedUndecodable := droppedUndecodable + 1;
        case Decoded(e) =>
          rx := rx + 1;
          var isNew := MarkSeen(e.msgId);
          if !isNew {
            return;
          }
          delivered := delivered + [e];
          Forward(source, e);
      }
    }
  }

  // ----- Whole runs: publishes and frames of all transports, in any order -----

  datatype Action = Publish(envelope: Envelope) | Arrival(source: Transport, frame: Decoded)

  function Step(s: State, a: Action, transports: seq<Transport>, size: nat): State {
    match a
    case Publish(e) => Published(s, transports, size, e)
    case Arrival(source, frame) => Received(s, transports, size, source, frame)
  }

  function Run(actions: seq<Action>, transports: seq<Transport>, size: nat): State {
    if actions == [] then Initial
    else Step(Run(actions[..|actions| - 1], transports, size), actions[|actions| - 1], transports, size)
  }

  /** The ids shown to the cache by `actions`, in order. */
  function Shown(actions: seq<Action>): seq<MsgId> {
    if actions == [] then [] else Shown(actions[..|actions| - 1]) + IdsOf(actions[|actions| - 1])
  }

  function IdsOf(a: Action): seq<MsgId> {
    match a
    case Publish(e) => [e.msgId]
    case Arrival(_, Decoded(e)) => [e.msgId]
    case Arrival(_, _) => []
  }

  /** The sliding-window reference: an id is accepted iff it is not among the last
      `size` accepted ids. Nothing is ever forgotten here. */
  function Accepted(ids: seq<MsgId>, size: nat): seq<MsgId> {
    if ids == [] then []
    else
      var before := Accepted(ids[..|ids| - 1], size);
      var id := ids[|ids| - 1];
      if id in LastN(before, size) then before else before + [id]
  }

  /** The bounded cache after it was shown `ids` in order. */
  function MarkedAll(ids: seq<MsgId>, size: nat): seq<MsgId> {
    if ids == [] then [] else Marked(MarkedAll(ids[..|ids| - 1], size), ids[|ids| - 1], size)
  }

  lemma {:induction false} CacheOfIds(ids: seq<MsgId>, size: nat)
    ensures MarkedAll(ids, size) == LastN(Accepted(ids, size), size)
  {
    if ids != [] {
      CacheOfIds(ids[..|ids| - 1], size);
      LastNOfAppend(Accepted(ids[..|ids| - 1], size), ids[|ids| - 1], size);
    }
  }

  /** The bounded cache is the last `size` accepted ids, in acceptance order. */
  lemma CacheIsWindow(actions: seq<Action>, transports: seq<Transport>, size: nat)
    ensures Run(actions, transports, size).seen == LastN(Accepted(Shown(actions), size), size)
  {
    SeenOfRun(actions, transports, size);
    CacheOfIds(Shown(actions), size);
  }

  lemma {:induction false} SeenOfRun(actions: seq<Action>, transports: seq<Transport>, size: nat)
    ensures Run(actions, transports, size).seen == MarkedAll(Shown(actions), size)
  {
    if actions != [] {
      var init, last := actions[..|actions| - 1], actions[|actions| - 1];
      SeenOfRun(init, transports, size);
      StepMarks(Run(init, transports, size), last, transports, size);
      if IdsOf(last) != [] {
        assert Shown(actions)[..|Shown(init)|] == Shown(init);
      } else {
        assert Shown(actions) == Shown(init);
      }
    }
  }

  lemma StepMarks(s: State, a: Action, transports: seq<Transport>, size: nat)
    ensures IdsOf(a) == [] ==> Step(s, a, transports, size).seen == s.seen
    ensures |IdsOf(a)| <= 1
    ensures IdsOf(a) != [] ==> Step(s, a, transports, size).seen == Marked(s.seen, IdsOf(a)[0], size)
  {
  }

  /** Between two acceptances of one id lie at least `size` acceptances of others. */
  lemma {:induction false} RepeatsAreFarApart(ids: seq<MsgId>, size: nat, i: nat, j: nat)
    requires i < j < |Accepted(ids, size)|
    requires Accepted(ids, size)[i] == Accepted(ids, size)[j]
    ensures j - i > size
  {
    var before := Accepted(ids[..|ids| - 1], size);
    if j < |before| {
      RepeatsAreFarApart(ids[..|ids| - 1], size, i, j);
    } else {
      LastNContains(before, size);
    }
  }

  // ----- What subscribers and transports get -----

  predicate IsMessage(a: Action) { a.Arrival? && a.frame.Decoded? }

  /** The messages that arrived and were new to the window, in order. */
  function News(actions: seq<Action>, size: nat): seq<Envelope> {
    if actions == [] then []
    else
      var init, last := actions[..|actions| - 1], actions[|actions| - 1];
      News(init, size) +
      if IsMessage(last) && last.frame.envelope.msgId !in LastN(Accepted(Shown(init), size), size)
      then [last.frame.envelope] else []
  }

  /** Subscribers get exactly the new messages, whole and in order of arrival. */
  lemma {:induction false} DeliversTheNews(actions: seq<Action>, transports: seq<Transport>, size: nat)
    ensures Run(actions, transports, size).delivered == News(actions, size)
  {
    if actions != [] {
      DeliversTheNews(actions[..|actions| - 1], transports, size);
      CacheIsWindow(actions[..|actions| - 1], transports, size);
    }
  }

  /** What one more action makes the router send: a publish on every transport, a new message on every transport but
      its own, anything else on none; in the order of the transports. */
  lemma SendsToTheOthers(actions: seq<Action>, a: Action, transports: seq<Transport>, size: nat)
    ensures var s, t := Run(actions, transports, size), Run(actions + [a], transports, size);
            var isNew := IsMessage(a) && a.frame.envelope.msgId !in LastN(Accepted(Shown(actions), size), size);
            && t.sent ==
               s.sent + (if a.Publish? then Outgoing(transports, None, a.envelope)
                         else if isNew then Outgoing(transports, Some(a.source), a.frame.envelope) else [])
            && t.tx == s.tx + (if a.Publish? then |transports| else 0)
  {
    assert (actions + [a])[..|actions|] == actions;
    CacheIsWindow(actions, transports, size);
    if a.Publish? {
      OutgoingCount(transports, None, a.envelope);
    }
  }

  function Count(actions: seq<Action>, p: Action -> bool): nat {
    if actions == [] then 0
    else Count(actions[..|actions| - 1], p) + if p(actions[|actions| - 1]) then 1 else 0
  }

  /** Each kind of frame has its own counter. */
  lemma {:induction false} ArrivalsAreCounted(actions: seq<Action>, transports: seq<Transport>, size: nat)
    ensures var s := Run(actions, transports, size);
            && s.rx == Count(actions, IsMessage)
            && s.schemaMismatch == Count(actions, (a: Action) => a.Arrival? && a.frame.SchemaMismatch?)
            && s.droppedUndecodable == Count(actions, (a: Action) => a.Arrival? && a.frame.Undecodable?)
  {
    if actions != [] {
      ArrivalsAreCounted(actions[..|actions| - 1], transports, size);
    }
  }

  /** The transports a frame from `source` is forwarded to. */
  function Others(transports: seq<Transport>, source: Transport): (n: nat)
    ensures n <= |transports|
  {
    if transports == [] then 0
    else Others(transports[..|transports| - 1], source) + if transports[|transports| - 1] == source then 0 else 1
  }

  lemma {:induction false} OthersOfDistinct(transports: seq<Transport>, source: Transport)
    requires Distinct(transports)
    ensures Others(transports, source) == |transports| - if source in transports then 1 else 0
  {
    if transports != [] {
      var init := transports[..|transports| - 1];
      OthersOfDistinct(init, source);
      assert transports == init + [transports[|transports| - 1]];
    }
  }

  lemma {:induction false} OutgoingCount(transports: seq<Transport>, skip: Option<Transport>, e: Envelope)
    ensures |Outgoing(transports, skip, e)| == if skip.Some? then Others(transports, skip.value) else |transports|
  {
    if transports != [] {
      OutgoingCount(transports[..|transports| - 1], skip, e);
    }
  }

  /** Forwarding hits every transport but the skipped one, always with the same envelope. */
  lemma {:induction false} OutgoingShape(transports: seq<Transport>, skip: Option<Transport>, e: Envelope)
    ensures forall t :: (t, e) in Outgoing(transports, skip, e) <==> t in transports && skip != Some(t)
    ensures forall x | x in Outgoing(transports, skip, e) :: x.1 == e
  {
    if transports != [] {
      OutgoingShape(transports[..|transports| - 1], skip, e);
      assert transports == transports[..|transports| - 1] + [transports[|transports| - 1]];
    }
  }

  lemma OutgoingOne(t: Transport, skip: Option<Transport>, e: Envelope)
    ensures Outgoing([t], skip, e) == if skip == Some(t) then [] else [(t, e)]
  {
    assert [t][..0] == [];
  }

  /** The frames go out transport by transport, in the order of the list. */
  lemma {:induction false} OutgoingInOrder(
      front: seq<Transport>, back: seq<Transport>, skip: Option<Transport>, e: Envelope)
    ensures Outgoing(front + back, skip, e) == Outgoing(front, skip, e) + Outgoing(back, skip, e)
  {
    if back == [] {
      assert front + back == front;
    } else {
      var init, last := back[..|back| - 1], back[|back| - 1];
      OutgoingInOrder(front, init, skip, e);
      assert (front + back)[..|front + back| - 1] == front + init;
      Regroup(Outgoing(front, skip, e), Outgoing(init, skip, e), if skip == Some(last) then [] else [(last, e)]);
    }
  }

  lemma Regroup<T>(a: seq<T>, b: seq<T>, c: seq<T>)
    ensures a + b + c == a + (b + c)
  {
  }

  function Frames(actions: seq<Action>): nat {
    if actions == [] then 0
    else Frames(actions[..|actions| - 1]) + if actions[|actions| - 1].Arrival? then 1 else 0
  }

  /** The counters account for every frame read and every frame sent. */
  ghost predicate Balanced(s: State, transports: nat, frames: nat, publishes: nat) {
    && frames == s.rx + s.schemaMismatch + s.droppedUndecodable
    && s.forwarded == |s.delivered| * (transports - 1)
    && s.tx == publishes * transports
    && |s.sent| == s.tx + s.forwarded
  }

  lemma {:induction false} CountersBalance(actions: seq<Action>, transports: seq<Transport>, size: nat)
    requires Distinct(transports)
    requires forall a | a in actions && a.Arrival? :: a.source in transports
    ensures Frames(actions) <= |actions|
    ensures Balanced(Run(actions, transports, size), |transports|, Frames(actions), |actions| - Frames(actions))
  {
    if actions != [] {
      var init, last := actions[..|actions| - 1], actions[|actions| - 1];
      CountersBalance(init, transports, size);
      StepBalances(Run(init, transports, size), last, transports, size, Frames(init), |init| - Frames(init));
    }
  }

  lemma Distributes(n: nat, k: int)
    ensures (n + 1) * k == n * k + k
  {
  }

  lemma StepBalances(s: State, a: Action, transports: seq<Transport>, size: nat, frames: nat, publishes: nat)
    requires Distinct(transports)
    requires a.Arrival? ==> a.source in transports
    requires Balanced(s, |transports|, frames, publishes)
    ensures a.Arrival? ==> Balanced(Step(s, a, transports, size), |transports|, frames + 1, publishes)
    ensures a.Publish? ==> Balanced(Step(s, a, transports, size), |transports|, frames, publishes + 1)
  {
    if a.Publish? {
      OutgoingCount(transports, None, a.envelope);
      Distributes(publishes, |transports|);
    } else if a.frame.Decoded? {
      OutgoingCount(transports, Some(a.source), a.frame.envelope);
      OthersOfDistinct(transports, a.source);
      Distributes(|s.delivered|, |transports| - 1);
    }
  }

  lemma {:induction false} AcceptedOnce(ids: seq<MsgId>, size: nat, universe: set<MsgId>)
    requires forall id | id in ids :: id in universe
    requires |universe| <= size
    ensures Distinct(Accepted(ids, size))
    ensures forall id :: id in Accepted(ids, size) <==> id in ids
  {
    if ids != [] {
      var init := ids[..|ids| - 1];
      AcceptedOnce(init, size, universe);
      DistinctFits(Accepted(init, size), universe);
      assert ids == init + [ids[|ids| - 1]];
    }
  }

  /** The ids handed to the subscribers, in order. */
  function DeliveredIds(s: State): seq<MsgId> {
    seq(|s.delivered|, i requires 0 <= i < |s.delivered| => s.delivered[i].msgId)
  }

  /** What one action adds to the subscribers' list: the id, if it was accepted and came from outside. */
  lemma DeliveredMore(s: State, a: Action, transports: seq<Transport>, size: nat)
    ensures var after := Step(s, a, transports, size);
            || DeliveredIds(after) == DeliveredIds(s)
            || (|IdsOf(a)| == 1 && IdsOf(a)[0] !in s.seen && DeliveredIds(after) == DeliveredIds(s) + IdsOf(a))
  {
    var after := Step(s, a, transports, size);
    if |after.delivered| > |s.delivered| {
      assert DeliveredIds(after) == DeliveredIds(s) + IdsOf(a);
    } else {
      assert DeliveredIds(after) == DeliveredIds(s);
    }
  }

  lemma ShownMore(actions: seq<Action>)
    requires actions != []
    ensures Shown(actions) == Shown(actions[..|actions| - 1]) + IdsOf(actions[|actions| - 1])
  {
  }

  /** With room for every id in use, the cache still holds every id that was ever shown. */
  lemma NothingForgotten(actions: seq<Action>, transports: seq<Transport>, size: nat, universe: set<MsgId>)
    requires forall id | id in Shown(actions) :: id in universe
    requires |universe| <= size
    ensures forall id | id in Shown(actions) :: id in Run(actions, transports, size).seen
  {
    CacheIsWindow(actions, transports, size);
    AcceptedOnce(Shown(actions), size, universe);
    DistinctFits(Accepted(Shown(actions), size), universe);
  }

  /** With room for every id in use, no id reaches the subscribers twice. */
  lemma {:induction false} DeliversAtMostOnce(
      actions: seq<Action>, transports: seq<Transport>, size: nat, universe: set<MsgId>)
    requires forall id | id in Shown(actions) :: id in universe
    requires |universe| <= size
    ensures Distinct(DeliveredIds(Run(actions, transports, size)))
    ensures forall id | id in DeliveredIds(Run(actions, transports, size)) :: id in Shown(actions)
  {
    if actions != [] {
      var init, last := actions[..|actions| - 1], actions[|actions| - 1];
      ShownMore(actions);
      DeliversAtMostOnce(init, transports, size, universe);
      NothingForgotten(init, transports, size, universe);
      DeliveredMore(Run(init, transports, size), last, transports, size);
    }
  }
}
