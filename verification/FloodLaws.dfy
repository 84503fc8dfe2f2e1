/** What every run of the network does: it ends, and when it is quiet each router that can be reached has
    delivered each message exactly once. */
module FloodLaws {
  import opened Options
  import opened Router
  import opened Flood

  // ----- One step of the network is one step of one router -----

  /** The transports a router is configured with cover the node's ports. */
  ghost predicate Wired(net: Network, n: Node, transports: seq<Transport>) {
    forall p | p in net.media && p.node == n :: p.transport in transports
  }

  /** The frames put in flight are those heard on the transports the router sent on. */
  ghost predicate Carries(net: Network, n: Node, flights: set<Frame>, sent: seq<(Transport, Envelope)>, e: Envelope) {
    forall p, q | net.Linked(p, q) && p.node == n :: Frame(p, q, e.msgId) in flights <==> (p.transport, e) in sent
  }

  /** A delivery is what the receiving router does with the frame: the same cache, the same accepted message,
      and broadcasts on the same ports. */
  lemma DeliverIsReceive(net: Network, s: FloodState, f: Frame, r: State, transports: seq<Transport>, e: Envelope)
    requires net.Valid() && Shaped(net, s) && Enabled(net, s, Deliver(f)) && e.msgId == f.id
    requires Wired(net, f.to.node, transports) && r.seen == s.seen[f.to.node]
    ensures var after := Received(r, transports, net.size, f.to.transport, Decoded(e));
            var flooded := Apply(net, s, Deliver(f));
            var flights := if f.id in s.seen[f.to.node] then {} else net.Sends(f.to.node, Some(f.to), f.id);
            && after.seen == flooded.seen[f.to.node]
            && |after.delivered| - |r.delivered| == flooded.delivered[f.to.node][f.id] - s.delivered[f.to.node][f.id]
            && flooded.flying == s.flying - multiset{f} + multiset(flights)
            && Carries(net, f.to.node, flights, after.sent[|r.sent|..], e)
  {
    var n := f.to.node;
    OutgoingShape(transports, Some(f.to.transport), e);
    if f.id !in s.seen[n] {
      SendsCarry(net, n, Some(f.to), transports, e);
    }
  }

  lemma SendsCarry(net: Network, n: Node, skip: Option<Port>, transports: seq<Transport>, e: Envelope)
    requires Wired(net, n, transports) && (skip.Some? ==> skip.value.node == n)
    ensures Carries(net, n, net.Sends(n, skip, e.msgId),
                    Outgoing(transports, if skip.Some? then Some(skip.value.transport) else None, e), e)
  {
    OutgoingShape(transports, if skip.Some? then Some(skip.value.transport) else None, e);
    forall p, q | net.Linked(p, q) && p.node == n
      ensures Frame(p, q, e.msgId) in net.Sends(n, skip, e.msgId) <==> skip != Some(p)
    {
      assert (p, q) in net.Links();
    }
  }

  /** And an origination is what the publishing router does. */
  lemma OriginateIsPublish(net: Network, s: FloodState, id: MsgId, r: State, transports: seq<Transport>, e: Envelope)
    requires net.Valid() && Shaped(net, s) && Enabled(net, s, Originate(id)) && e.msgId == id
    requires Wired(net, net.origin[id], transports) && r.seen == s.seen[net.origin[id]]
    ensures var n := net.origin[id];
            var after := Published(r, transports, net.size, e);
            var flooded := Apply(net, s, Originate(id));
            && after.seen == flooded.seen[n] && after.delivered == r.delivered && flooded.delivered == s.delivered
            && flooded.flying == s.flying + multiset(net.Sends(n, None, id))
            && Carries(net, n, net.Sends(n, None, id), after.sent[|r.sent|..], e)
  {
    SendsCarry(net, net.origin[id], None, transports, e);
  }

  // ----- Whole runs -----

  ghost predicate Next(net: Network, s: FloodState, step: Event, t: FloodState) {
    net.Valid() && Shaped(net, s) && Enabled(net, s, step) && t == Apply(net, s, step)
  }

  ghost predicate IsRun(net: Network, steps: seq<Event>, states: seq<FloodState>) {
    && |states| == |steps| + 1
    && states[0] == Start(net)
    && forall i | 0 <= i < |steps| :: Next(net, states[i], steps[i], states[i + 1])
  }

  ghost predicate Quiet(net: Network, s: FloodState) {
    s.flying == multiset{} && s.published == net.origin.Keys
  }

  lemma StartInv(net: Network)
    requires net.Valid()
    ensures Inv(net, Start(net))
  {
  }

  lemma RunPrefix(net: Network, steps: seq<Event>, states: seq<FloodState>)
    requires IsRun(net, steps, states) && steps != []
    ensures IsRun(net, steps[..|steps| - 1], states[..|steps|])
    ensures Next(net, states[|steps| - 1], steps[|steps| - 1], states[|steps|])
  {
    var shorter, fewer := states[..|steps|], steps[..|steps| - 1];
    forall i | 0 <= i < |fewer|
      ensures Next(net, shorter[i], fewer[i], shorter[i + 1])
    {
      assert Next(net, states[i], steps[i], states[i + 1]);
    }
  }

  lemma {:induction false} RunKeeps(net: Network, steps: seq<Event>, states: seq<FloodState>)
    requires net.Valid() && IsRun(net, steps, states)
    ensures Inv(net, states[|steps|])
  {
    if steps == [] {
      StartInv(net);
    } else {
      var k := |steps| - 1;
      RunPrefix(net, steps, states);
      RunKeeps(net, steps[..k], states[..k + 1]);
      StepKeeps(net, states[k], steps[k]);
    }
  }

  lemma {:induction false} RunSpends(net: Network, steps: seq<Event>, states: seq<FloodState>)
    requires net.Valid() && IsRun(net, steps, states)
    ensures Potential(net, states[|steps|]) + |steps| <= Potential(net, Start(net))
  {
    if steps != [] {
      var k := |steps| - 1;
      RunPrefix(net, steps, states);
      RunKeeps(net, steps[..k], states[..k + 1]);
      RunSpends(net, steps[..k], states[..k + 1]);
      RunKeeps(net, steps, states);
      StepSpends(net, states[k], steps[k]);
    }
  }

  function Pairs(nodes: set<Node>, ids: set<MsgId>): set<(Node, MsgId)> {
    set n, id | n in nodes && id in ids :: (n, id)
  }

  lemma {:induction false} PairCount(nodes: set<Node>, ids: set<MsgId>)
    ensures |Pairs(nodes, ids)| == |nodes| * |ids|
  {
    if nodes == {} {
      assert Pairs(nodes, ids) == {};
    } else {
      var n :| n in nodes;
      PairCount(nodes - {n}, ids);
      RowCount(n, ids);
      var row := set id | id in ids :: (n, id);
      assert Pairs(nodes, ids) == Pairs(nodes - {n}, ids) + row;
      AddRow(|nodes|, |ids|);
    }
  }

  lemma AddRow(a: int, b: int)
    ensures (a - 1) * b + b == a * b
  {
  }

  lemma {:induction false} RowCount(n: Node, ids: set<MsgId>)
    ensures |set id | id in ids :: (n, id)| == |ids|
  {
    if ids != {} {
      var id :| id in ids;
      RowCount(n, ids - {id});
      assert (set x | x in ids :: (n, x)) == (set x | x in ids - {id} :: (n, x)) + {(n, id)};
    }
  }

  /** Every run ends: its length is bounded by the size of the network alone. */
  lemma FloodTerminates(net: Network, steps: seq<Event>, states: seq<FloodState>)
    requires net.Valid() && IsRun(net, steps, states)
    ensures |steps| <= |net.nodes| * |net.origin| * (|net.Links()| + 1)
  {
    RunSpends(net, steps, states);
    PairCount(net.nodes, net.origin.Keys);
    assert Unseen(net, Start(net)) == Pairs(net.nodes, net.origin.Keys);
  }

  /** A run can stop only when everything was published and nothing is in flight. */
  lemma StuckIsQuiet(net: Network, steps: seq<Event>, states: seq<FloodState>)
    requires net.Valid() && IsRun(net, steps, states)
    ensures (forall step :: !Enabled(net, states[|steps|], step)) <==> Quiet(net, states[|steps|])
  {
    RunKeeps(net, steps, states);
    var s := states[|steps|];
    if !Quiet(net, s) {
      if s.flying != multiset{} {
        var f :| f in s.flying;
        assert Enabled(net, s, Deliver(f));
      } else {
        var id :| id in net.origin && id !in s.published;
        assert Enabled(net, s, Originate(id));
      }
    }
  }

  /** At every moment no router has delivered an id twice, and never its own. */
  lemma NeverTwice(net: Network, steps: seq<Event>, states: seq<FloodState>, n: Node, id: MsgId)
    requires net.Valid() && IsRun(net, steps, states)
    requires n in net.nodes && id in net.origin
    ensures n in states[|steps|].delivered
    ensures states[|steps|].delivered[n][id] <= if net.origin[id] == n then 0 else 1
  {
    RunKeeps(net, steps, states);
  }

  lemma {:induction false} QuietClosed(net: Network, s: FloodState, id: MsgId, path: seq<Node>)
    requires Inv(net, s) && s.flying == multiset{} && net.IsPath(path)
    requires path[0] in net.nodes && id in s.seen[path[0]]
    ensures path[|path| - 1] in net.nodes && id in s.seen[path[|path| - 1]]
  {
    var k := |path| - 1;
    if k > 0 {
      var shorter := path[..k];
      assert forall i | 0 <= i < k :: shorter[i] == path[i];
      QuietClosed(net, s, id, shorter);
      assert net.Adjacent(path[k - 1], path[k]);
      var p, q :| net.Linked(p, q) && p.node == path[k - 1] && q.node == path[k];
      assert id in s.seen[q.node] || InFlightTo(s, q, id);
    }
  }

  /** Once the network is quiet, exactly the routers the origin can reach have
      delivered the message, each exactly once; the origin has not delivered it. */
  lemma FloodDelivers(net: Network, steps: seq<Event>, states: seq<FloodState>, n: Node, id: MsgId)
    requires net.Valid() && IsRun(net, steps, states)
    requires Quiet(net, states[|steps|])
    requires n in net.nodes && id in net.origin
    ensures n in states[|steps|].delivered
    ensures states[|steps|].delivered[n][id] == if n != net.origin[id] && net.Reachable(net.origin[id], n) then 1 else 0
  {
    RunKeeps(net, steps, states);
    var s := states[|steps|];
    if net.Reachable(net.origin[id], n) {
      var path :| net.IsPath(path) && path[0] == net.origin[id] && path[|path| - 1] == n;
      QuietClosed(net, s, id, path);
    }
  }
}
