/** Many routers joined by shared media: every message floods the connected part of
    the network and then the network falls silent, whatever the delivery order.

    A frame sent on a port reaches every other port of the same medium. Forwarding is
    one step here; because a frame may stay in flight arbitrarily long, this covers
    pumps that are suspended between two sends. */
module Flood {
  import opened Options
  import opened Sequences
  import opened Router

  type Node = nat
  datatype Port = Port(node: Node, transport: Transport)
  datatype Frame = Frame(from: Port, to: Port, id: MsgId)

  /** `media` says which medium each port is attached to, `origin` which node publishes
      each id, `size` the capacity of every router's dedupe cache. */
  datatype Network = Network(nodes: set<Node>, media: map<Port, nat>, origin: map<MsgId, Node>, size: nat) {
    ghost predicate Valid() {
      && (forall p | p in media :: p.node in nodes)
      && (forall id | id in origin :: origin[id] in nodes)
      && |origin| <= size
    }

    /** A frame sent on `p` is heard by `q`. */
    predicate Linked(p: Port, q: Port) {
      p in media && q in media && p != q && media[p] == media[q]
    }

    function Links(): set<(Port, Port)> {
      set p, q | p in media && q in media && Linked(p, q) :: (p, q)
    }

    /** The frames of one broadcast of `id` by `n` on all its ports but `skip`. */
    function Sends(n: Node, skip: Option<Port>, id: MsgId): set<Frame> {
      set l | l in Links() && l.0.node == n && skip != Some(l.0) :: Frame(l.0, l.1, id)
    }

    ghost predicate Adjacent(a: Node, b: Node) {
      exists p, q :: Linked(p, q) && p.node == a && q.node == b
    }

    ghost predicate IsPath(path: seq<Node>) {
      && path != []
      && forall i, j | 0 <= i < |path| && 0 <= j < |path| && j == i + 1 :: Adjacent(path[i], path[j])
    }

    ghost predicate Reachable(a: Node, b: Node) {
      exists path :: IsPath(path) && path[0] == a && path[|path| - 1] == b
    }
  }

  datatype FloodState = FloodState(
    published: set<MsgId>,
    seen: map<Node, seq<MsgId>>,
    delivered: map<Node, multiset<MsgId>>,
    flying: multiset<Frame>)

  datatype Event = Originate(id: MsgId) | Deliver(frame: Frame)

  function Start(net: Network): FloodState {
    FloodState({}, map n | n in net.nodes :: [], map n | n in net.nodes :: multiset{}, multiset{})
  }

  /** Ids are fresh: each is published once. Any frame in flight may be the next to arrive. */
  predicate Enabled(net: Network, s: FloodState, step: Event) {
    match step
    case Originate(id) => id in net.origin && id !in s.published
    case Deliver(f) => f in s.flying
  }

  ghost predicate Shaped(net: Network, s: FloodState) {
    && s.seen.Keys == net.nodes
    && s.delivered.Keys == net.nodes
    && (forall f | f in s.flying :: net.Linked(f.from, f.to) && f.id in s.published)
    && (forall id | id in s.published :: id in net.origin)
  }

  function Apply(net: Network, s: FloodState, step: Event): FloodState
    requires net.Valid() && Shaped(net, s) && Enabled(net, s, step)
  {
    match step
    case Originate(id) =>
      var n := net.origin[id];
      s.(published := s.published + {id},
         seen := s.seen[n := Marked(s.seen[n], id, net.size)],
         flying := s.flying + multiset(net.Sends(n, None, id)))
    case Deliver(f) =>
      var n := f.to.node;
      var rest := s.flying - multiset{f};
      if f.id in s.seen[n] then s.(flying := rest)
      else s.(seen := s.seen[n := Marked(s.seen[n], f.id, net.size)],
              delivered := s.delivered[n := s.delivered[n] + multiset{f.id}],
              flying := rest + multiset(net.Sends(n, Some(f.to), f.id)))
  }

  // ----- What every step keeps -----

  ghost predicate InFlightTo(s: FloodState, q: Port, id: MsgId) {
    exists p :: Frame(p, q, id) in s.flying
  }

  /** Caches hold published ids only, without repeats: they never evict. */
  ghost predicate CachesSound(net: Network, s: FloodState)
    requires Shaped(net, s)
  {
    forall n | n in net.nodes :: Distinct(s.seen[n]) && forall id | id in s.seen[n] :: id in s.published
  }

  /** The sender of every frame in flight, and the origin of every id, has the id. */
  ghost predicate SendersHave(net: Network, s: FloodState)
    requires net.Valid() && Shaped(net, s)
  {
    && (forall f | f in s.flying :: f.id in s.seen[f.from.node])
    && (forall id | id in s.published :: id in s.seen[net.origin[id]])
  }

  /** Whatever a node has, each of its neighbours has or is about to get. */
  ghost predicate Covered(net: Network, s: FloodState)
    requires net.Valid() && Shaped(net, s)
  {
    forall p, q, id | net.Linked(p, q) && id in s.seen[p.node] :: id in s.seen[q.node] || InFlightTo(s, q, id)
  }

  ghost predicate DeliveredSound(net: Network, s: FloodState)
    requires Shaped(net, s)
  {
    forall n, id | n in net.nodes && id in net.origin ::
      s.delivered[n][id] == if id in s.seen[n] && net.origin[id] != n then 1 else 0
  }

  ghost predicate OnlyReached(net: Network, s: FloodState)
    requires Shaped(net, s)
  {
    forall n, id | n in net.nodes && id in net.origin && id in s.seen[n] :: net.Reachable(net.origin[id], n)
  }

  ghost predicate Inv(net: Network, s: FloodState) {
    && net.Valid()
    && Shaped(net, s)
    && CachesSound(net, s)
    && SendersHave(net, s)
    && Covered(net, s)
    && DeliveredSound(net, s)
    && OnlyReached(net, s)
  }

  /** A cache that already holds everything published still has room for one more id. */
  lemma NoEviction(net: Network, s: FloodState, n: Node, id: MsgId)
    requires net.Valid() && Shaped(net, s) && CachesSound(net, s)
    requires n in net.nodes && id in net.origin && id !in s.seen[n]
    ensures Marked(s.seen[n], id, net.size) == s.seen[n] + [id]
    ensures Distinct(s.seen[n] + [id])
  {
    var grown := s.seen[n] + [id];
    assert forall x | x in grown :: x in net.origin.Keys;
    DistinctFits(grown, net.origin.Keys);
  }

  lemma ReachSelf(net: Network, n: Node)
    ensures net.Reachable(n, n)
  {
    assert net.IsPath([n]) && [n][0] == n;
  }

  lemma ReachStep(net: Network, a: Node, b: Node, c: Node)
    requires net.Reachable(a, b) && net.Adjacent(b, c)
    ensures net.Reachable(a, c)
  {
    var path :| net.IsPath(path) && path[0] == a && path[|path| - 1] == b;
    var longer := path + [c];
    assert longer[0] == a && longer[|longer| - 1] == c;
    forall i, j | 0 <= i < |longer| && 0 <= j < |longer| && j == i + 1
      ensures net.Adjacent(longer[i], longer[j])
    {
      if j < |path| {
        assert longer[i] == path[i] && longer[j] == path[j];
      }
    }
  }

  lemma SendsAre(net: Network, n: Node, skip: Option<Port>, id: MsgId)
    ensures forall f :: f in net.Sends(n, skip, id) <==>
                        net.Linked(f.from, f.to) && f.from.node == n && skip != Some(f.from) && f.id == id
  {
    forall f: Frame | net.Linked(f.from, f.to) && f.from.node == n && skip != Some(f.from) && f.id == id
      ensures f in net.Sends(n, skip, id)
    {
      assert (f.from, f.to) in net.Links();
    }
  }

  /** `t` is `s` after `n` marked `id`: it broadcast the id on all ports but `skip`, and
      at most the frame `gone` left the air. */
  ghost predicate Marks(net: Network, s: FloodState, t: FloodState, n: Node, id: MsgId,
                        skip: Option<Port>, gone: Option<Frame>) {
    && t.seen.Keys == s.seen.Keys
    && n in s.seen && id !in s.seen[n]
    && t.seen == s.seen[n := s.seen[n] + [id]]
    && (forall f | f in t.flying :: f in s.flying || f in net.Sends(n, skip, id))
    && (forall f | f in s.flying :: f in t.flying || gone == Some(f))
    && (forall f | f in net.Sends(n, skip, id) :: f in t.flying)
  }

  lemma OriginateMarks(net: Network, s: FloodState, id: MsgId)
    requires net.Valid() && Shaped(net, s) && CachesSound(net, s) && Enabled(net, s, Originate(id))
    ensures Marks(net, s, Apply(net, s, Originate(id)), net.origin[id], id, None, None)
  {
    NoEviction(net, s, net.origin[id], id);
  }

  lemma NewIdMarks(net: Network, s: FloodState, f: Frame)
    requires net.Valid() && Shaped(net, s) && CachesSound(net, s) && Enabled(net, s, Deliver(f))
    requires f.id !in s.seen[f.to.node]
    ensures Marks(net, s, Apply(net, s, Deliver(f)), f.to.node, f.id, Some(f.to), Some(f))
  {
    NoEviction(net, s, f.to.node, f.id);
  }

  /** The port a new id arrived on needs no forwarding: the sender's own broadcast
      covers everyone else on that medium. */
  lemma MarkingCovers(net: Network, s: FloodState, t: FloodState, n: Node, id: MsgId,
                      skip: Option<Port>, gone: Option<Frame>)
    requires Inv(net, s) && Shaped(net, t)
    requires Marks(net, s, t, n, id, skip, gone)
    requires skip.Some? == gone.Some?
    requires gone.Some? ==>
               && gone.value in s.flying && gone.value.to == skip.value && gone.value.id == id
               && skip.value.node == n
    ensures Covered(net, t)
  {
    SendsAre(net, n, skip, id);
    forall p, q, x | net.Linked(p, q) && x in t.seen[p.node]
      ensures x in t.seen[q.node] || InFlightTo(t, q, x)
    {
      if x in t.seen[q.node] {
      } else if x in s.seen[p.node] {
        StillFlying(net, s, t, n, id, skip, gone, q, x);
      } else if skip == Some(p) {
        assert net.Linked(gone.value.from, q);
        StillFlying(net, s, t, n, id, skip, gone, q, x);
      } else {
        assert Frame(p, q, x) in net.Sends(n, skip, id);
        assert Frame(p, q, x) in t.flying;
      }
    }
  }

  lemma StillFlying(net: Network, s: FloodState, t: FloodState, n: Node, id: MsgId,
                    skip: Option<Port>, gone: Option<Frame>, q: Port, x: MsgId)
    requires Marks(net, s, t, n, id, skip, gone)
    requires gone.Some? ==> gone.value.to.node == n && gone.value.id == id
    requires q.node in t.seen && x !in t.seen[q.node] && InFlightTo(s, q, x)
    ensures InFlightTo(t, q, x)
  {
    var p :| Frame(p, q, x) in s.flying;
    assert Frame(p, q, x) in t.flying;
  }

  lemma MarkingSound(net: Network, s: FloodState, t: FloodState, n: Node, id: MsgId,
                     skip: Option<Port>, gone: Option<Frame>)
    requires net.Valid() && Shaped(net, s) && Shaped(net, t) && CachesSound(net, s)
    requires Marks(net, s, t, n, id, skip, gone)
    requires s.published <= t.published && id in t.published
    ensures CachesSound(net, t)
  {
    NoEviction(net, s, n, id);
  }

  lemma MarkingSends(net: Network, s: FloodState, t: FloodState, n: Node, id: MsgId,
                     skip: Option<Port>, gone: Option<Frame>)
    requires net.Valid() && Shaped(net, s) && Shaped(net, t) && SendersHave(net, s)
    requires Marks(net, s, t, n, id, skip, gone)
    requires t.published == s.published || (t.published == s.published + {id} && net.origin[id] == n)
    ensures SendersHave(net, t)
  {
    SendsAre(net, n, skip, id);
  }

  lemma MarkingReaches(net: Network, s: FloodState, t: FloodState, n: Node, id: MsgId,
                       skip: Option<Port>, gone: Option<Frame>)
    requires Shaped(net, s) && Shaped(net, t) && OnlyReached(net, s)
    requires Marks(net, s, t, n, id, skip, gone)
    requires id in net.origin && net.Reachable(net.origin[id], n)
    ensures OnlyReached(net, t)
  {
  }

  lemma OriginateShaped(net: Network, s: FloodState, id: MsgId)
    requires net.Valid() && Shaped(net, s) && Enabled(net, s, Originate(id))
    ensures Shaped(net, Apply(net, s, Originate(id)))
  {
    SendsAre(net, net.origin[id], None, id);
  }

  lemma NewIdShaped(net: Network, s: FloodState, f: Frame)
    requires net.Valid() && Shaped(net, s) && Enabled(net, s, Deliver(f))
    ensures Shaped(net, Apply(net, s, Deliver(f)))
  {
    SendsAre(net, f.to.node, Some(f.to), f.id);
  }

  lemma OriginateDelivers(net: Network, s: FloodState, t: FloodState, id: MsgId)
    requires Shaped(net, s) && Shaped(net, t) && DeliveredSound(net, s)
    requires id in net.origin && t.delivered == s.delivered
    requires Marks(net, s, t, net.origin[id], id, None, None)
    ensures DeliveredSound(net, t)
  {
  }

  lemma NewIdDelivers(net: Network, s: FloodState, t: FloodState, f: Frame)
    requires net.Valid() && Shaped(net, s) && Shaped(net, t) && DeliveredSound(net, s) && SendersHave(net, s)
    requires f in s.flying
    requires t.delivered == s.delivered[f.to.node := s.delivered[f.to.node] + multiset{f.id}]
    requires Marks(net, s, t, f.to.node, f.id, Some(f.to), Some(f))
    ensures DeliveredSound(net, t)
  {
    assert f.id in s.seen[net.origin[f.id]];
  }

  lemma OriginateKeeps(net: Network, s: FloodState, id: MsgId)
    requires Inv(net, s) && Enabled(net, s, Originate(id))
    ensures Inv(net, Apply(net, s, Originate(id)))
  {
    var n, t := net.origin[id], Apply(net, s, Originate(id));
    OriginateMarks(net, s, id);
    OriginateShaped(net, s, id);
    MarkingSound(net, s, t, n, id, None, None);
    MarkingSends(net, s, t, n, id, None, None);
    MarkingCovers(net, s, t, n, id, None, None);
    ReachSelf(net, n);
    MarkingReaches(net, s, t, n, id, None, None);
    OriginateDelivers(net, s, t, id);
  }

  lemma NewIdKeeps(net: Network, s: FloodState, f: Frame)
    requires Inv(net, s) && Enabled(net, s, Deliver(f))
    requires f.id !in s.seen[f.to.node]
    ensures Inv(net, Apply(net, s, Deliver(f)))
  {
    var n, t := f.to.node, Apply(net, s, Deliver(f));
    NewIdMarks(net, s, f);
    NewIdShaped(net, s, f);
    MarkingSound(net, s, t, n, f.id, Some(f.to), Some(f));
    MarkingSends(net, s, t, n, f.id, Some(f.to), Some(f));
    MarkingCovers(net, s, t, n, f.id, Some(f.to), Some(f));
    SenderReached(net, s, f);
    MarkingReaches(net, s, t, n, f.id, Some(f.to), Some(f));
    NewIdDelivers(net, s, t, f);
  }

  lemma SenderReached(net: Network, s: FloodState, f: Frame)
    requires net.Valid() && Shaped(net, s) && SendersHave(net, s) && OnlyReached(net, s)
    requires f in s.flying
    ensures net.Reachable(net.origin[f.id], f.to.node)
  {
    assert net.Adjacent(f.from.node, f.to.node);
    ReachStep(net, net.origin[f.id], f.from.node, f.to.node);
  }

  lemma DuplicateKeeps(net: Network, s: FloodState, f: Frame)
    requires Inv(net, s) && Enabled(net, s, Deliver(f))
    requires f.id in s.seen[f.to.node]
    ensures Inv(net, Apply(net, s, Deliver(f)))
  {
    var t := Apply(net, s, Deliver(f));
    assert Covered(net, t) by { DuplicateCovers(net, s, t, f); }
  }

  lemma DuplicateCovers(net: Network, s: FloodState, t: FloodState, f: Frame)
    requires net.Valid() && Shaped(net, s) && Shaped(net, t) && Covered(net, s)
    requires t.seen == s.seen && t.flying == s.flying - multiset{f}
    requires f.to.node in s.seen && f.id in s.seen[f.to.node]
    ensures Covered(net, t)
  {
    forall p, q, x | net.Linked(p, q) && x in t.seen[p.node]
      ensures x in t.seen[q.node] || InFlightTo(t, q, x)
    {
      if x !in s.seen[q.node] {
        var from :| Frame(from, q, x) in s.flying;
        assert Frame(from, q, x) in t.flying;
      }
    }
  }

  lemma StepKeeps(net: Network, s: FloodState, step: Event)
    requires Inv(net, s) && Enabled(net, s, step)
    ensures Inv(net, Apply(net, s, step))
  {
    match step {
      case Originate(id) => OriginateKeeps(net, s, id);
      case Deliver(f) =>
        if f.id in s.seen[f.to.node] {
          DuplicateKeeps(net, s, f);
        } else {
          NewIdKeeps(net, s, f);
        }
    }
  }

  // ----- Termination -----

  /** The node/id pairs still to be marked. */
  ghost function Unseen(net: Network, s: FloodState): set<(Node, MsgId)> {
    set n, id | n in net.nodes && id in net.origin && (n in s.seen ==> id !in s.seen[n]) :: (n, id)
  }

  /** Marking one pair costs at most one frame per link. */
  ghost function Potential(net: Network, s: FloodState): nat {
    |Unseen(net, s)| * (|net.Links()| + 1) + |s.flying|
  }

  lemma {:induction false} FramesOfLinks(links: set<(Port, Port)>, id: MsgId)
    ensures |set l | l in links :: Frame(l.0, l.1, id)| == |links|
  {
    if links != {} {
      var l :| l in links;
      FramesOfLinks(links - {l}, id);
      assert (set k | k in links :: Frame(k.0, k.1, id))
          == (set k | k in links - {l} :: Frame(k.0, k.1, id)) + {Frame(l.0, l.1, id)};
    }
  }

  lemma {:induction false} SubsetIsSmaller<T>(a: set<T>, b: set<T>)
    requires a <= b
    ensures |a| <= |b|
  {
    if a != {} {
      var x :| x in a;
      SubsetIsSmaller(a - {x}, b - {x});
    }
  }

  lemma SendsBounded(net: Network, n: Node, skip: Option<Port>, id: MsgId)
    ensures |net.Sends(n, skip, id)| <= |net.Links()|
  {
    FramesOfLinks(net.Links(), id);
    SubsetIsSmaller(net.Sends(n, skip, id), set l | l in net.Links() :: Frame(l.0, l.1, id));
  }

  lemma MarkingPays(unseen: nat, links: nat, before: nat, after: nat)
    requires unseen > 0 && after <= before + links
    ensures (unseen - 1) * (links + 1) + after < unseen * (links + 1) + before
  {
  }

  lemma MarkingUses(net: Network, s: FloodState, t: FloodState, n: Node, id: MsgId)
    requires Shaped(net, s) && Shaped(net, t)
    requires n in net.nodes && id in net.origin && id !in s.seen[n] && t.seen == s.seen[n := s.seen[n] + [id]]
    ensures |Unseen(net, s)| > 0 && |Unseen(net, t)| == |Unseen(net, s)| - 1
  {
    assert (n, id) in Unseen(net, s);
    assert Unseen(net, t) == Unseen(net, s) - {(n, id)};
  }

  lemma MarkingSpends(net: Network, s: FloodState, t: FloodState, n: Node, id: MsgId,
                      skip: Option<Port>, gone: Option<Frame>)
    requires Shaped(net, s) && Shaped(net, t) && Marks(net, s, t, n, id, skip, gone)
    requires id in net.origin
    requires |t.flying| <= |s.flying| + |net.Sends(n, skip, id)|
    ensures Potential(net, t) < Potential(net, s)
  {
    SendsBounded(net, n, skip, id);
    MarkingUses(net, s, t, n, id);
    MarkingPays(|Unseen(net, s)|, |net.Links()|, |s.flying|, |t.flying|);
  }

  lemma StepSpends(net: Network, s: FloodState, step: Event)
    requires net.Valid() && Shaped(net, s) && CachesSound(net, s) && Enabled(net, s, step)
    requires Shaped(net, Apply(net, s, step))
    ensures Potential(net, Apply(net, s, step)) < Potential(net, s)
  {
    var t := Apply(net, s, step);
    match step {
      case Originate(id) =>
        OriginateMarks(net, s, id);
        MarkingSpends(net, s, t, net.origin[id], id, None, None);
      case Deliver(f) =>
        if f.id in s.seen[f.to.node] {
          assert Unseen(net, t) == Unseen(net, s);
        } else {
          NewIdMarks(net, s, f);
          MarkingSpends(net, s, t, f.to.node, f.id, Some(f.to), Some(f));
        }
    }
  }
}
