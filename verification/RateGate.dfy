/** Spacing and concurrency of outgoing inference requests. */
module RateGate {
  import opened Options

  /** One pass through the spacing lock: the clock on entry, and the clock after any sleep. */
  datatype Pass = Pass(now: real, woke: real)

  function Wait(interval: real, last: Option<real>, now: real): real {
    if last.None? || interval - (now - last.value) <= 0.0 then 0.0 else interval - (now - last.value)
  }

  /** A pass waits exactly until an interval has gone by since the last one, and not at all when it has. */
  lemma WaitIsShortest(interval: real, last: Option<real>, now: real)
    ensures var wait := Wait(interval, last, now);
            && wait >= 0.0
            && (last.Some? ==> now + wait >= last.value + interval)
            && (wait > 0.0 ==> last.Some? && now + wait == last.value + interval)
  {
  }

  class Gate {
    const interval: real
    var last: Option<real>

    constructor (interval: real)
      ensures this.interval == interval && last.None?
    {
      this.interval := interval;
      last := None;
    }

    /** The clock does not run backwards and a sleep lasts at least as long as asked for. */
    method Space(p: Pass) returns (slept: real, at: real)
      requires interval > 0.0 && (last.Some? ==> p.now >= last.value)
      requires p.woke >= p.now + Wait(interval, last, p.now)
      modifies this
      ensures slept == Wait(interval, old(last), p.now) && at == p.woke && last == Some(at)
      ensures old(last).Some? ==> at - old(last).value >= interval
    {
      slept := 0.0;
      if last.Some? {
        var wait := interval - (p.now - last.value);
        if wait > 0.0 {
          slept := wait;
        }
      }
      at := p.woke;
      last := Some(at);
    }

    method SpaceAll(passes: seq<Pass>) returns (stamps: seq<real>)
      requires interval > 0.0 && last.None? && Honest(interval, None, passes)
      modifies this
      ensures |stamps| == |passes| && forall i | 0 <= i < |passes| :: stamps[i] == passes[i].woke
      ensures Spaced(interval, stamps)
    {
      stamps := [];
      for i := 0 to |passes|
        invariant |stamps| == i && forall k | 0 <= k < i :: stamps[k] == passes[k].woke
        invariant Spaced(interval, stamps)
        invariant last == if i == 0 then None else Some(passes[i - 1].woke)
        invariant Honest(interval, last, passes[i..])
      {
        assert passes[i..][0] == passes[i] && passes[i..][1..] == passes[i + 1..];
        var _, at := Space(passes[i]);
        stamps := stamps + [at];
      }
    }
  }

  ghost predicate Honest(interval: real, last: Option<real>, passes: seq<Pass>)
    decreases |passes|
  {
    passes != [] ==>
      && (last.Some? ==> passes[0].now >= last.value)
      && passes[0].woke >= passes[0].now + Wait(interval, last, passes[0].now)
      && Honest(interval, Some(passes[0].woke), passes[1..])
  }

  ghost predicate Spaced(interval: real, times: seq<real>) {
    forall i, j | 0 <= i < |times| && 0 <= j < |times| && j == i + 1 :: times[j] - times[i] >= interval
  }

  /** So a window of time holds no more requests than its length allows. */
  lemma {:induction false} SpacedApart(interval: real, times: seq<real>, i: nat, j: nat)
    requires Spaced(interval, times) && i <= j < |times|
    ensures times[j] - times[i] >= (j - i) as real * interval
  {
    if i < j {
      SpacedApart(interval, times, i, j - 1);
      assert times[j] - times[j - 1] >= interval;
      assert (j - i) as real == (j - 1 - i) as real + 1.0;
      assert (j - i) as real * interval == (j - 1 - i) as real * interval + interval;
    }
  }

  /** When a request is cleared by the spacing, starts, and ends. */
  datatype Request = Request(stamp: real, start: real, end: real)

  function Overlapping(requests: seq<Request>, at: real): nat {
    if requests == [] then 0
    else
      Overlapping(requests[..|requests| - 1], at) +
      if requests[|requests| - 1].start <= at < requests[|requests| - 1].end then 1 else 0
  }

  /** All permits are taken; with no permits configured there is nothing to take. */
  predicate Busy(permits: nat, requests: seq<Request>, at: real) {
    permits > 0 && Overlapping(requests, at) >= permits
  }

  /** Spacing first, then a permit: a cleared request starts at once unless all permits are taken, holds its
      permit for as long as it runs, and never makes more than the permitted number run. */
  ghost predicate Scheduled(interval: real, permits: nat, requests: seq<Request>) {
    && Spaced(interval, Stamps(requests))
    && (forall r | r in requests :: r.stamp <= r.start < r.end)
    && (permits > 0 ==> forall r | r in requests :: Overlapping(requests, r.start) <= permits)
    && (forall r, at | r in requests && r.stamp <= at < r.start :: Busy(permits, requests, at))
  }

  function Stamps(requests: seq<Request>): seq<real> {
    seq(|requests|, i requires 0 <= i < |requests| => requests[i].stamp)
  }

  function Starts(requests: seq<Request>): seq<real> {
    seq(|requests|, i requires 0 <= i < |requests| => requests[i].start)
  }

  /** Without a concurrency limit the requests themselves are spaced. */
  lemma UnlimitedStartsAreSpaced(interval: real, requests: seq<Request>)
    requires Scheduled(interval, 0, requests)
    ensures Spaced(interval, Starts(requests))
  {
    forall i | 0 <= i < |requests| ensures requests[i].start == requests[i].stamp {
      var r := requests[i];
      assert r in requests;
      assert r.stamp < r.start ==> Busy(0, requests, r.stamp);
    }
    assert Starts(requests) == Stamps(requests);
  }

  lemma OneMore(requests: seq<Request>, r: Request, at: real)
    ensures Overlapping(requests + [r], at) == Overlapping(requests, at) + if r.start <= at < r.end then 1 else 0
  {
    assert (requests + [r])[..|requests|] == requests;
  }

  function Tick(i: nat, interval: real): real { if i == 0 then 0.0 else Tick(i - 1, interval) + interval }

  /** n requests that start as cleared and all end at the same late time. */
  function Long(n: nat, interval: real, end: real): (requests: seq<Request>)
    ensures |requests| == n
  {
    if n == 0 then []
    else Long(n - 1, interval, end) + [Request(Tick(n - 1, interval), Tick(n - 1, interval), end)]
  }

  lemma {:induction false} LongOverlap(n: nat, interval: real, end: real, at: real)
    requires interval > 0.0
    ensures var o := Overlapping(Long(n, interval, end), at);
            o <= n && (at >= end ==> o == 0) && (Tick(n, interval) <= at + interval && at < end ==> o == n)
  {
    if n > 0 {
      LongOverlap(n - 1, interval, end, at);
      OneMore(Long(n - 1, interval, end), Request(Tick(n - 1, interval), Tick(n - 1, interval), end), at);
    }
  }

  lemma {:induction false} LongIs(n: nat, interval: real, end: real)
    requires interval > 0.0 && end > Tick(n, interval)
    ensures forall i | 0 <= i < n ::
              var r := Long(n, interval, end)[i]; r.stamp == r.start == Tick(i, interval) && r.start < r.end == end
  {
    if n > 0 {
      LongIs(n - 1, interval, end);
    }
  }

  lemma {:induction false} LongMember(n: nat, interval: real, end: real, r: Request)
    requires interval > 0.0 && end > Tick(n, interval) && r in Long(n, interval, end)
    ensures r.stamp == r.start < r.end
  {
    if n > 0 && r in Long(n - 1, interval, end) {
      LongMember(n - 1, interval, end, r);
    }
  }

  /** A request that holds the last permit for three intervals, and two short ones that queue behind it and run
      one after the other, half an interval each. */
  function Chain(t: real, interval: real): seq<Request> {
    [Request(t, t, t + 3.0 * interval),
     Request(t + interval, t + 3.0 * interval, t + 3.5 * interval),
     Request(t + 2.0 * interval, t + 3.5 * interval, t + 4.0 * interval)]
  }

  /** All permits but one are held by long requests; the chain passes the last one on. */
  function Bunch(n: nat, interval: real): seq<Request> {
    var t := Tick(n, interval);
    Long(n, interval, t + 4.0 * interval) + Chain(t, interval)
  }

  lemma ChainOverlap(front: seq<Request>, t: real, interval: real, at: real)
    requires interval > 0.0
    ensures Overlapping(front + Chain(t, interval), at) ==
            Overlapping(front, at) + if t <= at < t + 4.0 * interval then 1 else 0
  {
    var c := Chain(t, interval);
    OneMore(front, c[0], at);
    OneMore(front + [c[0]], c[1], at);
    OneMore(front + [c[0]] + [c[1]], c[2], at);
    assert front + c == front + [c[0]] + [c[1]] + [c[2]];
  }

  lemma BunchOverlap(n: nat, interval: real, at: real)
    requires interval > 0.0
    ensures var o, t := Overlapping(Bunch(n, interval), at), Tick(n, interval);
            o <= n + 1 && (t <= at < t + 4.0 * interval ==> o == n + 1)
  {
    var t := Tick(n, interval);
    ChainOverlap(Long(n, interval, t + 4.0 * interval), t, interval, at);
    LongOverlap(n, interval, t + 4.0 * interval, at);
  }

  lemma BunchMembers(n: nat, interval: real, r: Request)
    requires interval > 0.0 && r in Bunch(n, interval)
    ensures r.stamp <= r.start < r.end
    ensures var t := Tick(n, interval); r.stamp == r.start || (t <= r.stamp && r.start < t + 4.0 * interval)
  {
    var t := Tick(n, interval);
    if r in Long(n, interval, t + 4.0 * interval) {
      LongMember(n, interval, t + 4.0 * interval, r);
    } else {
      assert r in Chain(t, interval);
    }
  }

  lemma StampsSpaced(n: nat, interval: real)
    requires interval > 0.0
    ensures Spaced(interval, Stamps(Bunch(n, interval)))
  {
    var t := Tick(n, interval);
    LongIs(n, interval, t + 4.0 * interval);
    var stamps := Stamps(Bunch(n, interval));
    forall i, j | 0 <= i < |stamps| && 0 <= j < |stamps| && j == i + 1 ensures stamps[j] - stamps[i] >= interval {
      assert j < n ==> stamps[j] == Tick(j, interval);
      assert i < n ==> stamps[i] == Tick(i, interval);
    }
  }

  /** With a limit, requests that queue for a permit can start closer together than the interval. */
  lemma PermitsBunchStarts(interval: real, permits: nat) returns (requests: seq<Request>)
    requires interval > 0.0 && permits > 0
    ensures Scheduled(interval, permits, requests) && !Spaced(interval, Starts(requests))
  {
    var n := permits - 1;
    requests := Bunch(n, interval);
    StampsSpaced(n, interval);
    forall r | r in requests ensures r.stamp <= r.start < r.end && Overlapping(requests, r.start) <= permits {
      BunchMembers(n, interval, r);
      BunchOverlap(n, interval, r.start);
    }
    forall r, at | r in requests && r.stamp <= at < r.start ensures Busy(permits, requests, at) {
      BunchMembers(n, interval, r);
      BunchOverlap(n, interval, at);
    }
    assert Starts(requests)[n + 2] - Starts(requests)[n + 1] < interval;
  }

  /** The request rate is bounded by the spacing exactly when concurrency is not limited as well. */
  lemma RateIsBoundedExactly(interval: real, permits: nat)
    requires interval > 0.0
    ensures (forall requests :: Scheduled(interval, permits, requests) ==> Spaced(interval, Starts(requests))) <==>
            permits == 0
  {
    if permits == 0 {
      forall requests | Scheduled(interval, 0, requests) ensures Spaced(interval, Starts(requests)) {
        UnlimitedStartsAreSpaced(interval, requests);
      }
    } else {
      var requests := PermitsBunchStarts(interval, permits);
    }
  }
}
