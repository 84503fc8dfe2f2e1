/** Coalescing of refresh requests: one discovery at a time, and one queued request for whatever comes meanwhile. */
module Refresh {
  import opened Options

  /** running, begins and calls are times in steps: when each discovery under way began, when every discovery
      so far began, and when every request was made. found is what the last completed discovery found; nothing
      stands for the empty source before the first one. */
  datatype State = State(
    inFlight: bool, queued: bool, current: Option<string>, onDisk: Option<string>,
    clock: nat, running: seq<nat>, begins: seq<nat>, calls: seq<nat>, found: Option<string>)

  const INITIAL := State(false, false, None, None, 0, [], [], [], None)

  /** A request; a discovery that ends, with what it found; one that raises; one whose result cannot be written. */
  datatype Event = Call | Done(source: string) | Throws | WriteThrows(source: string)

  function Begin(s: State, at: nat): State {
    s.(inFlight := true, running := s.running + [at], begins := s.begins + [at])
  }

  function Request(s: State): State {
    var t := s.(clock := s.clock + 1, calls := s.calls + [s.clock]);
    if s.inFlight then t.(queued := true) else Begin(t, s.clock)
  }

  function Return(s: State): State
    requires s.running != []
  {
    s.(clock := s.clock + 1, running := s.running[1..])
  }

  function Store(s: State, source: string): State {
    var t := s.(found := Some(source));
    if s.current == Some(source) then t else t.(current := Some(source), onDisk := Some(source))
  }

  /** After the finally block: go again for a queued request. */
  function Leave(s: State, at: nat): State {
    var t := s.(inFlight := false);
    if t.queued then Begin(t.(queued := false), at) else t
  }

  predicate Enabled(s: State, e: Event) {
    match e
    case Call => true
    case Done(_) => s.running != []
    case Throws => s.running != []
    case WriteThrows(source) => s.running != [] && s.current != Some(source)
  }

  predicate Raises(e: Event) { e.Throws? || e.WriteThrows? }

  function Step(s: State, e: Event): State
    requires Enabled(s, e)
  {
    match e
    case Call => Request(s)
    case Done(source) => Leave(Store(Return(s), source), s.clock)
    case Throws => Return(s).(inFlight := false)
    case WriteThrows(source) => Return(s).(inFlight := false, current := Some(source), found := Some(source))
  }

  ghost predicate IsRun(events: seq<Event>, states: seq<State>) {
    && |states| == |events| + 1 && states[0] == INITIAL
    && forall i | 0 <= i < |events| :: Enabled(states[i], events[i]) && states[i + 1] == Step(states[i], events[i])
  }

  // ---------- what holds whatever goes wrong ----------

  /** A request is followed when a discovery begins no earlier. */
  ghost predicate Followed(s: State, call: nat) { exists b | b in s.begins :: b >= call }

  ghost predicate AllFollowed(s: State) { forall c | c in s.calls :: Followed(s, c) }

  /** One discovery at a time, the latest to begin, exactly while the flag is up; a request not followed yet
      is queued. */
  ghost predicate Sound(s: State) {
    && (if s.inFlight then |s.running| == 1 else s.running == [])
    && (!s.queued ==> AllFollowed(s))
    && (s.running != [] ==> s.running[0] in s.begins && forall b | b in s.begins :: b <= s.running[0])
    && (forall c | c in s.calls :: c < s.clock) && (forall b | b in s.begins :: b < s.clock)
    && s.current == s.found
  }

  lemma StepKeepsSound(s: State, e: Event)
    requires Sound(s) && Enabled(s, e)
    ensures Sound(Step(s, e))
  {
    var t := Step(s, e);
    if !t.queued {
      forall c | c in t.calls ensures Followed(t, c) {
        if c in s.calls && !s.queued && Followed(s, c) {
          var b :| b in s.begins && b >= c;
          assert b in t.begins;
        } else {
          assert t.begins[|t.begins| - 1] in t.begins;
        }
      }
    }
  }

  lemma {:induction false} RunsAreSound(events: seq<Event>, states: seq<State>, k: nat)
    requires IsRun(events, states) && k < |states|
    ensures Sound(states[k])
  {
    if k > 0 {
      RunsAreSound(events, states, k - 1);
      StepKeepsSound(states[k - 1], events[k - 1]);
    }
  }

  // ---------- nothing raises ----------

  /** The flag for a queued request is up exactly while a request is not followed, and then only behind a
      discovery; the file holds what was found last. */
  ghost predicate Tight(s: State) {
    && (s.queued <==> !AllFollowed(s))
    && (s.queued ==> s.inFlight)
    && s.onDisk == s.current
  }

  lemma StepKeepsTight(s: State, e: Event)
    requires Sound(s) && Tight(s) && Enabled(s, e) && !Raises(e)
    ensures Tight(Step(s, e))
  {
    var t := Step(s, e);
    StepKeepsSound(s, e);
    if e.Call? && s.inFlight {
      assert t.calls[|t.calls| - 1] == s.clock && !Followed(t, s.clock);
    }
  }

  lemma {:induction false} RunsAreTight(events: seq<Event>, states: seq<State>, k: nat)
    requires IsRun(events, states) && k < |states| && forall i | 0 <= i < k :: !Raises(events[i])
    ensures Tight(states[k])
  {
    if k > 0 {
      RunsAreTight(events, states, k - 1);
      RunsAreSound(events, states, k - 1);
      StepKeepsTight(states[k - 1], events[k - 1]);
    }
  }

  /** With one discovery running, a request is followed exactly when that discovery began no earlier. */
  lemma FollowedByRunning(s: State, call: nat)
    requires Sound(s) && s.inFlight
    ensures Followed(s, call) <==> s.running[0] >= call
  {
  }

  /** A discovery begun at this time is no older than any of the requests. */
  ghost predicate Covers(begin: nat, calls: seq<nat>) { forall c | c in calls :: c <= begin }

  /** The source a discovery leaves behind on going idle was found by a discovery begun after the last request,
      and it is what the file holds. */
  lemma LastSourceIsFresh(events: seq<Event>, states: seq<State>, k: nat)
    requires IsRun(events, states) && k < |events| && forall i | 0 <= i <= k :: !Raises(events[i])
    requires events[k].Done? && !states[k + 1].inFlight
    ensures states[k].inFlight && Covers(states[k].running[0], states[k + 1].calls)
    ensures states[k + 1].found == states[k + 1].onDisk == Some(events[k].source)
  {
    RunsAreSound(events, states, k);
    RunsAreTight(events, states, k);
    RunsAreTight(events, states, k + 1);
    forall c | c in states[k].calls ensures c <= states[k].running[0] {
      FollowedByRunning(states[k], c);
    }
  }

  /** As long as nothing raises: whenever no discovery is under way, either none was ever asked for, or the file
      holds what the last discovery found, and that one began no earlier than any request. */
  lemma NoRequestIsLost(events: seq<Event>, states: seq<State>, k: nat)
    requires IsRun(events, states) && k < |states| && forall i | 0 <= i < k :: !Raises(events[i])
    requires !states[k].inFlight
    ensures AllFollowed(states[k]) && states[k].running == [] && states[k].onDisk == states[k].found
    ensures k == 0 || (events[k - 1].Done? && states[k - 1].inFlight
                       && Covers(states[k - 1].running[0], states[k].calls)
                       && states[k].onDisk == Some(events[k - 1].source))
  {
    RunsAreSound(events, states, k);
    RunsAreTight(events, states, k);
    if k > 0 {
      assert !Raises(events[k - 1]);
      LastSourceIsFresh(events, states, k - 1);
    }
  }

  // ---------- something raises ----------

  /** Whatever went wrong before, an error leaves a request that nothing follows exactly when one was made after
      the discovery that raises began. */
  lemma RaisingLosesExactly(events: seq<Event>, states: seq<State>, k: nat)
    requires IsRun(events, states) && k < |events| && Raises(events[k])
    ensures states[k].inFlight && !states[k + 1].inFlight
    ensures AllFollowed(states[k + 1]) <==> Covers(states[k].running[0], states[k].calls)
  {
    var s, t := states[k], states[k + 1];
    RunsAreSound(events, states, k);
    assert t.calls == s.calls && t.begins == s.begins;
    forall c | c in s.calls ensures Followed(t, c) <==> s.running[0] >= c {
      FollowedByRunning(s, c);
      assert Followed(t, c) <==> Followed(s, c);
    }
  }

  /** The queued flag says so as long as nothing has raised before. */
  lemma FirstRaiseLosesExactly(events: seq<Event>, states: seq<State>, k: nat)
    requires IsRun(events, states) && k < |events| && forall i | 0 <= i < k :: !Raises(events[i])
    requires Raises(events[k])
    ensures !AllFollowed(states[k + 1]) <==> states[k].queued
  {
    RaisingLosesExactly(events, states, k);
    RunsAreTight(events, states, k);
    RunsAreSound(events, states, k);
    forall c | c in states[k].calls ensures Followed(states[k], c) <==> states[k].running[0] >= c {
      FollowedByRunning(states[k], c);
    }
  }

  /** After that the flag may be left over: here it is up when the second discovery raises, and yet every request
      was followed. */
  lemma TheFlagCanBeStale() returns (events: seq<Event>, states: seq<State>)
    ensures IsRun(events, states) && events == [Call, Call, Throws, Call, Throws]
    ensures states[4].queued && AllFollowed(states[5])
  {
    var s1 := Step(INITIAL, Call);
    var s2 := Step(s1, Call);
    var s3 := Step(s2, Throws);
    var s4 := Step(s3, Call);
    var s5 := Step(s4, Throws);
    events, states := [Call, Call, Throws, Call, Throws], [INITIAL, s1, s2, s3, s4, s5];
    assert s5.calls == [0, 1, 3] && s5.begins == [0, 3];
    assert 3 in s5.begins;
  }

  /** So a request can be lost: the first discovery raises while a second request waits for it. */
  lemma ARequestCanBeLost() returns (events: seq<Event>, states: seq<State>)
    ensures IsRun(events, states) && |events| == 3
    ensures !states[3].inFlight && states[3].running == [] && 1 in states[3].calls && !Followed(states[3], 1)
  {
    var s1 := Step(INITIAL, Call);
    var s2 := Step(s1, Call);
    var s3 := Step(s2, Throws);
    events, states := [Call, Call, Throws], [INITIAL, s1, s2, s3];
    assert s3.calls == [0, 1] && s3.begins == [0];
  }

  /** The next request rescues every earlier one. */
  lemma NextRequestRescues(s: State)
    requires Sound(s) && !s.inFlight
    ensures AllFollowed(Step(s, Call))
  {
    var t := Step(s, Call);
    assert t.begins[|t.begins| - 1] == s.clock;
    forall c | c in t.calls ensures Followed(t, c) {
      assert s.clock in t.begins && s.clock >= c;
    }
  }

  /** A discovery brings the file up to date unless a write of the very same source has failed before. */
  lemma FileIsCurrentExactly(s: State, source: string)
    requires Enabled(s, Done(source))
    ensures Step(s, Done(source)).onDisk == Some(source) <==> s.onDisk == Some(source) || s.current != Some(source)
  {
  }

  /** The write at step i failed with something new to say, and the source has not changed since. */
  ghost predicate FailedLast(events: seq<Event>, states: seq<State>, i: nat, k: nat)
    requires |states| == |events| + 1 && i < k < |states|
  {
    && events[i].WriteThrows? && states[i].onDisk != Some(events[i].source)
    && forall j | i < j <= k :: states[j].current == Some(events[i].source)
  }

  /** At any time of any run, the file differs from the remembered source exactly when the write of that source
      failed and no other source was found since. */
  lemma {:induction false} FileIsStaleExactly(events: seq<Event>, states: seq<State>, k: nat)
    requires IsRun(events, states) && k < |states|
    ensures states[k].onDisk != states[k].current <==> exists i | 0 <= i < k :: FailedLast(events, states, i, k)
  {
    if k > 0 {
      FileIsStaleExactly(events, states, k - 1);
      var s, t, e := states[k - 1], states[k], events[k - 1];
      forall i | 0 <= i < k && FailedLast(events, states, i, k) ensures t.onDisk != t.current {
        StaysStale(events, states, i, k);
      }
      if t.onDisk != t.current {
        if e.WriteThrows? {
          assert FailedLast(events, states, k - 1, k);
        } else {
          assert t.onDisk == s.onDisk && t.current == s.current;
          var i :| 0 <= i < k - 1 && FailedLast(events, states, i, k - 1);
          assert FailedLast(events, states, i, k);
        }
      }
    }
  }

  lemma {:induction false} StaysStale(events: seq<Event>, states: seq<State>, i: nat, k: nat)
    requires IsRun(events, states) && i < k < |states| && FailedLast(events, states, i, k)
    ensures states[k].onDisk == states[i].onDisk
  {
    if i + 1 < k {
      assert FailedLast(events, states, i, k - 1);
      StaysStale(events, states, i, k - 1);
      var e := events[k - 1];
      if e.Done? {
        FileIsCurrentExactly(states[k - 1], e.source);
      }
    }
  }

  /** A failed write is not tried again for the same source: a later discovery that finds it leaves the file
      as it was. */
  lemma AFailedWriteSticks(source: string) returns (events: seq<Event>, states: seq<State>)
    ensures IsRun(events, states) && |events| == 4
    ensures events == [Call, WriteThrows(source), Call, Done(source)]
    ensures states[4].found == Some(source) && states[4].onDisk == None && !states[4].inFlight
  {
    var s1 := Step(INITIAL, Call);
    var s2 := Step(s1, WriteThrows(source));
    var s3 := Step(s2, Call);
    var s4 := Step(s3, Done(source));
    events, states := [Call, WriteThrows(source), Call, Done(source)], [INITIAL, s1, s2, s3, s4];
  }

  // ---------- the plugin ----------

  ghost predicate Reachable(s: State) {
    exists events, states :: IsRun(events, states) && states[|events|] == s
  }

  lemma StepReachable(s: State, e: Event)
    requires Reachable(s) && Enabled(s, e)
    ensures Reachable(Step(s, e))
  {
    var events, states :| IsRun(events, states) && states[|events|] == s;
    var longer := states + [Step(s, e)];
    assert IsRun(events + [e], longer) && longer[|events + [e]|] == Step(s, e);
  }

  lemma ReachableIsSound(s: State)
    requires Reachable(s)
    ensures Sound(s)
  {
    var events, states :| IsRun(events, states) && states[|events|] == s;
    RunsAreSound(events, states, |events|);
  }

  /** How a discovery and the write of its result ended; an unchanged source is not written. */
  datatype Found = Source(text: string) | DiscoveryRaised | WriteRaised(text: string)

  /** The discovery raises, or what it found is new and cannot be written. */
  predicate Fails(f: Found, current: Option<string>) {
    f.DiscoveryRaised? || (f.WriteRaised? && current != Some(f.text))
  }

  /** The current source over the discoveries of a call: each that does not fail replaces it by what it found, and
      the first that fails is the last. */
  predicate Traced(start: Option<string>, script: seq<Found>, used: nat, raised: bool, sources: seq<Option<string>>) {
    && used <= |script| && |sources| == used + (if raised then 0 else 1) && sources != [] && sources[0] == start
    && (forall i | 0 <= i < |sources| - 1 ::
          !Fails(script[i], sources[i]) && sources[i + 1] == Some(script[i].text))
    && (raised ==> Fails(script[used - 1], sources[used - 1]))
  }

  lemma TraceMore(start: Option<string>, script: seq<Found>, used: nat, sources: seq<Option<string>>)
    requires Traced(start, script, used, false, sources) && used < |script|
    ensures if Fails(script[used], sources[used]) then Traced(start, script, used + 1, true, sources)
            else Traced(start, script, used + 1, false, sources + [Some(script[used].text)])
  {
  }

  lemma ChangesMore(sources: seq<Option<string>>, next: Option<string>)
    requires sources != []
    ensures var more := sources + [next];
            (exists i :: 0 <= i < |more| - 1 && more[i] != more[i + 1]) <==>
            (exists i :: 0 <= i < |sources| - 1 && sources[i] != sources[i + 1]) || sources[|sources| - 1] != next
  {
    var more := sources + [next];
    if sources[|sources| - 1] != next {
      assert more[|sources| - 1] != more[|sources| - 1 + 1];
    }
    forall i | 0 <= i < |sources| - 1 && sources[i] != sources[i + 1]
      ensures more[i] != more[i + 1]
    {
    }
  }

  class MockupPreview {
    var refreshInFlight: bool
    var refreshQueued: bool
    var currentSource: Option<string>
    var onDisk: Option<string>
    ghost var clock: nat
    ghost var running: seq<nat>
    ghost var begins: seq<nat>
    ghost var calls: seq<nat>
    ghost var found: Option<string>

    ghost function Model(): State
      reads this
    {
      State(refreshInFlight, refreshQueued, currentSource, onDisk, clock, running, begins, calls, found)
    }

    ghost predicate Valid()
      reads this
    {
      Reachable(Model())
    }

    constructor ()
      ensures Valid() && Model() == INITIAL
    {
      refreshInFlight, refreshQueued, currentSource, onDisk := false, false, None, None;
      clock, running, begins, calls, found := 0, [], [], [], None;
      new;
      assert IsRun([], [INITIAL]) && [INITIAL][0] == Model();
    }

    /** refresh() up to its first await: nothing but a flag if a discovery is under way. */
    method Enter() returns (waits: bool)
      requires Valid()
      modifies this
      ensures Valid() && Model() == Step(old(Model()), Call) && refreshInFlight
      ensures waits == old(refreshInFlight)
    {
      StepReachable(Model(), Call);
      calls, clock := calls + [clock], clock + 1;
      if refreshInFlight {
        refreshQueued := true;
        return true;
      }
      refreshInFlight := true;
      running, begins := running + [clock - 1], begins + [clock - 1];
      return false;
    }

    /** A discovery has come back: store what it found, and go again if a request is queued. */
    method Resume(text: string) returns (changed: bool, again: bool)
      requires Valid() && refreshInFlight
      modifies this
      ensures Valid() && Enabled(old(Model()), Done(text)) && Model() == Step(old(Model()), Done(text))
      ensures changed <==> old(currentSource) != Some(text)
      ensures again == refreshInFlight == old(refreshQueued) && !refreshQueued
      ensures currentSource == Some(text)
    {
      ReachableIsSound(Model());
      StepReachable(Model(), Done(text));
      changed, again := false, false;
      clock, running, found := clock + 1, running[1..], Some(text);
      if currentSource != Some(text) {
        currentSource, onDisk := Some(text), Some(text);
        changed := true;
      }
      refreshInFlight := false;
      if refreshQueued {
        refreshQueued := false;
        refreshInFlight := true;
        running, begins := running + [clock - 1], begins + [clock - 1];
        again := true;
      }
    }

    /** A discovery, or the write of its result, has raised: the exception leaves through the finally block. */
    method Fail(text: Option<string>)
      requires Valid() && refreshInFlight && (text.Some? ==> text != currentSource)
      modifies this
      ensures Valid() && !refreshInFlight && refreshQueued == old(refreshQueued)
      ensures var e := if text.Some? then WriteThrows(text.value) else Throws;
              Enabled(old(Model()), e) && Model() == Step(old(Model()), e)
    {
      ReachableIsSound(Model());
      StepReachable(Model(), if text.Some? then WriteThrows(text.value) else Throws);
      clock, running := clock + 1, running[1..];
      if text.Some? {
        currentSource, found := text, text;
      }
      refreshInFlight := false;
    }

    /** While a discovery is awaited, anyone may ask for a refresh. */
    method Await()
      requires Valid() && refreshInFlight
      modifies this
      ensures Valid() && refreshInFlight && currentSource == old(currentSource)
      ensures old(calls) <= calls && (refreshQueued <==> old(refreshQueued) || |calls| > |old(calls)|)
    {
      var turns: int := *;
      turns := if turns < 0 then 0 else turns;
      for i := 0 to turns
        invariant Valid() && refreshInFlight && currentSource == old(currentSource)
        invariant old(calls) <= calls && (refreshQueued <==> old(refreshQueued) || |calls| > |old(calls)|)
      {
        var _ := Enter();
      }
    }

    /** One discovery: it comes back with a source, or something raises. It is followed by another exactly when a
        request was queued or made meanwhile. */
    method Discover(f: Found) returns (changed: bool, again: bool, raised: bool)
      requires Valid() && refreshInFlight
      modifies this
      ensures Valid() && refreshInFlight == again && old(calls) <= calls
      ensures raised <==> Fails(f, old(currentSource))
      ensures if raised then !again
              else currentSource == Some(f.text) && (again <==> old(refreshQueued) || |calls| > |old(calls)|)
      ensures !raised ==> !refreshQueued && (changed <==> currentSource != old(currentSource))
    {
      Await();
      if f.Source? || (f.WriteRaised? && currentSource == Some(f.text)) {
        changed, again := Resume(f.text);
        raised := false;
      } else {
        Fail(if f.WriteRaised? then Some(f.text) else None);
        changed, again, raised := false, false, true;
      }
    }

    /** The call that runs discoveries: one after the other while requests keep coming, for as long as the script says
        what they find. When it is over without raising, nothing is queued and every request so far has been followed.
        The sources are the one current before, and the one each discovery found. */
    method RunRefresh(script: seq<Found>)
        returns (changed: bool, over: bool, raised: bool, used: nat, ghost sources: seq<Option<string>>)
      requires Valid()
      modifies this
      ensures Valid() && used <= |script|
      ensures old(refreshInFlight) ==> over && !changed && !raised && Model() == Step(old(Model()), Call)
      ensures !old(refreshInFlight) && over ==> !refreshInFlight
      ensures !old(refreshInFlight) && over && !raised ==> !refreshQueued && AllFollowed(Model())
      ensures !over ==> used == |script|
      ensures Traced(old(currentSource), script, used, raised, sources)
      ensures !raised ==> sources[|sources| - 1] == currentSource
      ensures changed <==> exists i :: 0 <= i < |sources| - 1 && sources[i] != sources[i + 1]
    {
      changed, over, raised, used := false, false, false, 0;
      sources := [currentSource];
      var waits := Enter();
      if waits {
        over := true;
        return;
      }
      while used < |script| && !over
        invariant Valid() && refreshInFlight == !over && used <= |script|
        invariant raised ==> over
        invariant over && !raised ==> !refreshQueued
        invariant Traced(old(currentSource), script, used, raised, sources)
        invariant !raised ==> sources[|sources| - 1] == currentSource
        invariant changed <==> exists i :: 0 <= i < |sources| - 1 && sources[i] != sources[i + 1]
        decreases |script| - used
      {
        var one, again;
        one, again, raised := Discover(script[used]);
        over, used := !again, used + 1;
        if !raised {
          ghost var before := sources;
          changed, sources := changed || one, sources + [currentSource];
          ChangesMore(before, currentSource);
        }
        TraceMore(old(currentSource), script, used - 1, if raised then sources else sources[..|sources| - 1]);
      }
      ReachableIsSound(Model());
    }
  }
}
