/** Counting distinct tracks with one high-water mark instead of a set of ids. */
module Tracks {
  import opened Options
  import opened Sequences

  datatype Update = Fault | Ids(ids: seq<int>)

  datatype State = State(active: nat, total: nat, highest: Option<int>, dropped: nat)

  const INITIAL := State(0, 0, None, 0)

  predicate Above(mark: Option<int>, id: int) { mark.None? || id > mark.value }

  /** How many ids of a frame lie above the mark. */
  function CountAbove(mark: Option<int>, ids: seq<int>): nat {
    if ids == [] then 0
    else CountAbove(mark, ids[..|ids| - 1]) + (if Above(mark, ids[|ids| - 1]) then 1 else 0)
  }

  function Raise(mark: Option<int>, ids: seq<int>): Option<int> {
    if ids == [] then mark
    else
      var m := Raise(mark, ids[..|ids| - 1]);
      if Above(m, ids[|ids| - 1]) then Some(ids[|ids| - 1]) else m
  }

  function Apply(s: State, u: Update): State {
    match u
    case Fault => s.(dropped := s.dropped + 1)
    case Ids(ids) =>
      State(|ids|, s.total + CountAbove(s.highest, ids), Raise(s.highest, ids), s.dropped)
  }

  function After(updates: seq<Update>): State {
    if updates == [] then INITIAL else Apply(After(updates[..|updates| - 1]), updates[|updates| - 1])
  }

  /** Counting and raising the mark in one pass over the ids of a frame. */
  method Tally(total: nat, highest: Option<int>, ids: seq<int>) returns (newTotal: nat, newHighest: Option<int>)
    ensures newTotal == total + CountAbove(highest, ids)
    ensures newHighest == Raise(highest, ids)
  {
    newTotal, newHighest := total, highest;
    for k := 0 to |ids|
      invariant newTotal == total + CountAbove(highest, ids[..k])
      invariant newHighest == Raise(highest, ids[..k])
    {
      assert ids[..k + 1][..k] == ids[..k];
      if highest.None? || ids[k] > highest.value {
        newTotal := newTotal + 1;
      }
      if newHighest.None? || ids[k] > newHighest.value {
        newHighest := Some(ids[k]);
      }
    }
    assert ids[..|ids|] == ids;
  }

  // ---------- what the other counters say ----------

  function Faults(updates: seq<Update>): nat {
    if updates == [] then 0
    else Faults(updates[..|updates| - 1]) + if updates[|updates| - 1].Fault? then 1 else 0
  }

  /** How many ids the last frame without a fault named. */
  function LastActive(updates: seq<Update>): nat {
    if updates == [] then 0
    else
      match updates[|updates| - 1]
      case Fault => LastActive(updates[..|updates| - 1])
      case Ids(ids) => |ids|
  }

  lemma {:induction false} CountersExactly(updates: seq<Update>)
    ensures After(updates).dropped == Faults(updates) && After(updates).active == LastActive(updates)
  {
    if updates != [] {
      CountersExactly(updates[..|updates| - 1]);
    }
  }

  // ---------- what the mark can and cannot count ----------

  function Elements(ids: seq<int>): set<int> { set x | x in ids }

  function IdsOf(u: Update): set<int> { if u.Fault? then {} else Elements(u.ids) }

  lemma SplitLast(ids: seq<int>)
    requires ids != []
    ensures forall x :: x in ids <==> x in ids[..|ids| - 1] || x == ids[|ids| - 1]
  {
    assert ids == ids[..|ids| - 1] + [ids[|ids| - 1]];
  }

  /** Every id the tracker has handed out. */
  function Emitted(updates: seq<Update>): set<int> {
    if updates == [] then {} else Emitted(updates[..|updates| - 1]) + IdsOf(updates[|updates| - 1])
  }

  /** Each frame names an id once. */
  ghost predicate DistinctFrames(updates: seq<Update>) {
    forall u | u in updates && u.Ids? :: Distinct(u.ids)
  }

  /** An id seen for the first time is above every id of the earlier frames. */
  ghost predicate FirstsAscend(updates: seq<Update>) {
    forall i | 0 <= i < |updates| :: Ascends(Emitted(updates[..i]), updates[i])
  }

  ghost predicate Ascends(seen: set<int>, u: Update) {
    forall x, y | x in IdsOf(u) && x !in seen && y in seen :: x > y
  }

  ghost predicate IsMaximum(mark: Option<int>, ids: set<int>) {
    if mark.None? then ids == {} else mark.value in ids && forall x | x in ids :: x <= mark.value
  }

  lemma {:induction false} RaiseIsMaximum(mark: Option<int>, seen: set<int>, ids: seq<int>)
    requires IsMaximum(mark, seen)
    ensures IsMaximum(Raise(mark, ids), seen + Elements(ids))
  {
    if ids != [] {
      var front := ids[..|ids| - 1];
      RaiseIsMaximum(mark, seen, front);
      SplitLast(ids);
      assert seen + Elements(ids) == seen + Elements(front) + {ids[|ids| - 1]};
    } else {
      assert seen + Elements(ids) == seen;
    }
  }

  lemma {:induction false} HighestIsMaximum(updates: seq<Update>)
    ensures IsMaximum(After(updates).highest, Emitted(updates))
  {
    if updates != [] {
      var before := updates[..|updates| - 1];
      HighestIsMaximum(before);
      match updates[|updates| - 1]
      case Fault => assert Emitted(updates) == Emitted(before);
      case Ids(ids) => RaiseIsMaximum(After(before).highest, Emitted(before), ids);
    }
  }

  function AboveIds(mark: Option<int>, ids: seq<int>): set<int> { set x | x in ids && Above(mark, x) }

  lemma {:induction false} CountAboveIsSize(mark: Option<int>, ids: seq<int>)
    requires Distinct(ids)
    ensures CountAbove(mark, ids) == |AboveIds(mark, ids)|
  {
    if ids != [] {
      var front := ids[..|ids| - 1];
      var last := ids[|ids| - 1];
      CountAboveIsSize(mark, front);
      SplitLast(ids);
      var fewer := AboveIds(mark, front);
      assert AboveIds(mark, ids) == if Above(mark, last) then fewer + {last} else fewer;
    }
  }

  lemma SubsetSize(a: set<int>, b: set<int>)
    requires a <= b
    ensures |a| <= |b|
    ensures |a| == |b| <==> a == b
  {
    assert b == a + (b - a);
  }

  function NewIds(seen: set<int>, ids: seq<int>): set<int> { Elements(ids) - seen }

  lemma AboveAreNew(mark: Option<int>, seen: set<int>, ids: seq<int>)
    requires IsMaximum(mark, seen)
    ensures AboveIds(mark, ids) <= NewIds(seen, ids)
    ensures AboveIds(mark, ids) == NewIds(seen, ids) <==> Ascends(seen, Ids(ids))
  {
    if Ascends(seen, Ids(ids)) {
      assert forall x | x in NewIds(seen, ids) :: x in AboveIds(mark, ids);
    }
    if AboveIds(mark, ids) == NewIds(seen, ids) {
      forall x, y | x in IdsOf(Ids(ids)) && x !in seen && y in seen ensures x > y {
        assert x in NewIds(seen, ids);
        assert x in AboveIds(mark, ids);
      }
    }
  }

  /** One frame counts at most the ids that are new, and exactly those when the new ids ascend. */
  lemma FrameCounts(mark: Option<int>, seen: set<int>, ids: seq<int>)
    requires IsMaximum(mark, seen) && Distinct(ids)
    ensures var more := |seen + IdsOf(Ids(ids))| - |seen|;
            && CountAbove(mark, ids) <= more
            && (CountAbove(mark, ids) == more <==> Ascends(seen, Ids(ids)))
  {
    CountAboveIsSize(mark, ids);
    NewIdsSize(seen, ids);
    assert AboveIds(mark, ids) <= NewIds(seen, ids) by { AboveAreNew(mark, seen, ids); }
    assert AboveIds(mark, ids) == NewIds(seen, ids) <==> Ascends(seen, Ids(ids)) by { AboveAreNew(mark, seen, ids); }
    SubsetSize(AboveIds(mark, ids), NewIds(seen, ids));
  }

  lemma NewIdsSize(seen: set<int>, ids: seq<int>)
    ensures |seen + IdsOf(Ids(ids))| == |seen| + |NewIds(seen, ids)|
  {
    var all := IdsOf(Ids(ids));
    assert seen + all == seen + NewIds(seen, ids);
    assert seen !! NewIds(seen, ids);
  }

  /** The count never exceeds the distinct ids handed out, and reaches it exactly when first
      appearances ascend from frame to frame. */
  lemma {:induction false} TotalIsDistinctExactly(updates: seq<Update>)
    requires DistinctFrames(updates)
    ensures After(updates).total <= |Emitted(updates)|
    ensures After(updates).total == |Emitted(updates)| <==> FirstsAscend(updates)
  {
    if updates != [] {
      var before, u := updates[..|updates| - 1], updates[|updates| - 1];
      assert u in updates && forall v | v in before :: v in updates;
      TotalIsDistinctExactly(before);
      assert updates == before + [u];
      TotalMore(before, u);
    }
  }

  lemma AfterMore(before: seq<Update>, u: Update)
    ensures After(before + [u]) == Apply(After(before), u)
    ensures Emitted(before + [u]) == Emitted(before) + IdsOf(u)
  {
    assert (before + [u])[..|before|] == before;
  }

  lemma TotalMore(before: seq<Update>, u: Update)
    requires u.Ids? ==> Distinct(u.ids)
    requires After(before).total <= |Emitted(before)|
    requires After(before).total == |Emitted(before)| <==> FirstsAscend(before)
    ensures After(before + [u]).total <= |Emitted(before + [u])|
    ensures After(before + [u]).total == |Emitted(before + [u])| <==> FirstsAscend(before + [u])
  {
    AfterMore(before, u);
    HighestIsMaximum(before);
    FirstsAscendSnoc(before, u);
    if u.Ids? {
      FrameCounts(After(before).highest, Emitted(before), u.ids);
    } else {
      assert Emitted(before) + {} == Emitted(before);
    }
  }

  lemma FirstsAscendSnoc(before: seq<Update>, u: Update)
    ensures FirstsAscend(before + [u]) <==> FirstsAscend(before) && Ascends(Emitted(before), u)
  {
    var updates := before + [u];
    assert updates[..|before|] == before;
    assert forall i | 0 <= i < |before| :: updates[..i] == before[..i];
    if FirstsAscend(updates) {
      assert Ascends(Emitted(updates[..|before|]), updates[|before|]);
      forall i | 0 <= i < |before| ensures Ascends(Emitted(before[..i]), before[i]) {
        assert Ascends(Emitted(updates[..i]), updates[i]);
      }
    }
  }
}
