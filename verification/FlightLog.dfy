/** The flight logger: callers fill a bounded queue, one writer thread empties it into four files. */
module FlightLog {
  import opened Options
  import opened Json
  import opened Dataset
  import opened CrashRecovery

  datatype Stream = Rc | Telemetry | Events | Frames

  datatype Item = Record(stream: Stream, fields: Fields) | Sentinel

  /** A capacity of zero means no bound. `handled` lists what the writer has taken, and whether the write
      succeeded; `offered` and `raised` count calls on a writable logger. */
  datatype State = State(
    queue: seq<Item>, files: map<Stream, seq<Fields>>, dropped: map<Stream, nat>, closed: bool, stopped: bool,
    handled: seq<(Item, bool)>, offered: map<Stream, nat>, raised: nat)

  datatype Event = Lossy(stream: Stream, fields: Fields) | Durable(fields: Fields) | Close | Write(ok: bool)

  // ---------- headers ----------

  function NameOf(s: Stream): string {
    match s
    case Rc => "rc"
    case Telemetry => "telemetry"
    case Events => "events"
    case Frames => "frames"
  }

  function FieldNames(s: Stream): List {
    match s
    case Rc => Cons(Str("t"), Cons(Str("ch"), Nil))
    case Telemetry => Cons(Str("t"), Cons(Str("type"), Cons(Str("data"), Nil)))
    case Events => Cons(Str("t"), Cons(Str("event"), Cons(Str("data"), Nil)))
    case Frames => Cons(Str("t"), Cons(Str("frame_idx"), Nil))
  }

  function Header(s: Stream): Fields {
    Field("schema_version", Int(DATASET_SCHEMA),
          Field("file", Str(NameOf(s)), Field("fields", Arr(FieldNames(s)), End)))
  }

  const ZERO: map<Stream, nat> := map s: Stream | true :: 0

  const HEADERS: map<Stream, seq<Fields>> := map s: Stream | true :: [Header(s)]

  const STARTED := State([], HEADERS, ZERO, false, false, [], ZERO, 0)

  // ---------- steps ----------

  predicate Total<T>(m: map<Stream, T>) { forall s: Stream :: s in m }

  predicate Full(capacity: nat, queue: seq<Item>) { capacity > 0 && |queue| >= capacity }

  predicate Ready(s: State) { Total(s.files) && Total(s.dropped) && Total(s.offered) }

  predicate Enabled(s: State, e: Event) { Ready(s) && (e.Write? ==> s.queue != [] && !s.stopped) }

  function Offer(s: State, stream: Stream): State
    requires Ready(s)
  {
    s.(offered := s.offered[stream := s.offered[stream] + 1])
  }

  function Drop(s: State, stream: Stream): State
    requires Ready(s)
  {
    s.(dropped := s.dropped[stream := s.dropped[stream] + 1])
  }

  /** A call on a closed logger raises and changes nothing. */
  function Step(capacity: nat, s: State, e: Event): State
    requires Enabled(s, e)
  {
    match e
    case Lossy(stream, fields) =>
      if s.closed then s
      else if Full(capacity, s.queue) then Drop(Offer(s, stream), stream)
      else Offer(s, stream).(queue := s.queue + [Record(stream, fields)])
    case Durable(fields) =>
      if s.closed then s
      else if Full(capacity, s.queue) then Offer(s, Events).(raised := s.raised + 1)
      else Offer(s, Events).(queue := s.queue + [Record(Events, fields)])
    case Close =>
      if s.closed then s
      else s.(closed := true, queue := if Full(capacity, s.queue) then s.queue else s.queue + [Sentinel])
    case Write(ok) =>
      var rest := s.(queue := s.queue[1..], handled := s.handled + [(s.queue[0], ok)]);
      match s.queue[0]
      case Sentinel => rest.(stopped := true)
      case Record(stream, fields) =>
        if ok then rest.(files := s.files[stream := s.files[stream] + [fields]]) else Drop(rest, stream)
  }

  ghost predicate IsRun(capacity: nat, events: seq<Event>, states: seq<State>) {
    && |states| == |events| + 1 && states[0] == STARTED
    && forall i | 0 <= i < |events| ::
         Enabled(states[i], events[i]) && states[i + 1] == Step(capacity, states[i], events[i])
  }

  // ---------- what a run keeps ----------

  /** The records of a stream that were written, in order. */
  function Written(handled: seq<(Item, bool)>, stream: Stream): seq<Fields> {
    if handled == [] then []
    else
      var (item, ok) := handled[|handled| - 1];
      Written(handled[..|handled| - 1], stream) +
      if ok && item.Record? && item.stream == stream then [item.fields] else []
  }

  function Queued(queue: seq<Item>, stream: Stream): nat {
    if queue == [] then 0
    else (if queue[0].Record? && queue[0].stream == stream then 1 else 0) + Queued(queue[1..], stream)
  }

  lemma {:induction false} QueuedSnoc(queue: seq<Item>, item: Item, stream: Stream)
    ensures Queued(queue + [item], stream) ==
            Queued(queue, stream) + if item.Record? && item.stream == stream then 1 else 0
  {
    if queue == [] {
      assert [item][1..] == [] && queue + [item] == [item];
    } else {
      assert (queue + [item])[1..] == queue[1..] + [item];
      QueuedSnoc(queue[1..], item, stream);
    }
  }

  /** What was offered is on file, waiting, counted as dropped, or was refused with an exception. */
  predicate Accounted(s: State, stream: Stream)
    requires Ready(s)
  {
    s.offered[stream] ==
    (|s.files[stream]| - 1) + Queued(s.queue, stream) + s.dropped[stream] + (if stream.Events? then s.raised else 0)
  }

  /** The file is the header and then what the writer wrote, in the order it was queued. */
  predicate Filed(s: State, stream: Stream)
    requires Ready(s)
  {
    s.files[stream] == [Header(stream)] + Written(s.handled, stream)
  }

  /** The sentinel comes last and only after close; once it is handled nothing is left. */
  predicate Ended(s: State) {
    && (forall i | 0 <= i < |s.queue| - 1 :: s.queue[i].Record?)
    && (Sentinel in s.queue ==> s.closed && !s.stopped)
    && (s.stopped ==> s.closed && s.queue == [])
  }

  ghost predicate Kept(capacity: nat, s: State) {
    && Ready(s) && Ended(s)
    && (forall stream: Stream :: Accounted(s, stream))
    && (forall stream: Stream :: Filed(s, stream))
    && (capacity > 0 ==> |s.queue| <= capacity)
  }

  /** The figures of one stream, apart from the rest of the state. */
  lemma Balance(s: State, t: State, stream: Stream, offered: nat, queued: nat, dropped: nat, raised: nat)
    requires Ready(s) && Ready(t) && Accounted(s, stream) && Filed(s, stream)
    requires t.files == s.files && t.handled == s.handled
    requires t.offered[stream] == s.offered[stream] + offered
    requires Queued(t.queue, stream) == Queued(s.queue, stream) + queued
    requires t.dropped[stream] == s.dropped[stream] + dropped
    requires t.raised == s.raised + raised
    requires offered == queued + dropped + if stream.Events? then raised else 0
    ensures Accounted(t, stream) && Filed(t, stream)
  {
  }

  lemma DropAccounts(s: State, to: Stream, stream: Stream)
    requires Ready(s) && Accounted(s, stream) && Filed(s, stream)
    ensures var t := Drop(Offer(s, to), to); Ready(t) && Accounted(t, stream) && Filed(t, stream)
  {
    var one := if to == stream then 1 else 0;
    Balance(s, Drop(Offer(s, to), to), stream, one, 0, one, 0);
  }

  lemma QueueAccounts(s: State, to: Stream, fields: Fields, stream: Stream)
    requires Ready(s) && Accounted(s, stream) && Filed(s, stream)
    ensures var t := Offer(s, to).(queue := s.queue + [Record(to, fields)]);
            Ready(t) && Accounted(t, stream) && Filed(t, stream)
  {
    var one := if to == stream then 1 else 0;
    QueuedSnoc(s.queue, Record(to, fields), stream);
    Balance(s, Offer(s, to).(queue := s.queue + [Record(to, fields)]), stream, one, one, 0, 0);
  }

  lemma LossyAccounts(capacity: nat, s: State, to: Stream, fields: Fields, stream: Stream)
    requires Ready(s) && Accounted(s, stream) && Filed(s, stream)
    ensures var t := Step(capacity, s, Lossy(to, fields)); Ready(t) && Accounted(t, stream) && Filed(t, stream)
  {
    if s.closed {
    } else if Full(capacity, s.queue) {
      DropAccounts(s, to, stream);
    } else {
      QueueAccounts(s, to, fields, stream);
    }
  }

  lemma DurableAccounts(capacity: nat, s: State, fields: Fields, stream: Stream)
    requires Ready(s) && Accounted(s, stream) && Filed(s, stream)
    ensures var t := Step(capacity, s, Durable(fields)); Ready(t) && Accounted(t, stream) && Filed(t, stream)
  {
    if s.closed {
    } else if Full(capacity, s.queue) {
      Balance(s, Step(capacity, s, Durable(fields)), stream, if stream == Events then 1 else 0, 0, 0, 1);
    } else {
      QueueAccounts(s, Events, fields, stream);
    }
  }

  lemma OfferAccounts(capacity: nat, s: State, e: Event, stream: Stream)
    requires Ready(s) && Accounted(s, stream) && Filed(s, stream) && !e.Write?
    ensures var t := Step(capacity, s, e); Ready(t) && Accounted(t, stream) && Filed(t, stream)
  {
    match e
    case Lossy(to, fields) => LossyAccounts(capacity, s, to, fields, stream);
    case Durable(fields) => DurableAccounts(capacity, s, fields, stream);
    case Close =>
      QueuedSnoc(s.queue, Sentinel, stream);
      Balance(s, Step(capacity, s, Close), stream, 0, 0, 0, 0);
  }

  lemma OfferEnds(capacity: nat, s: State, e: Event)
    requires Ready(s) && Ended(s) && !e.Write?
    ensures Ended(Step(capacity, s, e))
  {
  }

  /** Close leaves a sentinel exactly when the queue has room for it. */
  lemma CloseSignsOff(capacity: nat, s: State)
    requires Ready(s) && Ended(s) && !s.closed
    ensures Sentinel in Step(capacity, s, Close).queue <==> !Full(capacity, s.queue)
  {
    if !Full(capacity, s.queue) {
      assert (s.queue + [Sentinel])[|s.queue|] == Sentinel;
    }
  }

  lemma WriteEnds(capacity: nat, s: State, ok: bool)
    requires Enabled(s, Write(ok)) && Ended(s)
    ensures Ended(Step(capacity, s, Write(ok)))
    ensures var t := Step(capacity, s, Write(ok)); t.stopped || (Sentinel in t.queue <==> Sentinel in s.queue)
  {
    assert s.queue == [s.queue[0]] + s.queue[1..];
    if s.queue[0].Sentinel? && |s.queue| > 1 {
      assert false;
    }
  }

  lemma OfferKeeps(capacity: nat, s: State, e: Event)
    requires Kept(capacity, s) && !e.Write?
    ensures Kept(capacity, Step(capacity, s, e))
  {
    OfferEnds(capacity, s, e);
    forall stream: Stream
      ensures Accounted(Step(capacity, s, e), stream) && Filed(Step(capacity, s, e), stream)
    {
      OfferAccounts(capacity, s, e, stream);
    }
  }

  lemma WrittenSnoc(handled: seq<(Item, bool)>, item: Item, ok: bool, stream: Stream)
    ensures Written(handled + [(item, ok)], stream) ==
            Written(handled, stream) + if ok && item.Record? && item.stream == stream then [item.fields] else []
  {
    assert (handled + [(item, ok)])[..|handled|] == handled;
  }

  /** One record leaves the queue for the file, or for the count of dropped ones. */
  lemma Unload(s: State, t: State, stream: Stream, ok: bool)
    requires Ready(s) && Ready(t) && s.queue != [] && Accounted(s, stream) && Filed(s, stream)
    requires t.queue == s.queue[1..] && t.handled == s.handled + [(s.queue[0], ok)]
    requires t.offered == s.offered && t.raised == s.raised
    requires var mine := s.queue[0].Record? && s.queue[0].stream == stream;
             && t.files[stream] == s.files[stream] + (if ok && mine then [s.queue[0].fields] else [])
             && t.dropped[stream] == s.dropped[stream] + if !ok && mine then 1 else 0
    ensures Accounted(t, stream) && Filed(t, stream)
  {
    WrittenSnoc(s.handled, s.queue[0], ok, stream);
  }

  lemma WriteAccounts(capacity: nat, s: State, ok: bool, stream: Stream)
    requires Enabled(s, Write(ok)) && Accounted(s, stream) && Filed(s, stream)
    ensures var t := Step(capacity, s, Write(ok)); Ready(t) && Accounted(t, stream) && Filed(t, stream)
  {
    Unload(s, Step(capacity, s, Write(ok)), stream, ok);
  }

  lemma WriteKeeps(capacity: nat, s: State, ok: bool)
    requires Kept(capacity, s) && Enabled(s, Write(ok))
    ensures Kept(capacity, Step(capacity, s, Write(ok)))
  {
    WriteEnds(capacity, s, ok);
    forall stream: Stream
      ensures Accounted(Step(capacity, s, Write(ok)), stream) && Filed(Step(capacity, s, Write(ok)), stream)
    {
      WriteAccounts(capacity, s, ok, stream);
    }
  }

  lemma StartedKept(capacity: nat)
    ensures Kept(capacity, STARTED)
  {
  }

  /** In every interleaving of callers and writer, every offered record is on file in the order it was queued,
      waiting, or counted. */
  lemma {:induction false} RunsKeep(capacity: nat, events: seq<Event>, states: seq<State>, k: nat)
    requires IsRun(capacity, events, states) && k < |states|
    ensures Kept(capacity, states[k])
  {
    if k == 0 {
      StartedKept(capacity);
    } else {
      RunsKeep(capacity, events, states, k - 1);
      var e := events[k - 1];
      match e
      case Write(ok) => WriteKeeps(capacity, states[k - 1], ok);
      case _ => OfferKeeps(capacity, states[k - 1], e);
    }
  }

  // ---------- what is queued, and what is dropped ----------

  predicate HasRoom(capacity: nat, s: State) { capacity == 0 || |s.queue| < capacity }

  /** What a call on an open logger asks to be queued. */
  function Wanted(e: Event): seq<Item> {
    match e
    case Lossy(stream, fields) => [Record(stream, fields)]
    case Durable(fields) => [Record(Events, fields)]
    case Close => [Sentinel]
    case Write(_) => []
  }

  /** Everything asked for while the logger was open and there was room, in the order of the calls. */
  function Accepted(capacity: nat, events: seq<Event>, states: seq<State>): seq<Item>
    requires |states| > |events|
  {
    if events == [] then []
    else
      var n := |events| - 1;
      Accepted(capacity, events[..n], states) +
      if !states[n].closed && HasRoom(capacity, states[n]) then Wanted(events[n]) else []
  }

  function ItemsOf(handled: seq<(Item, bool)>): seq<Item> {
    if handled == [] then [] else ItemsOf(handled[..|handled| - 1]) + [handled[|handled| - 1].0]
  }

  lemma StepQueues(capacity: nat, s: State, e: Event)
    requires Enabled(s, e)
    ensures var t := Step(capacity, s, e);
            ItemsOf(t.handled) + t.queue ==
            ItemsOf(s.handled) + s.queue + if !s.closed && HasRoom(capacity, s) then Wanted(e) else []
  {
    if e.Write? {
      WriteMoves(capacity, s, e.ok);
    } else {
      assert Step(capacity, s, e).handled == s.handled;
    }
  }

  lemma WriteMoves(capacity: nat, s: State, ok: bool)
    requires Enabled(s, Write(ok))
    ensures var t := Step(capacity, s, Write(ok)); ItemsOf(t.handled) + t.queue == ItemsOf(s.handled) + s.queue
  {
    var t := Step(capacity, s, Write(ok));
    assert t.handled == s.handled + [(s.queue[0], ok)];
    assert t.handled[..|s.handled|] == s.handled;
    assert s.queue == [s.queue[0]] + s.queue[1..];
  }

  /** In every run, what the writer has taken and what is still queued are together exactly what was accepted, in
      that order: with room, nothing is turned away. */
  lemma {:induction false} QueueIsFifo(capacity: nat, events: seq<Event>, states: seq<State>)
    requires IsRun(capacity, events, states)
    ensures var s := states[|events|]; ItemsOf(s.handled) + s.queue == Accepted(capacity, events, states)
  {
    if events != [] {
      var n := |events| - 1;
      assert forall i | 0 <= i < n :: events[..n][i] == events[i];
      QueueIsFifo(capacity, events[..n], states[..n + 1]);
      SameAccepted(capacity, events[..n], states[..n + 1], states);
      StepQueues(capacity, states[n], events[n]);
    }
  }

  lemma {:induction false} SameAccepted(capacity: nat, events: seq<Event>, some: seq<State>, more: seq<State>)
    requires |events| < |some| && some <= more
    ensures Accepted(capacity, events, some) == Accepted(capacity, events, more)
  {
    if events != [] {
      SameAccepted(capacity, events[..|events| - 1], some, more);
    }
  }

  /** This step costs a record of the stream: a lossy call that finds an open logger's queue full, or a failed
      write. */
  predicate Costs(capacity: nat, s: State, e: Event, stream: Stream) {
    || (e.Lossy? && e.stream == stream && !s.closed && !HasRoom(capacity, s))
    || (e == Write(false) && s.queue != [] && s.queue[0].Record? && s.queue[0].stream == stream)
  }

  function Cost(capacity: nat, events: seq<Event>, states: seq<State>, stream: Stream, k: nat): nat
    requires k <= |events| < |states|
  {
    if k == 0 then 0
    else
      Cost(capacity, events, states, stream, k - 1) +
      if Costs(capacity, states[k - 1], events[k - 1], stream) then 1 else 0
  }

  lemma StepCosts(capacity: nat, s: State, e: Event, stream: Stream)
    requires Enabled(s, e)
    ensures var t := Step(capacity, s, e);
            Ready(t) && t.dropped[stream] == s.dropped[stream] + if Costs(capacity, s, e, stream) then 1 else 0
  {
  }

  /** The count of dropped records is exact, at every point of every run. */
  lemma {:induction false} DroppedExactly(capacity: nat, events: seq<Event>, states: seq<State>, stream: Stream, k: nat)
    requires IsRun(capacity, events, states) && k <= |events|
    ensures Ready(states[k]) && states[k].dropped[stream] == Cost(capacity, events, states, stream, k)
  {
    if k > 0 {
      DroppedExactly(capacity, events, states, stream, k - 1);
      StepCosts(capacity, states[k - 1], events[k - 1], stream);
    } else {
      StartedKept(capacity);
    }
  }

  /** With no bound and no failing write, nothing is ever dropped. */
  lemma {:induction false} NothingDropped(events: seq<Event>, states: seq<State>, stream: Stream, k: nat)
    requires IsRun(0, events, states) && k <= |events| && forall i | 0 <= i < k :: events[i] != Write(false)
    ensures Ready(states[k]) && states[k].dropped[stream] == 0
  {
    DroppedExactly(0, events, states, stream, k);
    if k > 0 {
      NothingDropped(events, states, stream, k - 1);
      DroppedExactly(0, events, states, stream, k - 1);
    }
  }

  // ---------- a crash ----------

  lemma HeaderReads(stream: Stream)
    ensures PrintableFields(Header(stream))
    ensures Lookup(Header(stream), "schema_version") == Some(Int(DATASET_SCHEMA))
  {
    var rest := Field("file", Str(NameOf(stream)), Field("fields", Arr(FieldNames(stream)), End));
    assert Lookup(rest, "schema_version").None?;
  }

  /** Whatever the callers and the writer were doing, a file cut anywhere after its header reads back as the
      header and the first records written to that stream, in the order they were queued. */
  lemma CrashKeepsAPrefix(s: State, stream: Stream, parse: Parser, n: nat) returns (kept: nat)
    requires Ready(s) && Filed(s, stream) && Reads(parse, s.files[stream])
    requires |Dump(Obj(Header(stream)))| <= n <= |FileText(s.files[stream])|
    ensures kept <= |Written(s.handled, stream)|
    ensures Verdict(parse, NonBlank(Lines(FileText(s.files[stream])[..n]))) ==
            Ok(Header(stream), Objects(Written(s.handled, stream)[..kept]), false)
    ensures n == |FileText(s.files[stream])| ==> kept == |Written(s.handled, stream)|
  {
    var session := s.files[stream];
    assert session[0] == Header(stream) && session[1..] == Written(s.handled, stream);
    assert IsSession(session) by { HeaderReads(stream); }
    kept := PrefixSurvives(parse, session, n);
  }

  // ---------- the logger ----------

  lemma ZipNext(queue: seq<Item>, works: seq<bool>, i: nat)
    requires i < |queue| <= |works|
    ensures Zip(queue, works)[..i + 1] == Zip(queue, works)[..i] + [(queue[i], works[i])]
    ensures queue[i..][1..] == queue[i + 1..] && queue[i..][0] == queue[i]
  {
  }

  /** What is queued, and whether each write of it succeeds. */
  function Zip(queue: seq<Item>, works: seq<bool>): seq<(Item, bool)>
    requires |works| >= |queue|
  {
    seq(|queue|, i requires 0 <= i < |queue| => (queue[i], works[i]))
  }

  class FlightLogger {
    const capacity: nat
    var queue: seq<Item>
    var files: map<Stream, seq<Fields>>
    var droppedRecords: map<Stream, nat>
    var closed: bool
    var stopped: bool
    ghost var handled: seq<(Item, bool)>
    ghost var offered: map<Stream, nat>
    ghost var raised: nat

    ghost function Model(): State
      reads this
    {
      State(queue, files, droppedRecords, closed, stopped, handled, offered, raised)
    }

    ghost predicate Valid()
      reads this
    {
      Kept(capacity, Model())
    }

    /** Writes the four headers. */
    constructor (capacity: nat)
      ensures Valid() && this.capacity == capacity && Model() == STARTED
    {
      this.capacity := capacity;
      queue, closed, stopped := [], false, false;
      files := HEADERS;
      droppedRecords := ZERO;
      handled, offered, raised := [], ZERO, 0;
      new;
      StartedKept(capacity);
    }

    method EnqueueLossy(stream: Stream, fields: Fields) returns (refused: bool)
      requires Valid()
      modifies this
      ensures Valid() && Model() == Step(capacity, old(Model()), Lossy(stream, fields))
      ensures refused == old(closed)
      ensures if !old(closed) && (capacity == 0 || |old(queue)| < capacity)
              then queue == old(queue) + [Record(stream, fields)] && droppedRecords == old(droppedRecords)
              else queue == old(queue)
      ensures !old(closed) && capacity > 0 && |old(queue)| >= capacity ==>
                droppedRecords == old(droppedRecords)[stream := old(droppedRecords)[stream] + 1]
    {
      OfferKeeps(capacity, Model(), Lossy(stream, fields));
      if closed {
        return true;
      }
      offered := offered[stream := offered[stream] + 1];
      if capacity > 0 && |queue| >= capacity {
        droppedRecords := droppedRecords[stream := droppedRecords[stream] + 1];
      } else {
        queue := queue + [Record(stream, fields)];
      }
      return false;
    }

    /** Called once the wait for room is over: an event is queued or the caller is told. */
    method RecordEvent(fields: Fields) returns (refused: bool)
      requires Valid()
      modifies this
      ensures Valid() && Model() == Step(capacity, old(Model()), Durable(fields))
      ensures refused <==> old(closed) || (capacity > 0 && |old(queue)| >= capacity)
      ensures queue == if refused then old(queue) else old(queue) + [Record(Events, fields)]
      ensures droppedRecords == old(droppedRecords)
    {
      OfferKeeps(capacity, Model(), Durable(fields));
      if closed {
        return true;
      }
      offered := offered[Events := offered[Events] + 1];
      if capacity > 0 && |queue| >= capacity {
        raised := raised + 1;
        return true;
      }
      queue := queue + [Record(Events, fields)];
      return false;
    }

    method WriteOne(ok: bool)
      requires Valid() && queue != [] && !stopped
      modifies this
      ensures Valid() && Model() == Step(capacity, old(Model()), Write(ok))
    {
      WriteKeeps(capacity, Model(), ok);
      var item := queue[0];
      queue := queue[1..];
      handled := handled + [(item, ok)];
      match item
      case Sentinel =>
        stopped := true;
      case Record(stream, fields) =>
        if ok {
          files := files[stream := files[stream] + [fields]];
        } else {
          droppedRecords := droppedRecords[stream := droppedRecords[stream] + 1];
        }
    }

    /** Answers whether the sentinel found room. */
    method CloseLogger() returns (signedOff: bool)
      requires Valid()
      modifies this
      ensures Valid() && closed && Model() == Step(capacity, old(Model()), Close)
      ensures signedOff <==> !old(closed) && !Full(capacity, old(queue))
      ensures !old(closed) ==> (Sentinel in queue <==> signedOff)
    {
      OfferKeeps(capacity, Model(), Close);
      if closed {
        return false;
      }
      CloseSignsOff(capacity, Model());
      closed := true;
      if capacity > 0 && |queue| >= capacity {
        return false;
      }
      queue := queue + [Sentinel];
      return true;
    }

    /** One turn of the writer's loop. */
    method HandleNext(ok: bool)
      requires Valid() && queue != [] && !stopped
      modifies this
      ensures Valid() && closed == old(closed) && offered == old(offered) && raised == old(raised)
      ensures queue == old(queue)[1..] && handled == old(handled) + [(old(queue)[0], ok)]
      ensures if stopped then queue == [] && closed && Sentinel in old(queue)
              else Sentinel in queue <==> Sentinel in old(queue)
    {
      WriteEnds(capacity, Model(), ok);
      WriteOne(ok);
    }

    /** Once closed nothing more is queued: the writer handles all that was, and stops if there is a sentinel. */
    method FinishWriting(works: seq<bool>)
      requires Valid() && closed && |works| >= |queue|
      modifies this
      ensures handled == old(handled) + Zip(old(queue), works)
      ensures Valid() && closed && queue == [] && offered == old(offered) && raised == old(raised)
      ensures stopped <==> old(stopped) || Sentinel in old(queue)
      ensures forall stream: Stream :: Settled(stream)
    {
      for i := 0 to |queue|
        invariant Valid() && closed && offered == old(offered) && raised == old(raised)
        invariant queue == old(queue)[i..] && handled == old(handled) + Zip(old(queue), works)[..i]
        invariant if stopped then queue == [] && (old(stopped) || Sentinel in old(queue))
                  else !old(stopped) && (Sentinel in queue <==> Sentinel in old(queue))
      {
        HandleNext(works[i]);
        ZipNext(old(queue), works, i);
      }
      assert Zip(old(queue), works)[..|old(queue)|] == Zip(old(queue), works);
      forall stream: Stream ensures Settled(stream) {
        assert Accounted(Model(), stream);
      }
    }

    /** Every offered record is on file, counted as dropped, or was refused with an exception. */
    ghost predicate Settled(stream: Stream)
      reads this
      requires Total(files) && Total(droppedRecords) && Total(offered)
    {
      offered[stream] == (|files[stream]| - 1) + droppedRecords[stream] + if stream.Events? then raised else 0
    }

    /** Shutting down: whatever was going on, everything offered is settled; the writer is told to stop unless
        the queue stayed full. */
    method Shutdown(works: seq<bool>)
      requires Valid() && |works| > |queue|
      modifies this
      ensures var last := if old(closed) || Full(capacity, old(queue)) then [] else [Sentinel];
              handled == old(handled) + Zip(old(queue) + last, works)
      ensures Valid() && closed && queue == [] && offered == old(offered)
      ensures !old(closed) ==> (stopped <==> !Full(capacity, old(queue)))
      ensures forall stream: Stream :: Settled(stream)
    {
      var _ := CloseLogger();
      FinishWriting(works);
    }
  }
}
