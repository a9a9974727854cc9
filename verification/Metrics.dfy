/** internal/metrics/metrics.go: a running message total rebuilt, at every
    collection, from the reader's count since the last one. */
module Metrics {
  import opened Users

  const TWO_63 := 0x8000_0000_0000_0000
  const TWO_64 := 0x1_0000_0000_0000_0000

  /** int64 addition wraps around. */
  function Wrap(x: int): (w: int)
    ensures -0x8000_0000_0000_0000 <= w < 0x8000_0000_0000_0000
    ensures -0x8000_0000_0000_0000 <= x < 0x8000_0000_0000_0000 ==> w == x
    ensures (x - w) % 0x1_0000_0000_0000_0000 == 0
  {
    (x + TWO_63) % TWO_64 - TWO_63
  }

  // -------------------------------------------------------------- the program

  /** kafka.Reader as far as its statistics go. */
  class Reader {
    var pending: nat

    constructor ()
      ensures pending == 0
    {
      pending := 0;
    }

    method CountMessage()
      modifies this
      ensures pending == old(pending) + 1
    {
      pending := pending + 1;
    }

    /** Stats takes a snapshot: the count starts again from zero. */
    method Stats() returns (messages: nat)
      modifies this
      ensures messages == old(pending) && pending == 0
    {
      messages := pending;
      pending := 0;
    }
  }

  /** Structs that are passed by value: a copy has its own total. */
  datatype ConsumerMetrics = ConsumerMetrics(totalMsgCount: int)
  datatype Collector = Collector(metrics: ConsumerMetrics)

  /** The closure RegisterMetrics registers, with its captured receiver. */
  class Callback {
    const reader: Reader
    var m: Collector

    constructor (m: Collector, reader: Reader)
      ensures this.m == m && this.reader == reader
    {
      this.m := m;
      this.reader := reader;
    }

    method Collect() returns (observed: int)
      modifies this, reader
      ensures observed == m.metrics.totalMsgCount == Wrap(old(m.metrics.totalMsgCount) + old(reader.pending))
      ensures reader.pending == 0
    {
      var messages := reader.Stats();
      m := m.(metrics := m.metrics.(totalMsgCount := Wrap(m.metrics.totalMsgCount + messages)));
      observed := m.metrics.totalMsgCount;
    }
  }

  /** refused: the error of RegisterCallback, if it returns one. */
  method RegisterMetrics(m: Collector, telemetryEnabled: bool, reader: Reader, refused: Option<string>)
    returns (callback: Callback?, err: Option<string>)
    ensures err == if telemetryEnabled then refused else None
    ensures callback != null <==> telemetryEnabled && refused.None?
    ensures callback != null ==> fresh(callback) && callback.m == m && callback.reader == reader
  {
    callback := null;
    if !telemetryEnabled {
      return null, None;
    }
    if refused.None? {
      callback := new Callback(m, reader);
    }
    err := refused;
  }

  // --------------------------------------------- any number of consumers

  /** One consumer: its reader's pending count, its callback's total, and every
      value the callback has reported, which is history. */
  datatype Meter = Meter(pending: nat, total: int, reported: seq<int>)

  datatype Event = Message(i: nat) | Collection(i: nat)

  const ZERO := Meter(0, 0, [])

  function React(m: Meter, e: Event): Meter {
    match e
    case Message(_) => m.(pending := m.pending + 1)
    case Collection(_) =>
      var total := Wrap(m.total + m.pending);
      Meter(0, total, m.reported + [total])
  }

  /** A consumer that has the process to itself. */
  function Alone(m: Meter, events: seq<Event>): Meter {
    if events == [] then m else React(Alone(m, events[..|events| - 1]), events[|events| - 1])
  }

  function Only(events: seq<Event>, i: nat): seq<Event> {
    if events == [] then []
    else
      var before, e := Only(events[..|events| - 1], i), events[|events| - 1];
      if e.i == i then before + [e] else before
  }

  lemma AloneSnoc(m: Meter, events: seq<Event>, e: Event)
    ensures Alone(m, events + [e]) == React(Alone(m, events), e)
  {
  }

  /** Callback i is for reader i, and no two share an object. */
  ghost predicate Wired(readers: seq<Reader>, callbacks: seq<Callback>) {
    && |readers| == |callbacks|
    && (forall i | 0 <= i < |readers| :: callbacks[i].reader == readers[i])
    && (forall i, j | 0 <= i < j < |readers| :: readers[i] != readers[j] && callbacks[i] != callbacks[j])
  }

  ghost function MeterOf(reader: Reader, callback: Callback, reported: seq<int>): Meter
    reads reader, callback
  {
    Meter(reader.pending, callback.m.metrics.totalMsgCount, reported)
  }

  /** The first registration that is refused, or their number. */
  function FirstRefusal(refusals: seq<Option<string>>): (n: nat)
    ensures n <= |refusals| && forall i | 0 <= i < n :: refusals[i].None?
    ensures n < |refusals| ==> refusals[n].Some?
  {
    if refusals == [] || refusals[0].Some? then 0 else 1 + FirstRefusal(refusals[1..])
  }

  /** The loop of NewConsumers with telemetry on: one collector for all. The first
      refusal ends it: its error is returned, and no consumer. */
  method RegisterAll(m: Collector, refusals: seq<Option<string>>)
    returns (readers: seq<Reader>, callbacks: seq<Callback>, err: Option<string>)
    ensures var n := FirstRefusal(refusals);
            if n == |refusals| then err == None && |readers| == n
            else err == refusals[n] && readers == []
    ensures Wired(readers, callbacks)
    ensures forall i | 0 <= i < |readers| ::
              fresh(readers[i]) && fresh(callbacks[i]) && readers[i].pending == 0 && callbacks[i].m == m
  {
    readers, callbacks, err := [], [], None;
    for k := 0 to |refusals|
      invariant |readers| == k && Wired(readers, callbacks) && k <= FirstRefusal(refusals)
      invariant forall i | 0 <= i < k ::
                  fresh(readers[i]) && fresh(callbacks[i]) && readers[i].pending == 0 && callbacks[i].m == m
    {
      var reader := new Reader();
      var callback, refused := RegisterMetrics(m, true, reader, refusals[k]);
      if refused.Some? {
        return [], [], refused;
      }
      readers, callbacks := readers + [reader], callbacks + [callback];
    }
  }

  method Happen(reader: Reader, callback: Callback, reported: seq<int>, e: Event) returns (after: seq<int>)
    requires callback.reader == reader
    modifies reader, callback
    ensures MeterOf(reader, callback, after) == React(old(MeterOf(reader, callback, reported)), e)
  {
    after := reported;
    match e {
      case Message(_) => reader.CountMessage();
      case Collection(_) =>
        var observed := callback.Collect();
        after := reported + [observed];
    }
  }

  /** Messages arrive at any readers and the callbacks are collected, in any order. */
  method Drive(readers: seq<Reader>, callbacks: seq<Callback>, events: seq<Event>) returns (reported: seq<seq<int>>)
    requires Wired(readers, callbacks)
    modifies readers, callbacks
    ensures |reported| == |readers|
    ensures forall i | 0 <= i < |readers| ::
              MeterOf(readers[i], callbacks[i], reported[i])
              == Alone(old(MeterOf(readers[i], callbacks[i], [])), Only(events, i))
  {
    reported := seq(|readers|, _ => []);
    for k := 0 to |events|
      invariant |reported| == |readers|
      invariant forall i | 0 <= i < |readers| ::
                  MeterOf(readers[i], callbacks[i], reported[i])
                  == Alone(old(MeterOf(readers[i], callbacks[i], [])), Only(events[..k], i))
    {
      var e := events[k];
      assert events[..k + 1][..k] == events[..k];
      if e.i < |readers| {
        AloneSnoc(old(MeterOf(readers[e.i], callbacks[e.i], [])), Only(events[..k], e.i), e);
        var after := Happen(readers[e.i], callbacks[e.i], reported[e.i], e);
        reported := reported[e.i := after];
      }
    }
    assert events[..|events|] == events;
  }

  /** Consumers that were registered with one collector do not see each other: each
      is as if it were alone. */
  method Telemetry(m: Collector, refusals: seq<Option<string>>, events: seq<Event>)
    returns (readers: seq<Reader>, callbacks: seq<Callback>, reported: seq<seq<int>>, err: Option<string>)
    ensures err.None? <==> forall i | 0 <= i < |refusals| :: refusals[i].None?
    ensures |readers| == |callbacks| == |reported| == if err.None? then |refusals| else 0
    ensures forall i | 0 <= i < |readers| ::
              MeterOf(readers[i], callbacks[i], reported[i])
              == Alone(Meter(0, m.metrics.totalMsgCount, []), Only(events, i))
  {
    readers, callbacks, err := RegisterAll(m, refusals);
    reported := Drive(readers, callbacks, events);
  }

  // ------------------------------------------- why the receiver is a value

  /** Where the totals are: consumer i's callback adds to cell cells[i]. A value
      receiver gives every registration a cell of its own; a pointer receiver would
      give them all the collector's. */
  datatype Store = Store(pending: seq<nat>, totals: map<nat, int>, reported: seq<seq<int>>)

  function TotalAt(s: Store, cell: nat): int {
    if cell in s.totals then s.totals[cell] else 0
  }

  function Stored(cells: seq<nat>, s: Store, i: nat): Meter
    requires i < |cells| == |s.pending| == |s.reported|
  {
    Meter(s.pending[i], TotalAt(s, cells[i]), s.reported[i])
  }

  function Play(cells: seq<nat>, events: seq<Event>): (s: Store)
    ensures |s.pending| == |s.reported| == |cells|
  {
    if events == [] then Store(seq(|cells|, _ => 0), map[], seq(|cells|, _ => []))
    else
      var s, e := Play(cells, events[..|events| - 1]), events[|events| - 1];
      if e.i >= |cells| then s
      else
        var m := React(Stored(cells, s, e.i), e);
        Store(s.pending[e.i := m.pending], s.totals[cells[e.i] := m.total], s.reported[e.i := m.reported])
  }

  ghost predicate Distinct(cells: seq<nat>) {
    forall i, j | 0 <= i < j < |cells| :: cells[i] != cells[j]
  }

  ghost predicate Isolated(cells: seq<nat>) {
    forall events, i | 0 <= i < |cells| :: Stored(cells, Play(cells, events), i) == Alone(ZERO, Only(events, i))
  }

  lemma {:induction false} OwnCell(cells: seq<nat>, events: seq<Event>, i: nat)
    requires Distinct(cells) && i < |cells|
    ensures Stored(cells, Play(cells, events), i) == Alone(ZERO, Only(events, i))
  {
    if events != [] {
      var rest, e := events[..|events| - 1], events[|events| - 1];
      OwnCell(cells, rest, i);
      if e.i == i {
        AloneSnoc(ZERO, Only(rest, i), e);
      } else if e.i < |cells| {
        assert cells[e.i] != cells[i];
      }
    }
  }

  lemma SharedCell(cells: seq<nat>, i: nat, j: nat)
    requires i < |cells| && j < |cells| && i != j && cells[i] == cells[j]
    ensures var events := [Message(i), Collection(i)];
            Stored(cells, Play(cells, events), j).total == 1 && Alone(ZERO, Only(events, j)) == ZERO
  {
    var events := [Message(i), Collection(i)];
    assert events[..1] == [Message(i)] && events[..1][..0] == [];
    assert Stored(cells, Play(cells, events[..1]), i) == Meter(1, 0, []);
    assert Only([], j) == [] && Only(events[..1], j) == Only([], j);
    assert Only(events, j) == Only(events[..1], j);
  }

  /** Consumers are isolated exactly when no two share a total. */
  lemma IsolatedExactly(cells: seq<nat>)
    ensures Isolated(cells) <==> Distinct(cells)
  {
    if Distinct(cells) {
      forall events, i | 0 <= i < |cells|
        ensures Stored(cells, Play(cells, events), i) == Alone(ZERO, Only(events, i))
      {
        OwnCell(cells, events, i);
      }
    } else {
      var i, j :| 0 <= i < j < |cells| && cells[i] == cells[j];
      SharedCell(cells, i, j);
    }
  }

  // --------------------------------------------------------- the accounting

  /** Messages consumer i's reader counted. */
  function Counted(events: seq<Event>, i: nat): nat {
    if events == [] then 0
    else
      var e := events[|events| - 1];
      Counted(events[..|events| - 1], i) + (if e == Message(i) then 1 else 0)
  }

  /** Consumer i of any number, from the start. */
  function MeterAfter(events: seq<Event>, i: nat): Meter {
    Alone(ZERO, Only(events, i))
  }

  lemma MeterSnoc(events: seq<Event>, i: nat)
    requires events != []
    ensures var rest, e := events[..|events| - 1], events[|events| - 1];
            MeterAfter(events, i) == if e.i == i then React(MeterAfter(rest, i), e) else MeterAfter(rest, i)
  {
    var rest, e := events[..|events| - 1], events[|events| - 1];
    if e.i == i {
      AloneSnoc(ZERO, Only(rest, i), e);
    }
  }

  lemma WrapAgain(a: int, b: int)
    ensures Wrap(Wrap(a) + b) == Wrap(a + b)
  {
    var k := (a - Wrap(a)) / TWO_64;
    assert a == Wrap(a) + k * TWO_64;
    WrapShift(Wrap(a) + b, k);
  }

  lemma WrapShift(x: int, k: int)
    ensures Wrap(x + k * TWO_64) == Wrap(x)
  {
    assert (x + TWO_63 + k * TWO_64) % TWO_64 == (x + TWO_63) % TWO_64;
  }

  /** No message is lost or counted twice: what was exported plus what the reader
      still holds is what the reader counted, modulo the width of the counter. */
  lemma {:induction false} MessagesAreConserved(events: seq<Event>, i: nat)
    ensures var m := MeterAfter(events, i);
            && m.pending <= Counted(events, i)
            && m.total == Wrap(Counted(events, i) - m.pending)
            && (Counted(events, i) < TWO_63 ==> m.total + m.pending == Counted(events, i))
  {
    if events != [] {
      var rest, e := events[..|events| - 1], events[|events| - 1];
      MessagesAreConserved(rest, i);
      MeterSnoc(events, i);
      if e == Collection(i) {
        var m := MeterAfter(rest, i);
        WrapAgain(Counted(rest, i) - m.pending, m.pending);
      }
    }
  }

  ghost predicate Sorted(xs: seq<int>) {
    forall i, j | 0 <= i < j < |xs| :: xs[i] <= xs[j]
  }

  /** Collections of consumer i. */
  function Collections(events: seq<Event>, i: nat): nat {
    if events == [] then 0
    else
      var e := events[|events| - 1];
      Collections(events[..|events| - 1], i) + (if e == Collection(i) then 1 else 0)
  }

  /** Every collection reports once, and it reports all the messages counted so far:
      the collection at position n, as the report after those of the ones before. */
  lemma {:induction false} ReportsExactly(events: seq<Event>, i: nat)
    ensures |MeterAfter(events, i).reported| == Collections(events, i)
    ensures forall n | 0 <= n < |events| && events[n] == Collection(i) ::
              && Collections(events[..n], i) < |MeterAfter(events, i).reported|
              && MeterAfter(events, i).reported[Collections(events[..n], i)] == Wrap(Counted(events[..n], i))
  {
    hide Wrap, MeterAfter;
    if events == [] {
      EmptyMeter(i);
    } else {
      var m, e := |events| - 1, events[|events| - 1];
      var rest := events[..m];
      ReportsExactly(rest, i);
      MeterSnoc(events, i);
      forall n | 0 <= n < m && events[n] == Collection(i)
        ensures Collections(events[..n], i) < |MeterAfter(rest, i).reported|
        ensures MeterAfter(rest, i).reported[Collections(events[..n], i)] == Wrap(Counted(events[..n], i))
      {
        assert rest[n] == events[n] && rest[..n] == events[..n];
      }
      if e == Collection(i) {
        MessagesAreConserved(rest, i);
        CollectionReports(MeterAfter(rest, i), i, Counted(rest, i));
      }
    }
  }

  lemma EmptyMeter(i: nat)
    ensures MeterAfter([], i) == ZERO
  {
  }

  lemma CollectionReports(m: Meter, i: nat, counted: nat)
    requires m.pending <= counted && m.total == Wrap(counted - m.pending)
    ensures React(m, Collection(i)).reported == m.reported + [Wrap(counted)]
  {
    WrapAgain(counted - m.pending, m.pending);
  }

  /** What was reported is in order, and not above the total. */
  ghost predicate Rising(m: Meter) {
    Sorted(m.reported) && forall j | 0 <= j < |m.reported| :: 0 <= m.reported[j] <= m.total
  }

  lemma ReactKeepsRising(m: Meter, e: Event)
    requires Rising(m) && 0 <= m.total <= React(m, e).total
    ensures Rising(React(m, e))
  {
  }

  /** The exported counter never goes down while the total fits an int64. */
  lemma {:induction false} TotalsAreMonotone(events: seq<Event>, i: nat)
    requires Counted(events, i) < TWO_63
    ensures Rising(MeterAfter(events, i))
  {
    if events != [] {
      hide Wrap, MeterAfter, Rising;
      var rest, e := events[..|events| - 1], events[|events| - 1];
      TotalsAreMonotone(rest, i);
      MessagesAreConserved(rest, i);
      MessagesAreConserved(events, i);
      MeterSnoc(events, i);
      if e.i == i {
        ReactKeepsRising(MeterAfter(rest, i), e);
      }
    }
  }

  /** It goes down exactly at a collection whose sum no longer fits. */
  lemma CollectionGoesDownExactly(m: Meter, i: nat)
    requires 0 <= m.total < TWO_63 && m.pending < TWO_63
    ensures React(m, Collection(i)).total < m.total <==> m.total + m.pending >= TWO_63
  {
  }
}
