/** internal/consume/consumer.go: the fetch, decode, process, commit loop. */
module Consumers {
  import opened Users
  import opened Format
  import opened Processor
  import opened Projection

  datatype Message = Message(place: Place, payload: Payload)

  /** How the store and the broker answer while one message is handled. rewind:
      the broker takes the commit as it comes, even if its own offset is higher. */
  datatype Answers = Answers(write: Outcome, commit: Outcome, rewind: bool)

  datatype Delivery = Delivery(msg: Message, answers: Answers)

  /** What FetchMessage returns; a failed fetch carries ctx.Err() at that time. */
  datatype FetchResult =
    | Fetched(delivery: Delivery)
    | FetchFailed(err: string, ctxErr: Option<string>)

  datatype Line = Info(text: string) | Error(text: string)

  const DECODE_FAILED := "could not decode msg"

  // ------------------------------------------------------ what a message does

  /** The only two ways to reach a commit: nothing to do, or a create that
      returned nil. */
  predicate MayCommit(d: Delivery) {
    var duty := DutyOf(d.msg.payload);
    duty.Nothing? || (duty.Upsert? && d.answers.write.err.None?)
  }

  function ErrorOf(d: Delivery): Option<string> {
    if MayCommit(d) then d.answers.commit.err
    else
      match d.msg.payload
      case Garbled => Some(DECODE_FAILED)
      case Unmapped => Some(UNMAPPED)
      case Tombstone => None
      case Short => None
      case Change(e) => if Classify(e).Create? then d.answers.write.err else Some(NOT_IMPLEMENTED)
  }

  /** Everything handling a message can change outside the process, and the requests
      that were made to change it, in order. */
  datatype World = World(
    users: map<string, User>,
    committed: map<nat, nat>,
    calls: seq<Call>)

  function CommittedAt(committed: map<nat, nat>, p: nat): nat {
    if p in committed then committed[p] else 0
  }

  function LineOf(d: Delivery): seq<Line> {
    if ErrorOf(d).Some? then [Error(ErrorOf(d).value)] else []
  }

  /** The broker's offsets after a commit of the message at pl. */
  function CommitTo(committed: map<nat, nat>, pl: Place, rewind: bool): map<nat, nat> {
    committed[pl.p := if rewind then pl.o + 1 else Max(CommittedAt(committed, pl.p), pl.o + 1)]
  }

  /** Processing: the write that is attempted, and whether it landed. */
  function Write(w: World, d: Delivery): World {
    var duty := DutyOf(d.msg.payload);
    if !duty.Upsert? then w
    else w.(users := if d.answers.write.landed then w.users[duty.user.id := duty.user] else w.users,
            calls := w.calls + [CreateCall(duty.user)])
  }

  /** The commit, if there is one. */
  function Settle(w: World, d: Delivery): World {
    if !MayCommit(d) then w
    else
      var pl, a := d.msg.place, d.answers;
      w.(committed := if a.commit.landed then CommitTo(w.committed, pl, a.rewind) else w.committed,
         calls := w.calls + [CommitCall(pl.p, pl.o)])
  }

  function Handle(w: World, d: Delivery): World {
    Settle(Write(w, d), d)
  }

  // ------------------------------------------ the same from the raw message

  /** A tombstone is committed, and nothing else happens. */
  lemma HandleTombstone(w: World, d: Delivery)
    requires d.msg.payload.Tombstone?
    ensures Handle(w, d).users == w.users
    ensures Handle(w, d).calls == w.calls + [CommitCall(d.msg.place.p, d.msg.place.o)]
    ensures ErrorOf(d) == d.answers.commit.err
  {
  }

  /** What cannot be decoded or mapped changes nothing, and nothing is asked for. */
  lemma HandleUnreadable(w: World, d: Delivery)
    requires d.msg.payload.Short? || d.msg.payload.Garbled? || d.msg.payload.Unmapped?
    ensures Handle(w, d) == w
    ensures d.msg.payload.Short? ==> ErrorOf(d) == None
    ensures d.msg.payload.Garbled? ==> ErrorOf(d) == Some("could not decode msg")
    ensures d.msg.payload.Unmapped? ==> ErrorOf(d) == Some("mapstructure: cannot decode")
  {
  }

  /** A change event: one without effect is committed, one that inserts a row is
      committed if its create returned nil, any other is refused. */
  lemma HandleChange(w: World, d: Delivery)
    requires d.msg.payload.Change?
    ensures var a, pl, w' := d.answers, d.msg.place, Handle(w, d);
            var before, row := d.msg.payload.event.before, d.msg.payload.event.after;
            var u := User(MsecToTime(row.createdAt), row.id, row.firstName, row.lastName);
            if SameAfterConversion(before, row) then
              && w'.users == w.users && w'.calls == w.calls + [CommitCall(pl.p, pl.o)]
              && ErrorOf(d) == a.commit.err
            else if LooksNull(before) then
              && w'.users == (if a.write.landed then w.users[row.id := u] else w.users)
              && w'.calls == w.calls + [CreateCall(u)]
                             + (if a.write.err.None? then [CommitCall(pl.p, pl.o)] else [])
              && ErrorOf(d) == if a.write.err.Some? then a.write.err else a.commit.err
            else
              w' == w && ErrorOf(d) == Some("not implemented")
  {
    ClassifyExactly(d.msg.payload.event);
  }

  /** The message of d may be committed, in terms of the raw message alone. */
  predicate Committable(d: Delivery) {
    var m := d.msg.payload;
    || m.Tombstone?
    || (m.Change? && SameAfterConversion(m.event.before, m.event.after))
    || (m.Change? && LooksNull(m.event.before) && !LooksNull(m.event.after) && d.answers.write.err.None?)
  }

  /** A message is committed, as the last request made for it, exactly if it is
      Committable; and the offset becomes one past it, or stays where it is if it
      is higher and the broker merges. */
  lemma CommitAskedExactly(w: World, d: Delivery)
    ensures var pl, calls := d.msg.place, Handle(w, d).calls;
            (|calls| > |w.calls| && calls[|calls| - 1] == CommitCall(pl.p, pl.o)) <==> Committable(d)
    ensures var p, o, now := d.msg.place.p, d.msg.place.o, CommittedAt(w.committed, d.msg.place.p);
            Handle(w, d).committed ==
              if Committable(d) && d.answers.commit.landed
              then w.committed[p := if now <= o || d.answers.rewind then o + 1 else now]
              else w.committed
  {
    DutyExactly(d.msg.payload);
  }

  // -------------------------------------------------------------- the program

  /** The fetch results to come are script[next..]. */
  class Reader {
    const script: seq<FetchResult>
    const history: History
    var next: nat
    var committed: map<nat, nat>

    constructor (script: seq<FetchResult>, history: History)
      ensures this.script == script && this.history == history && next == 0 && committed == map[]
    {
      this.script := script;
      this.history := history;
      next := 0;
      committed := map[];
    }

    /** None: nothing to fetch, so the call does not return. */
    method FetchMessage() returns (r: Option<FetchResult>)
      requires next <= |script|
      modifies this`next
      ensures if old(next) < |script| then r == Some(script[old(next)]) && next == old(next) + 1
              else r == None && next == old(next)
    {
      if next == |script| {
        return None;
      }
      r := Some(script[next]);
      next := next + 1;
    }

    method CommitMessages(msg: Message, a: Answers) returns (err: Option<string>)
      modifies this`committed, history
      ensures history.calls == old(history.calls) + [CommitCall(msg.place.p, msg.place.o)]
      ensures committed == if a.commit.landed then CommitTo(old(committed), msg.place, a.rewind) else old(committed)
      ensures err == a.commit.err
    {
      history.calls := history.calls + [CommitCall(msg.place.p, msg.place.o)];
      if a.commit.landed {
        var before := if msg.place.p in committed then committed[msg.place.p] else 0;
        var next := msg.place.o + 1;
        if !a.rewind && next < before {
          next := before;
        }
        committed := committed[msg.place.p := next];
      }
      err := a.commit.err;
    }
  }

  /** How a call of Run stands: it has returned, it waits for a fetch, or it took the
      process down. */
  datatype Ending = Returned | Blocked | Crashed

  class Runner {
    const reader: Reader
    const processor: EventProcessor
    var lines: seq<Line>
    /** The deliveries consumeFunc was called with, in order. */
    ghost var handled: seq<Delivery>

    /** The requests to the store and those to the broker are in one history. */
    ghost predicate Wired() {
      reader.history == processor.creator.history
    }

    constructor (reader: Reader, processor: EventProcessor)
      requires reader.history == processor.creator.history
      ensures this.reader == reader && this.processor == processor
      ensures Wired() && lines == [] && handled == []
    {
      this.reader := reader;
      this.processor := processor;
      lines := [];
      handled := [];
    }

    ghost function Observed(): World
      reads reader, reader.history, processor.creator
    {
      World(processor.creator.users, reader.committed, reader.history.calls)
    }

    /** consume: a nil value is committed and ignored; anything else is committed
        only after it was decoded and processed without an error. */
    method Consume(d: Delivery) returns (crashed: bool, err: Option<string>)
      requires Wired()
      modifies this`handled, reader`committed, reader.history, processor.creator
      ensures crashed <==> d.msg.payload.Short?
      ensures err == ErrorOf(d)
      ensures handled == old(handled) + [d]
      ensures Observed() == Handle(old(Observed()), d)
      ensures var calls, before := reader.history.calls, old(reader.history.calls);
              Committable(d) <==>
                |calls| > |before| && calls[|calls| - 1] == CommitCall(d.msg.place.p, d.msg.place.o)
    {
      CommitAskedExactly(Observed(), d);
      handled := handled + [d];
      crashed, err := false, None;
      var m := d.msg;
      if m.payload.Tombstone? {
        err := reader.CommitMessages(m, d.answers);
        return;
      }
      if m.payload.Short? {
        // msg[5:] of a shorter slice
        return true, None;
      }
      if m.payload.Garbled? {
        return false, Some(DECODE_FAILED);
      }
      if m.payload.Change? {
        ClassifyExactly(m.payload.event);
      }
      var data := if m.payload.Change? then Some(m.payload.event) else None;
      err := processor.Process(data, d.answers.write);
      if err.Some? {
        return;
      }
      err := reader.CommitMessages(m, d.answers);
    }

    ghost function Progress(): Loop
      reads this, reader, reader.history, processor.creator
    {
      Loop(Observed(), handled, lines)
    }

    /** The second half of the loop body: an error is logged and forgotten. */
    method HandOver(d: Delivery) returns (crashed: bool)
      requires Wired()
      modifies this`handled, this`lines, reader`committed, reader.history, processor.creator
      ensures crashed <==> d.msg.payload.Short?
      ensures Progress() == React(old(Progress()), Fetched(d))
    {
      var err;
      crashed, err := Consume(d);
      if err.Some? {
        lines := lines + [Error(err.value)];
      }
    }

    /** Run returns nil, and only at a fetch error that is the context's error. Until
        then it calls consumeFunc once for every fetched message, in fetch order,
        whatever errors the earlier ones returned, unless it is handed a value too
        short to decode: that one ends the process, uncommitted. */
    method Run() returns (ending: Ending, err: Option<string>)
      requires Wired() && reader.next <= |reader.script|
      modifies this, reader, reader.history, processor.creator
      ensures err == None
      ensures var script, first, last := reader.script, old(reader.next), reader.next - 1;
              match ending
              case Blocked => forall i | first <= i < |script| :: !IsExit(script[i]) && !IsFatal(script[i])
              case Returned =>
                && first <= last < |script|
                && script[last].FetchFailed? && Some(script[last].err) == script[last].ctxErr
                && forall i | first <= i < last :: !IsExit(script[i]) && !IsFatal(script[i])
              case Crashed =>
                && first <= last < |script| && script[last].Fetched? && script[last].delivery.msg.payload.Short?
                && forall i | first <= i < last :: !IsExit(script[i]) && !IsFatal(script[i])
      ensures var script, first, n := reader.script, old(reader.next), Stop(reader.script, old(reader.next));
              var hi := if ending.Crashed? then n + 1 else n;
              && ending == EndingAt(script, n)
              && reader.next == (if ending.Returned? then n + 1 else hi)
              && handled == old(handled) + Deliveries(script, first, hi)
              && Observed() == HandleAll(old(Observed()), Deliveries(script, first, hi))
              && lines == old(lines) + LinesOf(script, first, hi)
                          + (if ending.Returned? then [Info(script[n].err)] else [])
    {
      hide HandleAll, Deliveries, LinesOf, Stop, Handle, LineOf;
      ghost var script, first, start := reader.script, reader.next, Progress();
      ghost var n := Stop(script, first);
      ghost var hi := n;
      ending := Blocked;
      while true
        invariant first <= reader.next <= n
        invariant Progress() == Played(start, script, first, reader.next)
        decreases n - reader.next
      {
        var fetched := reader.FetchMessage();
        if fetched.None? {
          break;
        }
        if fetched.value.FetchFailed? {
          if Some(fetched.value.err) == fetched.value.ctxErr {
            lines := lines + [Info(fetched.value.err)];
            ending := Returned;
            break;
          }
          lines := lines + [Error(fetched.value.err)];
        } else {
          var crashed := HandOver(fetched.value.delivery);
          if crashed {
            ending := Crashed;
            hi := n + 1;
            break;
          }
        }
      }
      PlayedWorld(start, script, first, hi);
      PlayedHandled(start, script, first, hi);
      PlayedLines(start, script, first, hi);
      err := None;
    }
  }

  // ----------------------------------------------------- what a script does

  predicate IsExit(f: FetchResult) {
    f.FetchFailed? && Some(f.err) == f.ctxErr
  }

  predicate IsFatal(f: FetchResult) {
    f.Fetched? && f.delivery.msg.payload.Short?
  }

  /** Where the loop stops: at the first fetch error that is the context's, at the
      first value too short to decode, or at the first fetch that does not return. */
  ghost function Stop(script: seq<FetchResult>, lo: nat): (n: nat)
    requires lo <= |script|
    ensures lo <= n <= |script|
    ensures n < |script| ==> IsExit(script[n]) || IsFatal(script[n])
    ensures forall i | lo <= i < n :: !IsExit(script[i]) && !IsFatal(script[i])
    decreases |script| - lo
  {
    if lo == |script| || IsExit(script[lo]) || IsFatal(script[lo]) then lo else Stop(script, lo + 1)
  }

  ghost function EndingAt(script: seq<FetchResult>, n: nat): Ending {
    if n >= |script| then Blocked else if IsExit(script[n]) then Returned else Crashed
  }

  /** The messages fetched by script[lo..hi], in order. */
  ghost function Deliveries(script: seq<FetchResult>, lo: nat, hi: nat): seq<Delivery>
    requires hi <= |script|
  {
    if hi <= lo then []
    else
      var before := Deliveries(script, lo, hi - 1);
      if script[hi - 1].Fetched? then before + [script[hi - 1].delivery] else before
  }

  function HandleAll(w: World, ds: seq<Delivery>): World {
    if ds == [] then w else Handle(HandleAll(w, ds[..|ds| - 1]), ds[|ds| - 1])
  }

  /** The errors logged for script[lo..hi] when none of it ends the loop. */
  ghost function LinesOf(script: seq<FetchResult>, lo: nat, hi: nat): seq<Line>
    requires hi <= |script|
  {
    if hi <= lo then []
    else
      var before := LinesOf(script, lo, hi - 1);
      match script[hi - 1]
      case FetchFailed(err, _) => before + [Error(err)]
      case Fetched(d) => before + LineOf(d)
  }

  lemma HandleSnoc(w: World, ds: seq<Delivery>, d: Delivery)
    ensures HandleAll(w, []) == w
    ensures HandleAll(w, ds + [d]) == Handle(HandleAll(w, ds), d)
  {
  }

  /** ds are the messages fetched by script[lo..hi], every one once, in fetch order;
      at says which fetch each is of. */
  ghost predicate DeliveriesAt(script: seq<FetchResult>, lo: nat, hi: nat, at: seq<nat>, ds: seq<Delivery>)
    requires hi <= |script|
  {
    && |at| == |ds|
    && (forall k | 0 <= k < |at| :: lo <= at[k] < hi && script[at[k]] == Fetched(ds[k]))
    && (forall k, l | 0 <= k < l < |at| :: at[k] < at[l])
    && (forall i: nat | lo <= i < hi && script[i].Fetched? :: i in at)
  }

  lemma NextDelivery(script: seq<FetchResult>, lo: nat, hi: nat, at: seq<nat>, ds: seq<Delivery>)
    requires lo <= hi < |script| && DeliveriesAt(script, lo, hi, at, ds)
    ensures if script[hi].Fetched? then DeliveriesAt(script, lo, hi + 1, at + [hi], ds + [script[hi].delivery])
            else DeliveriesAt(script, lo, hi + 1, at, ds)
  {
    var at' := at + [hi];
    forall i: nat | lo <= i <= hi && script[i].Fetched?
      ensures i in at'
    {
      if i == hi {
        assert at'[|at|] == i;
      } else {
        assert i in at;
      }
    }
  }

  lemma NoDeliveries(script: seq<FetchResult>, lo: nat, hi: nat)
    requires hi <= |script| && hi <= lo
    ensures DeliveriesAt(script, lo, hi, [], Deliveries(script, lo, hi))
  {
  }

  lemma {:induction false} DeliveriesExactly(script: seq<FetchResult>, lo: nat, hi: nat) returns (at: seq<nat>)
    requires hi <= |script|
    ensures DeliveriesAt(script, lo, hi, at, Deliveries(script, lo, hi))
  {
    hide DeliveriesAt;
    if hi <= lo {
      at := [];
      NoDeliveries(script, lo, hi);
    } else {
      at := DeliveriesExactly(script, lo, hi - 1);
      NextDelivery(script, lo, hi - 1, at, Deliveries(script, lo, hi - 1));
      if script[hi - 1].Fetched? {
        at := at + [hi - 1];
      }
    }
  }

  /** A fetch that failed without ending the loop, or a message whose handling
      returned an error: the fetch result has something to log. */
  function Failure(f: FetchResult): Option<string> {
    match f
    case FetchFailed(err, _) => Some(err)
    case Fetched(d) => ErrorOf(d)
  }

  /** lines has one error line for each such result of script[lo..hi], with its error,
      in fetch order, and no other line. */
  ghost predicate LinesAt(script: seq<FetchResult>, lo: nat, hi: nat, at: seq<nat>, lines: seq<Line>)
    requires hi <= |script|
  {
    && |at| == |lines|
    && (forall k | 0 <= k < |at| ::
          && lo <= at[k] < hi && Failure(script[at[k]]).Some?
          && lines[k] == Error(Failure(script[at[k]]).value))
    && (forall k, l | 0 <= k < l < |at| :: at[k] < at[l])
    && (forall i: nat | lo <= i < hi && Failure(script[i]).Some? :: i in at)
  }

  lemma NextLine(script: seq<FetchResult>, lo: nat, hi: nat, at: seq<nat>, lines: seq<Line>)
    requires lo <= hi < |script| && LinesAt(script, lo, hi, at, lines)
    ensures if Failure(script[hi]).Some?
            then LinesAt(script, lo, hi + 1, at + [hi], lines + [Error(Failure(script[hi]).value)])
            else LinesAt(script, lo, hi + 1, at, lines)
  {
    hide Failure;
    var at' := at + [hi];
    forall i: nat | lo <= i <= hi && Failure(script[i]).Some?
      ensures i in at'
    {
      if i == hi {
        assert at'[|at|] == i;
      } else {
        assert i in at;
      }
    }
  }

  lemma NoLines(script: seq<FetchResult>, lo: nat, hi: nat)
    requires hi <= |script| && hi <= lo
    ensures LinesAt(script, lo, hi, [], LinesOf(script, lo, hi))
  {
  }

  lemma LinesSnoc(script: seq<FetchResult>, lo: nat, hi: nat)
    requires lo <= hi < |script|
    ensures LinesOf(script, lo, hi + 1) ==
              LinesOf(script, lo, hi)
              + (if Failure(script[hi]).Some? then [Error(Failure(script[hi]).value)] else [])
  {
    hide ErrorOf;
  }

  lemma {:induction false} LinesExactly(script: seq<FetchResult>, lo: nat, hi: nat) returns (at: seq<nat>)
    requires hi <= |script|
    ensures LinesAt(script, lo, hi, at, LinesOf(script, lo, hi))
  {
    hide LinesAt, LinesOf, Failure;
    if hi <= lo {
      at := [];
      NoLines(script, lo, hi);
    } else {
      at := LinesExactly(script, lo, hi - 1);
      LinesSnoc(script, lo, hi - 1);
      assert LinesOf(script, lo, hi - 1) + [] == LinesOf(script, lo, hi - 1);
      NextLine(script, lo, hi - 1, at, LinesOf(script, lo, hi - 1));
      if Failure(script[hi - 1]).Some? {
        at := at + [hi - 1];
      }
    }
  }

  /** What the loop has done: its effects, the messages handed over, its log. */
  datatype Loop = Loop(world: World, handled: seq<Delivery>, lines: seq<Line>)

  /** One turn of the loop that does not end it. */
  function React(l: Loop, f: FetchResult): Loop {
    match f
    case FetchFailed(err, _) => l.(lines := l.lines + [Error(err)])
    case Fetched(d) => Loop(Handle(l.world, d), l.handled + [d], l.lines + LineOf(d))
  }

  ghost function Played(l: Loop, script: seq<FetchResult>, lo: nat, hi: nat): Loop
    requires hi <= |script|
  {
    if hi <= lo then l else React(Played(l, script, lo, hi - 1), script[hi - 1])
  }

  lemma {:induction false} PlayedWorld(l: Loop, script: seq<FetchResult>, lo: nat, hi: nat)
    requires hi <= |script|
    ensures Played(l, script, lo, hi).world == HandleAll(l.world, Deliveries(script, lo, hi))
  {
    if lo < hi {
      PlayedWorld(l, script, lo, hi - 1);
      if script[hi - 1].Fetched? {
        HandleSnoc(l.world, Deliveries(script, lo, hi - 1), script[hi - 1].delivery);
      }
    }
  }

  lemma {:induction false} PlayedHandled(l: Loop, script: seq<FetchResult>, lo: nat, hi: nat)
    requires hi <= |script|
    ensures Played(l, script, lo, hi).handled == l.handled + Deliveries(script, lo, hi)
  {
    if lo < hi {
      PlayedHandled(l, script, lo, hi - 1);
    }
  }

  lemma {:induction false} PlayedLines(l: Loop, script: seq<FetchResult>, lo: nat, hi: nat)
    requires hi <= |script|
    ensures Played(l, script, lo, hi).lines == l.lines + LinesOf(script, lo, hi)
  {
    if lo < hi {
      PlayedLines(l, script, lo, hi - 1);
    }
  }

  // ------------------------------------------- when the loop asks for a commit

  /** calls[k] commits the message of d, which had nothing to do or whose create was
      asked for right before and returned nil. */
  ghost predicate CommitsRightly(calls: seq<Call>, k: nat, d: Delivery) {
    var m := d.msg.payload;
    && k < |calls| && calls[k] == CommitCall(d.msg.place.p, d.msg.place.o)
    && (|| m.Tombstone?
        || (m.Change? && SameAfterConversion(m.event.before, m.event.after))
        || (&& m.Change? && LooksNull(m.event.before) && !LooksNull(m.event.after)
            && d.answers.write.err.None? && k > 0
            && var row := m.event.after;
               calls[k - 1] == CreateCall(User(MsecToTime(row.createdAt), row.id, row.firstName, row.lastName))))
  }

  lemma {:induction false} CallsGrow(w: World, ds: seq<Delivery>)
    ensures w.calls <= HandleAll(w, ds).calls
  {
    if ds != [] {
      CallsGrow(w, ds[..|ds| - 1]);
    }
  }

  /** Whatever the loop is handed, every commit it asks for comes right after what
      the message committed required. */
  lemma {:induction false} CommitsComeLast(w: World, ds: seq<Delivery>, k: nat)
    requires |w.calls| <= k < |HandleAll(w, ds).calls| && HandleAll(w, ds).calls[k].CommitCall?
    ensures exists d :: d in ds && CommitsRightly(HandleAll(w, ds).calls, k, d)
  {
    if ds != [] {
      var n := |ds| - 1;
      var before, after := HandleAll(w, ds[..n]), HandleAll(w, ds);
      CallsGrow(w, ds[..n]);
      if k < |before.calls| {
        CommitsComeLast(w, ds[..n], k);
        var d :| d in ds[..n] && CommitsRightly(before.calls, k, d);
        assert d in ds && CommitsRightly(after.calls, k, d);
      } else {
        DutyExactly(ds[n].msg.payload);
        assert CommitsRightly(after.calls, k, ds[n]);
      }
    }
  }

  // ---------------------------------------------- what the loop does to offsets

  /** A commit that the broker took, in partition p. */
  predicate Advances(d: Delivery, p: nat) {
    MayCommit(d) && d.answers.commit.landed && d.msg.place.p == p
  }

  predicate Rewinds(d: Delivery, p: nat) {
    Advances(d, p) && d.answers.rewind
  }

  function OffsetAfter(w: World, ds: seq<Delivery>, p: nat): nat {
    CommittedAt(HandleAll(w, ds).committed, p)
  }

  /** The loop leaves partition p committed beyond all it had committed there. */
  ghost predicate EndsHighest(w: World, ds: seq<Delivery>, p: nat) {
    && CommittedAt(w.committed, p) <= OffsetAfter(w, ds, p)
    && forall i | 0 <= i < |ds| && Advances(ds[i], p) :: ds[i].msg.place.o < OffsetAfter(w, ds, p)
  }

  /** From delivery j on, some commit brings p to n or beyond. */
  ghost predicate Reaches(ds: seq<Delivery>, p: nat, j: nat, n: nat) {
    exists k :: j <= k < |ds| && Advances(ds[k], p) && n <= ds[k].msg.place.o + 1
  }

  /** Whatever a commit undid was committed again, by it or by a later one. */
  ghost predicate RewindsMadeGood(w: World, ds: seq<Delivery>, p: nat) {
    forall j | 0 <= j < |ds| && Rewinds(ds[j], p) ::
      && Reaches(ds, p, j, CommittedAt(w.committed, p))
      && forall i | 0 <= i < j && Advances(ds[i], p) :: Reaches(ds, p, j, ds[i].msg.place.o + 1)
  }

  /** Without a rewinding commit from lo on, nothing goes down. */
  lemma {:induction false} StaysHighest(w: World, ds: seq<Delivery>, p: nat, lo: nat)
    requires lo <= |ds| && forall i | lo <= i < |ds| :: !Rewinds(ds[i], p)
    ensures OffsetAfter(w, ds[..lo], p) <= OffsetAfter(w, ds, p)
    ensures forall i | lo <= i < |ds| && Advances(ds[i], p) :: ds[i].msg.place.o < OffsetAfter(w, ds, p)
  {
    if lo == |ds| {
      assert ds[..lo] == ds;
    } else {
      var n := |ds| - 1;
      StaysHighest(w, ds[..n], p, lo);
      assert ds[..n][..lo] == ds[..lo];
      assert forall i | lo <= i < n :: ds[..n][i] == ds[i];
    }
  }

  /** After a rewinding commit, only it and later ones count. */
  lemma {:induction false} SetAfterRewind(w: World, ds: seq<Delivery>, p: nat, j: nat) returns (k: nat)
    requires j < |ds| && Rewinds(ds[j], p)
    ensures j <= k < |ds| && Advances(ds[k], p) && OffsetAfter(w, ds, p) == ds[k].msg.place.o + 1
  {
    var n := |ds| - 1;
    if j == n {
      k := n;
    } else {
      k := SetAfterRewind(w, ds[..n], p, j);
      if Advances(ds[n], p) && OffsetAfter(w, ds, p) != OffsetAfter(w, ds[..n], p) {
        k := n;
      }
    }
  }

  lemma {:induction false} LastRewind(ds: seq<Delivery>, p: nat, j: nat) returns (k: nat)
    requires j < |ds| && Rewinds(ds[j], p)
    ensures j <= k < |ds| && Rewinds(ds[k], p) && forall i | k < i < |ds| :: !Rewinds(ds[i], p)
    decreases |ds| - j
  {
    if i :| j < i < |ds| && Rewinds(ds[i], p) {
      k := LastRewind(ds, p, i);
    } else {
      k := j;
    }
  }

  lemma AfterCommit(w: World, ds: seq<Delivery>, p: nat, i: nat)
    requires i < |ds| && Advances(ds[i], p)
    ensures ds[i].msg.place.o < OffsetAfter(w, ds[..i + 1], p)
  {
    assert ds[..i + 1][..i] == ds[..i];
  }

  /** What has been reached from the last rewind on is not lost again. */
  lemma ReachedIsKept(w: World, ds: seq<Delivery>, p: nat, j: nat, n: nat)
    requires j < |ds| && Rewinds(ds[j], p) && Reaches(ds, p, j, n)
    requires forall i | j < i < |ds| :: !Rewinds(ds[i], p)
    ensures n <= OffsetAfter(w, ds, p)
  {
    AfterCommit(w, ds, p, j);
    StaysHighest(w, ds, p, j + 1);
  }

  lemma MadeGoodIsHighest(w: World, ds: seq<Delivery>, p: nat)
    requires RewindsMadeGood(w, ds, p)
    ensures EndsHighest(w, ds, p)
  {
    if j :| 0 <= j < |ds| && Rewinds(ds[j], p) {
      var last := LastRewind(ds, p, j);
      ReachedIsKept(w, ds, p, last, CommittedAt(w.committed, p));
      forall i | 0 <= i < |ds| && Advances(ds[i], p)
        ensures ds[i].msg.place.o < OffsetAfter(w, ds, p)
      {
        if i < last {
          ReachedIsKept(w, ds, p, last, ds[i].msg.place.o + 1);
        } else {
          assert Reaches(ds, p, last, ds[i].msg.place.o + 1);
          ReachedIsKept(w, ds, p, last, ds[i].msg.place.o + 1);
        }
      }
    } else {
      StaysHighest(w, ds, p, 0);
    }
  }

  /** The loop leaves its highest offset committed exactly when every commit the
      broker let lower the offset was made good by it or a later one. */
  lemma CommittedIsMaxExactly(w: World, ds: seq<Delivery>, p: nat)
    ensures EndsHighest(w, ds, p) <==> RewindsMadeGood(w, ds, p)
  {
    if RewindsMadeGood(w, ds, p) {
      MadeGoodIsHighest(w, ds, p);
    } else {
      var j :| 0 <= j < |ds| && Rewinds(ds[j], p)
        && !(Reaches(ds, p, j, CommittedAt(w.committed, p))
             && forall i | 0 <= i < j && Advances(ds[i], p) :: Reaches(ds, p, j, ds[i].msg.place.o + 1));
      var k := SetAfterRewind(w, ds, p, j);
    }
  }

  /** The commits of p ascend from where it was committed. */
  ghost predicate Ascending(w: World, ds: seq<Delivery>, p: nat) {
    && (forall j | 0 <= j < |ds| && Advances(ds[j], p) :: CommittedAt(w.committed, p) <= ds[j].msg.place.o)
    && forall i, j | 0 <= i < j < |ds| && Advances(ds[i], p) && Advances(ds[j], p) ::
         ds[i].msg.place.o < ds[j].msg.place.o
  }

  lemma AscendingIsHighest(w: World, ds: seq<Delivery>, p: nat)
    requires Ascending(w, ds, p)
    ensures EndsHighest(w, ds, p)
  {
    forall j | 0 <= j < |ds| && Rewinds(ds[j], p)
      ensures Reaches(ds, p, j, CommittedAt(w.committed, p))
      ensures forall i | 0 <= i < j && Advances(ds[i], p) :: Reaches(ds, p, j, ds[i].msg.place.o + 1)
    {
      assert Advances(ds[j], p);
    }
    MadeGoodIsHighest(w, ds, p);
  }

  /** The offset is the one before the loop or that of a commit. */
  lemma {:induction false} OffsetComesFrom(w: World, ds: seq<Delivery>, p: nat)
    ensures OffsetAfter(w, ds, p) == CommittedAt(w.committed, p)
            || exists k :: 0 <= k < |ds| && Advances(ds[k], p) && OffsetAfter(w, ds, p) == ds[k].msg.place.o + 1
  {
    hide MayCommit;
    if ds != [] {
      var n := |ds| - 1;
      OffsetComesFrom(w, ds[..n], p);
      if OffsetAfter(w, ds, p) == OffsetAfter(w, ds[..n], p) && OffsetAfter(w, ds, p) != CommittedAt(w.committed, p) {
        var k :| 0 <= k < n && Advances(ds[..n][k], p) && OffsetAfter(w, ds[..n], p) == ds[..n][k].msg.place.o + 1;
        assert Advances(ds[k], p);
      }
    }
  }

  /** ds and es differ at most in whether the broker merges commits. */
  ghost predicate SameButMerging(ds: seq<Delivery>, es: seq<Delivery>) {
    |ds| == |es| && forall i | 0 <= i < |ds| ::
      ds[i].msg == es[i].msg && ds[i].answers.(rewind := es[i].answers.rewind) == es[i].answers
  }

  lemma MergingRaises(w: World, ds: seq<Delivery>, es: seq<Delivery>, p: nat)
    requires Ascending(w, es, p) && SameButMerging(ds, es)
    ensures OffsetAfter(w, ds, p) <= OffsetAfter(w, es, p)
  {
    OffsetComesFrom(w, ds, p);
    AscendingIsHighest(w, es, p);
    forall k | 0 <= k < |ds| && Advances(ds[k], p)
      ensures ds[k].msg.place.o + 1 <= OffsetAfter(w, es, p)
    {
      assert Advances(es[k], p);
    }
  }

  /** Over ascending offsets it makes no difference whether the broker merges. */
  lemma MergingMakesNoDifference(w: World, ds: seq<Delivery>, es: seq<Delivery>, p: nat)
    requires Ascending(w, ds, p) && SameButMerging(ds, es)
    ensures OffsetAfter(w, ds, p) == OffsetAfter(w, es, p)
  {
    forall i | 0 <= i < |es|
      ensures Advances(es[i], p) <==> Advances(ds[i], p)
    {
    }
    MergingRaises(w, ds, es, p);
    MergingRaises(w, es, ds, p);
  }

  const EMPTY_WORLD := World(map[], map[], [])

  /** A tombstone whose commit the broker takes as it comes. */
  function Stale(o: nat): Delivery {
    Delivery(Message(Place(0, o), Tombstone), Answers(Outcome(false, None), Outcome(true, None), true))
  }

  /** Committed at 5, then at 3 by a consumer that starts again: 4 is what stays. */
  lemma StaleCommitWins()
    ensures OffsetAfter(EMPTY_WORLD, [Stale(5), Stale(3)], 0) == 4
    ensures !EndsHighest(EMPTY_WORLD, [Stale(5), Stale(3)], 0)
  {
    var ds := [Stale(5), Stale(3)];
    assert ds[..1] == [Stale(5)];
    assert HandleAll(EMPTY_WORLD, ds[..1][..0]) == EMPTY_WORLD;
    assert Advances(ds[0], 0);
  }
}
