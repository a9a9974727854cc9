/** The change-data-capture read side as a labelled step system.

    Rows are inserted in the source table. Change records about them are appended
    to partitioned logs, which the broker may compact. Groups of consumers fetch,
    decode, process and commit, and each group fills one view. Nothing orders the
    steps of different consumers, and nothing keeps one partition with one
    consumer: a consumer that lost its partition may finish what it holds. */
module Projection {
  import opened Users
  import opened Format
  import opened Processor

  // ---------------------------------------------------------------- records

  /** A message value: nil; under five bytes, so that decoding it panics; longer, but
      rejected by the Avro codec; decoded, but not a change event; or a change event. */
  datatype Payload = Tombstone | Short | Garbled | Unmapped | Change(event: BeforeAfter)

  datatype Record = Record(key: string, payload: Payload)

  /** What a consumer owes a message before it may commit it. Of what it cannot do,
      Impossible ends in an error and Fatal in the end of the process. */
  datatype Duty = Nothing | Upsert(user: User) | Impossible | Fatal

  function DutyOf(m: Payload): Duty {
    match m
    case Tombstone => Nothing
    case Short => Fatal
    case Garbled => Impossible
    case Unmapped => Impossible
    case Change(e) =>
      match Classify(e)
      case Skip => Nothing
      case Create(u) => Upsert(u)
      case Refuse => Impossible
  }

  /** The duty in terms of the raw message, for every kind of it. */
  lemma DutyExactly(m: Payload)
    ensures DutyOf(m).Nothing? <==>
              m.Tombstone? || (m.Change? && SameAfterConversion(m.event.before, m.event.after))
    ensures DutyOf(m).Upsert? <==> m.Change? && LooksNull(m.event.before) && !LooksNull(m.event.after)
    ensures DutyOf(m).Fatal? <==> m.Short?
    ensures DutyOf(m).Impossible? <==>
              || m.Garbled? || m.Unmapped?
              || (m.Change? && !LooksNull(m.event.before) && !SameAfterConversion(m.event.before, m.event.after))
    ensures DutyOf(m).Upsert? ==>
              var row := m.event.after;
              DutyOf(m).user == User(MsecToTime(row.createdAt), row.id, row.firstName, row.lastName)
  {
    if m.Change? {
      ClassifyExactly(m.event);
    }
  }

  /** Processing can return an error. */
  predicate CanFail(d: Duty) {
    d.Upsert? || d.Impossible?
  }

  datatype Place = Place(p: nat, o: nat)

  type Logs = seq<seq<Record>>

  predicate InLog(logs: Logs, pl: Place) {
    pl.p < |logs| && pl.o < |logs[pl.p]|
  }

  function At(logs: Logs, pl: Place): Record
    requires InLog(logs, pl)
  {
    logs[pl.p][pl.o]
  }

  predicate Creates(logs: Logs, pl: Place, u: User) {
    InLog(logs, pl) && DutyOf(At(logs, pl).payload) == Upsert(u)
  }

  predicate IsCreate(logs: Logs, pl: Place) {
    InLog(logs, pl) && DutyOf(At(logs, pl).payload).Upsert?
  }

  function UserAt(logs: Logs, pl: Place): User
    requires IsCreate(logs, pl)
  {
    DutyOf(At(logs, pl).payload).user
  }

  // ------------------------------------------------------------------ state

  /** The message a consumer holds; done once it may be committed. */
  datatype InFlight = InFlight(place: Place, done: bool)

  /** position: for each assigned partition, the next offset to fetch. */
  datatype Consumer = Consumer(position: map<nat, nat>, inFlight: Option<InFlight>)

  /** One consumer group and its view. The four sets of places are history:
      whose write request was sent, whose write reached the store, whose create
      returned nil, and whose processing returned an error that Run only logged.
      A lossy store may acknowledge a write it did not keep. */
  datatype Group = Group(
    lossy: bool,
    view: map<string, User>,
    committed: seq<nat>,
    consumers: seq<Consumer>,
    sent: set<Place>,
    stored: set<Place>,
    acked: set<Place>,
    failed: set<Place>)

  datatype State = State(
    source: map<string, Row>,
    logs: Logs,
    compacted: set<Place>,
    groups: seq<Group>)

  // -------------------------------------------------------- steps of a group

  datatype Work =
    | Fetch(c: nat, p: nat)
    | SkipHole(c: nat, p: nat)
    | Pass(c: nat)
    | Send(c: nat)
    | Land(pl: Place)
    | Ack(c: nat)
    | Fail(c: nat)
    | Commit(c: nat, rewind: bool)
    | CommitLost(c: nat)
    | Reassign(c: nat, parts: set<nat>, crashed: bool)

  predicate Holds(g: Group, c: nat) {
    c < |g.consumers| && g.consumers[c].inFlight.Some?
  }

  function Held(g: Group, c: nat): InFlight
    requires Holds(g, c)
  {
    g.consumers[c].inFlight.value
  }

  predicate Pending(logs: Logs, g: Group, c: nat) {
    Holds(g, c) && !Held(g, c).done && InLog(logs, Held(g, c).place)
  }

  predicate CanAdvance(logs: Logs, g: Group, c: nat, p: nat) {
    && c < |g.consumers| && g.consumers[c].inFlight.None?
    && p in g.consumers[c].position && InLog(logs, Place(p, g.consumers[c].position[p]))
  }

  predicate Enabled(logs: Logs, compacted: set<Place>, g: Group, w: Work) {
    match w
    case Fetch(c, p) => CanAdvance(logs, g, c, p) && Place(p, g.consumers[c].position[p]) !in compacted
    case SkipHole(c, p) => CanAdvance(logs, g, c, p) && Place(p, g.consumers[c].position[p]) in compacted
    case Pass(c) => Pending(logs, g, c) && DutyOf(At(logs, Held(g, c).place).payload).Nothing?
    case Send(c) => Pending(logs, g, c) && IsCreate(logs, Held(g, c).place)
    // a request already sent may reach the store at any later time, even twice
    case Land(pl) => pl in g.sent && IsCreate(logs, pl)
    case Ack(c) =>
      && Pending(logs, g, c) && IsCreate(logs, Held(g, c).place)
      && Held(g, c).place in (if g.lossy then g.sent else g.stored)
    case Fail(c) => Pending(logs, g, c) && CanFail(DutyOf(At(logs, Held(g, c).place).payload))
    case Commit(c, _) => Holds(g, c) && Held(g, c).done && Held(g, c).place.p < |g.committed|
    case CommitLost(c) => Holds(g, c) && Held(g, c).done
    case Reassign(c, parts, _) => c < |g.consumers| && forall p | p in parts :: p < |g.committed|
  }

  function Hold(g: Group, c: nat, f: Option<InFlight>): Group
    requires c < |g.consumers|
  {
    g.(consumers := g.consumers[c := g.consumers[c].(inFlight := f)])
  }

  function Advance(g: Group, c: nat, p: nat, f: Option<InFlight>): Group
    requires c < |g.consumers| && p in g.consumers[c].position
  {
    var k := g.consumers[c];
    g.(consumers := g.consumers[c := Consumer(k.position[p := k.position[p] + 1], f)])
  }

  function Max(a: nat, b: nat): nat { if a < b then b else a }

  function Do(logs: Logs, compacted: set<Place>, g: Group, w: Work): Group
    requires Enabled(logs, compacted, g, w)
  {
    match w
    case Fetch(c, p) => Advance(g, c, p, Some(InFlight(Place(p, g.consumers[c].position[p]), false)))
    case SkipHole(c, p) => Advance(g, c, p, None)
    case Pass(c) => Hold(g, c, Some(InFlight(Held(g, c).place, true)))
    case Send(c) => g.(sent := g.sent + {Held(g, c).place})
    case Land(pl) =>
      var u := UserAt(logs, pl);
      g.(view := g.view[u.id := u], stored := g.stored + {pl})
    case Ack(c) =>
      Hold(g.(acked := g.acked + {Held(g, c).place}), c, Some(InFlight(Held(g, c).place, true)))
    case Fail(c) => Hold(g.(failed := g.failed + {Held(g, c).place}), c, None)
    case Commit(c, rewind) =>
      var Place(p, o) := Held(g, c).place;
      var offset := if rewind then o + 1 else Max(g.committed[p], o + 1);
      Hold(g.(committed := g.committed[p := offset]), c, None)
    case CommitLost(c) => Hold(g, c, None)
    case Reassign(c, parts, crashed) =>
      var f := if crashed then None else g.consumers[c].inFlight;
      g.(consumers := g.consumers[c := Consumer(map p | p in parts :: g.committed[p], f)])
  }

  // ------------------------------------------------------ steps of the system

  datatype Step =
    | Insert(row: Row)
    | Append(p: nat, r: Record)
    | Compact(pl: Place)
    | Act(g: nat, w: Work)

  /** What change data capture may append: tombstones and unreadable values; the
      insert event of a row of the table; and, although no API call causes one,
      a change to a row that existed, which names that row before the change. */
  predicate Faithful(source: map<string, Row>, r: Record) {
    r.payload.Change? ==>
      var e := r.payload.event;
      || (e.before == NULL_ROW && r.key in source && e.after == source[r.key])
      || e.before.id != ""
  }

  /** A later record of the same partition has the same key. */
  ghost predicate Superseded(logs: Logs, pl: Place) {
    && InLog(logs, pl)
    && exists o :: pl.o < o < |logs[pl.p]| && logs[pl.p][o].key == At(logs, pl).key
  }

  ghost predicate Allowed(s: State, t: Step) {
    match t
    case Insert(row) => row.id != "" && row.id !in s.source
    case Append(p, r) => p < |s.logs| && Faithful(s.source, r)
    case Compact(pl) => Superseded(s.logs, pl)
    case Act(g, w) => g < |s.groups| && Enabled(s.logs, s.compacted, s.groups[g], w)
  }

  /** The state after a step; a step that is not allowed does nothing. */
  ghost function After(s: State, t: Step): State {
    if !Allowed(s, t) then s else
      match t
      case Insert(row) => s.(source := s.source[row.id := row])
      case Append(p, r) => s.(logs := s.logs[p := s.logs[p] + [r]])
      case Compact(pl) => s.(compacted := s.compacted + {pl})
      case Act(g, w) => s.(groups := s.groups[g := Do(s.logs, s.compacted, s.groups[g], w)])
  }

  ghost function StateAfter(s: State, ts: seq<Step>): State {
    if ts == [] then s else After(StateAfter(s, ts[..|ts| - 1]), ts[|ts| - 1])
  }

  ghost predicate IsRun(s: State, ts: seq<Step>) {
    ts == [] || (IsRun(s, ts[..|ts| - 1]) && Allowed(StateAfter(s, ts[..|ts| - 1]), ts[|ts| - 1]))
  }

  /** Empty table and logs; any number of partitions, groups and consumers. */
  ghost predicate Init(s: State) {
    && s.source == map[] && s.compacted == {}
    && (forall p | 0 <= p < |s.logs| :: s.logs[p] == [])
    && (forall g | 0 <= g < |s.groups| :: InitGroup(s.logs, s.groups[g]))
  }

  ghost predicate InitGroup(logs: Logs, g: Group) {
    && g.view == map[] && g.sent == g.stored == g.acked == g.failed == {}
    && |g.committed| == |logs| && (forall p | 0 <= p < |logs| :: g.committed[p] == 0)
    && (forall c | 0 <= c < |g.consumers| :: g.consumers[c] == Consumer(map[], None))
  }

  // -------------------------------------------------------------- invariants

  /** Committing past a place is justified. */
  predicate Accounted(logs: Logs, compacted: set<Place>, g: Group, pl: Place)
    requires InLog(logs, pl)
  {
    || pl in compacted
    || Succeeded(logs, g, pl)
    || (pl in g.failed && CanFail(DutyOf(At(logs, pl).payload)))
  }

  /** A tombstone, an event without effect, or a create that returned nil. */
  predicate Succeeded(logs: Logs, g: Group, pl: Place)
    requires InLog(logs, pl)
  {
    DutyOf(At(logs, pl).payload).Nothing? || (IsCreate(logs, pl) && pl in g.acked)
  }

  ghost predicate AccountedBelow(logs: Logs, compacted: set<Place>, g: Group, p: nat, n: nat) {
    forall o | 0 <= o < n :: InLog(logs, Place(p, o)) && Accounted(logs, compacted, g, Place(p, o))
  }

  ghost predicate ConsumerInv(logs: Logs, compacted: set<Place>, g: Group, k: Consumer) {
    && (forall p | p in k.position :: p < |logs| && k.position[p] <= |logs[p]|)
    && (forall p, o | p in k.position && 0 <= o < k.position[p] ::
          || Accounted(logs, compacted, g, Place(p, o))
          || (k.inFlight.Some? && k.inFlight.value.place == Place(p, o)))
    && (k.inFlight.Some? ==>
          var InFlight(pl, done) := k.inFlight.value;
          && InLog(logs, pl)
          && AccountedBelow(logs, compacted, g, pl.p, pl.o)
          && (done ==> Succeeded(logs, g, pl)))
  }

  ghost predicate OffsetsInv(logs: Logs, compacted: set<Place>, g: Group) {
    && |g.committed| == |logs|
    && (forall p | 0 <= p < |logs| ::
          g.committed[p] <= |logs[p]| && AccountedBelow(logs, compacted, g, p, g.committed[p]))
    && (forall c | 0 <= c < |g.consumers| :: ConsumerInv(logs, compacted, g, g.consumers[c]))
  }

  ghost predicate HistoryInv(logs: Logs, g: Group) {
    && g.stored <= g.sent && g.acked <= g.sent
    && (!g.lossy ==> g.acked <= g.stored)
    && (forall pl | pl in g.sent :: IsCreate(logs, pl))
  }

  /** Some write that reached the store was a create of u. */
  ghost predicate Written(logs: Logs, stored: set<Place>, u: User) {
    exists pl :: pl in stored && Creates(logs, pl, u)
  }

  /** The view holds the users of the stored writes and nothing else, each with
      the value its row has in the table. */
  ghost predicate ContentsInv(source: map<string, Row>, logs: Logs, view: map<string, User>, stored: set<Place>) {
    && (forall pl | pl in stored :: IsCreate(logs, pl) && UserAt(logs, pl).id in view)
    && (forall id | id in view ::
          id in source && view[id] == ToUser(source[id]) && Written(logs, stored, view[id]))
  }

  ghost predicate SourceInv(s: State) {
    && (forall k | k in s.source :: s.source[k].id == k && k != "")
    && (forall pl | InLog(s.logs, pl) :: Faithful(s.source, At(s.logs, pl)))
    && (forall pl | pl in s.compacted :: Superseded(s.logs, pl))
  }

  ghost predicate GroupInv(s: State, g: Group) {
    && OffsetsInv(s.logs, s.compacted, g)
    && HistoryInv(s.logs, g)
    && ContentsInv(s.source, s.logs, g.view, g.stored)
  }

  ghost predicate Inv(s: State) {
    SourceInv(s) && forall g | 0 <= g < |s.groups| :: GroupInv(s, s.groups[g])
  }

  // --------------------------------------------- the invariant is kept: groups

  /** A create event can only be the insert of a row of the table. */
  lemma CreateComesFromSource(s: State, pl: Place, u: User)
    requires SourceInv(s) && Creates(s.logs, pl, u)
    ensures u.id == At(s.logs, pl).key && u.id in s.source && u == ToUser(s.source[u.id])
  {
    assert Faithful(s.source, At(s.logs, pl));
    ClassifyByIds(At(s.logs, pl).payload.event);
  }

  /** Accounting is never undone: the sets it rests on only grow. */
  ghost predicate Grows(g: Group, g': Group) {
    && g'.lossy == g.lossy
    && g.sent <= g'.sent && g.stored <= g'.stored && g.acked <= g'.acked && g.failed <= g'.failed
  }

  lemma ConsumerInvGrows(logs: Logs, compacted: set<Place>, g: Group, g': Group, k: Consumer)
    requires ConsumerInv(logs, compacted, g, k) && Grows(g, g')
    ensures ConsumerInv(logs, compacted, g', k)
  {
  }

  lemma WorkGrows(logs: Logs, compacted: set<Place>, g: Group, w: Work)
    requires Enabled(logs, compacted, g, w)
    ensures Grows(g, Do(logs, compacted, g, w))
  {
  }

  /** A consumer whose position moved over one place is in order. */
  lemma AdvanceKeepsConsumer(logs: Logs, compacted: set<Place>, g: Group, c: nat, p: nat, fetched: bool)
    requires OffsetsInv(logs, compacted, g) && CanAdvance(logs, g, c, p)
    requires !fetched ==> Place(p, g.consumers[c].position[p]) in compacted
    ensures var pl := Place(p, g.consumers[c].position[p]);
            var g' := Advance(g, c, p, if fetched then Some(InFlight(pl, false)) else None);
            ConsumerInv(logs, compacted, g', g'.consumers[c])
  {
    var k, o := g.consumers[c], g.consumers[c].position[p];
    assert ConsumerInv(logs, compacted, g, k);
    forall o' | 0 <= o' < o
      ensures InLog(logs, Place(p, o')) && Accounted(logs, compacted, g, Place(p, o'))
    {
    }
  }

  /** So is one that is done with its message or has dropped it. */
  lemma HoldKeepsConsumer(logs: Logs, compacted: set<Place>, g: Group, w: Work)
    requires OffsetsInv(logs, compacted, g) && Enabled(logs, compacted, g, w)
    requires w.Pass? || w.Ack? || w.Fail? || w.Commit? || w.CommitLost?
    ensures var g' := Do(logs, compacted, g, w);
            ConsumerInv(logs, compacted, g', g'.consumers[w.c])
  {
    WorkGrows(logs, compacted, g, w);
    ConsumerInvGrows(logs, compacted, g, Do(logs, compacted, g, w), g.consumers[w.c]);
  }

  /** And one that starts again at the committed offsets. */
  lemma ReassignKeepsConsumer(logs: Logs, compacted: set<Place>, g: Group, w: Work)
    requires OffsetsInv(logs, compacted, g) && Enabled(logs, compacted, g, w) && w.Reassign?
    ensures var g' := Do(logs, compacted, g, w);
            ConsumerInv(logs, compacted, g', g'.consumers[w.c])
  {
    assert ConsumerInv(logs, compacted, g, g.consumers[w.c]);
    forall p | p in w.parts
      ensures AccountedBelow(logs, compacted, g, p, g.committed[p])
    {
    }
  }

  /** The consumer that moved, if any, is in order again. */
  lemma ActorKeepsConsumerInv(logs: Logs, compacted: set<Place>, g: Group, w: Work)
    requires OffsetsInv(logs, compacted, g) && Enabled(logs, compacted, g, w)
    ensures var g' := Do(logs, compacted, g, w);
            !w.Land? ==> w.c < |g'.consumers| && ConsumerInv(logs, compacted, g', g'.consumers[w.c])
  {
    match w
    case Fetch(c, p) => AdvanceKeepsConsumer(logs, compacted, g, c, p, true);
    case SkipHole(c, p) => AdvanceKeepsConsumer(logs, compacted, g, c, p, false);
    case Send(c) => ConsumerInvGrows(logs, compacted, g, Do(logs, compacted, g, w), g.consumers[c]);
    case Land(pl) =>
    case Reassign(c, parts, crashed) => ReassignKeepsConsumer(logs, compacted, g, w);
    case _ => HoldKeepsConsumer(logs, compacted, g, w);
  }

  lemma BelowGrows(logs: Logs, compacted: set<Place>, g: Group, g': Group, p: nat, n: nat)
    requires AccountedBelow(logs, compacted, g, p, n) && Grows(g, g')
    ensures AccountedBelow(logs, compacted, g', p, n)
  {
  }

  lemma WorkKeepsCommitted(logs: Logs, compacted: set<Place>, g: Group, w: Work)
    requires OffsetsInv(logs, compacted, g) && Enabled(logs, compacted, g, w)
    ensures var g' := Do(logs, compacted, g, w);
            && |g'.committed| == |logs|
            && forall p | 0 <= p < |logs| ::
                 g'.committed[p] <= |logs[p]| && AccountedBelow(logs, compacted, g', p, g'.committed[p])
  {
    var g' := Do(logs, compacted, g, w);
    WorkGrows(logs, compacted, g, w);
    forall p | 0 <= p < |logs|
      ensures AccountedBelow(logs, compacted, g', p, g.committed[p])
    {
      BelowGrows(logs, compacted, g, g', p, g.committed[p]);
    }
    if w.Commit? {
      assert ConsumerInv(logs, compacted, g, g.consumers[w.c]);
      var pl := Held(g, w.c).place;
      BelowGrows(logs, compacted, g, g', pl.p, pl.o);
    }
  }

  lemma WorkKeepsOffsets(logs: Logs, compacted: set<Place>, g: Group, w: Work)
    requires OffsetsInv(logs, compacted, g) && Enabled(logs, compacted, g, w)
    ensures OffsetsInv(logs, compacted, Do(logs, compacted, g, w))
  {
    var g' := Do(logs, compacted, g, w);
    WorkGrows(logs, compacted, g, w);
    WorkKeepsCommitted(logs, compacted, g, w);
    ActorKeepsConsumerInv(logs, compacted, g, w);
    forall c | 0 <= c < |g'.consumers|
      ensures ConsumerInv(logs, compacted, g', g'.consumers[c])
    {
      if w.Land? || c != w.c {
        ConsumerInvGrows(logs, compacted, g, g', g.consumers[c]);
      }
    }
  }

  lemma WorkKeepsHistory(logs: Logs, compacted: set<Place>, g: Group, w: Work)
    requires HistoryInv(logs, g) && Enabled(logs, compacted, g, w)
    ensures HistoryInv(logs, Do(logs, compacted, g, w))
  {
  }

  lemma WrittenGrows(logs: Logs, stored: set<Place>, stored': set<Place>, u: User)
    requires Written(logs, stored, u) && stored <= stored'
    ensures Written(logs, stored', u)
  {
  }

  lemma WriteKeepsStored(logs: Logs, view: map<string, User>, stored: set<Place>, pl: Place)
    requires forall q | q in stored :: IsCreate(logs, q) && UserAt(logs, q).id in view
    requires IsCreate(logs, pl)
    ensures var u := UserAt(logs, pl);
            forall q | q in stored + {pl} :: IsCreate(logs, q) && UserAt(logs, q).id in view[u.id := u]
  {
  }

  lemma WriteKeepsShown(s: State, view: map<string, User>, stored: set<Place>, pl: Place, id: string)
    requires SourceInv(s) && ContentsInv(s.source, s.logs, view, stored) && IsCreate(s.logs, pl)
    requires id in view || id == UserAt(s.logs, pl).id
    ensures var u := UserAt(s.logs, pl);
            var v := view[u.id := u][id];
            id in s.source && v == ToUser(s.source[id]) && Written(s.logs, stored + {pl}, v)
  {
    var u := UserAt(s.logs, pl);
    if id == u.id {
      CreateComesFromSource(s, pl, u);
      assert pl in stored + {pl} && Creates(s.logs, pl, u);
    } else {
      WrittenGrows(s.logs, stored, stored + {pl}, view[id]);
    }
  }

  lemma WriteKeepsContents(s: State, view: map<string, User>, stored: set<Place>, pl: Place)
    requires SourceInv(s) && ContentsInv(s.source, s.logs, view, stored) && IsCreate(s.logs, pl)
    ensures var u := UserAt(s.logs, pl);
            ContentsInv(s.source, s.logs, view[u.id := u], stored + {pl})
  {
    WriteKeepsStored(s.logs, view, stored, pl);
    var u := UserAt(s.logs, pl);
    forall id | id in view[u.id := u]
      ensures var v := view[u.id := u][id];
              id in s.source && v == ToUser(s.source[id]) && Written(s.logs, stored + {pl}, v)
    {
      WriteKeepsShown(s, view, stored, pl, id);
    }
  }

  lemma WorkKeepsGroup(s: State, g: Group, w: Work)
    requires SourceInv(s) && GroupInv(s, g) && Enabled(s.logs, s.compacted, g, w)
    ensures GroupInv(s, Do(s.logs, s.compacted, g, w))
  {
    WorkKeepsOffsets(s.logs, s.compacted, g, w);
    WorkKeepsHistory(s.logs, s.compacted, g, w);
    if w.Land? {
      WriteKeepsContents(s, g.view, g.stored, w.pl);
    }
  }

  // ---------------------------------------- the invariant is kept: environment

  /** What inserts, appends and compaction may do to the part groups read. */
  ghost predicate Extends(s: State, s': State) {
    && |s'.logs| == |s.logs|
    && (forall p | 0 <= p < |s.logs| :: s.logs[p] <= s'.logs[p])
    && s.compacted <= s'.compacted
    && (forall k | k in s.source :: k in s'.source && s'.source[k] == s.source[k])
  }

  lemma ExtensionKeepsRecords(s: State, s': State, pl: Place)
    requires Extends(s, s') && InLog(s.logs, pl)
    ensures InLog(s'.logs, pl) && At(s'.logs, pl) == At(s.logs, pl)
  {
  }

  lemma ExtensionKeepsAccounted(s: State, s': State, g: Group, pl: Place)
    requires Extends(s, s') && InLog(s.logs, pl)
    ensures InLog(s'.logs, pl)
    ensures Accounted(s.logs, s.compacted, g, pl) ==> Accounted(s'.logs, s'.compacted, g, pl)
    ensures Succeeded(s.logs, g, pl) <==> Succeeded(s'.logs, g, pl)
  {
  }

  lemma ExtensionKeepsBelow(s: State, s': State, g: Group, p: nat, n: nat)
    requires Extends(s, s') && AccountedBelow(s.logs, s.compacted, g, p, n)
    ensures AccountedBelow(s'.logs, s'.compacted, g, p, n)
  {
  }

  lemma ExtensionKeepsConsumer(s: State, s': State, g: Group, k: Consumer)
    requires Extends(s, s') && ConsumerInv(s.logs, s.compacted, g, k)
    ensures ConsumerInv(s'.logs, s'.compacted, g, k)
  {
    if k.inFlight.Some? {
      var pl := k.inFlight.value.place;
      ExtensionKeepsAccounted(s, s', g, pl);
      ExtensionKeepsBelow(s, s', g, pl.p, pl.o);
    }
    forall p, o: nat | p in k.position && o < k.position[p]
      ensures InLog(s'.logs, Place(p, o))
      ensures Accounted(s.logs, s.compacted, g, Place(p, o)) ==> Accounted(s'.logs, s'.compacted, g, Place(p, o))
    {
      ExtensionKeepsAccounted(s, s', g, Place(p, o));
    }
  }

  lemma ExtensionKeepsOffsets(s: State, s': State, g: Group)
    requires Extends(s, s') && OffsetsInv(s.logs, s.compacted, g)
    ensures OffsetsInv(s'.logs, s'.compacted, g)
  {
    forall p | 0 <= p < |s.logs|
      ensures g.committed[p] <= |s'.logs[p]| && AccountedBelow(s'.logs, s'.compacted, g, p, g.committed[p])
    {
      ExtensionKeepsBelow(s, s', g, p, g.committed[p]);
    }
    forall c | 0 <= c < |g.consumers|
      ensures ConsumerInv(s'.logs, s'.compacted, g, g.consumers[c])
    {
      ExtensionKeepsConsumer(s, s', g, g.consumers[c]);
    }
  }

  lemma ExtensionKeepsCreates(s: State, s': State, pl: Place)
    requires Extends(s, s') && InLog(s.logs, pl)
    ensures IsCreate(s'.logs, pl) <==> IsCreate(s.logs, pl)
    ensures IsCreate(s.logs, pl) ==> UserAt(s'.logs, pl) == UserAt(s.logs, pl)
  {
  }

  lemma ExtensionKeepsHistory(s: State, s': State, g: Group)
    requires Extends(s, s') && HistoryInv(s.logs, g)
    ensures HistoryInv(s'.logs, g)
  {
  }

  lemma ExtensionKeepsWritten(s: State, s': State, stored: set<Place>, u: User)
    requires Extends(s, s') && Written(s.logs, stored, u)
    ensures Written(s'.logs, stored, u)
  {
  }

  lemma ExtensionKeepsContents(s: State, s': State, view: map<string, User>, stored: set<Place>)
    requires Extends(s, s') && ContentsInv(s.source, s.logs, view, stored)
    ensures ContentsInv(s'.source, s'.logs, view, stored)
  {
    forall pl | pl in stored
      ensures IsCreate(s'.logs, pl) && UserAt(s'.logs, pl).id in view
    {
      ExtensionKeepsCreates(s, s', pl);
    }
    forall id | id in view
      ensures Written(s'.logs, stored, view[id])
    {
      ExtensionKeepsWritten(s, s', stored, view[id]);
    }
  }

  lemma ExtensionKeepsGroup(s: State, s': State, g: Group)
    requires GroupInv(s, g) && Extends(s, s')
    ensures GroupInv(s', g)
  {
    ExtensionKeepsOffsets(s, s', g);
    ExtensionKeepsHistory(s, s', g);
    ExtensionKeepsContents(s, s', g.view, g.stored);
  }

  lemma StepExtends(s: State, t: Step)
    ensures Extends(s, After(s, t))
  {
  }

  lemma StepKeepsSource(s: State, t: Step)
    requires SourceInv(s)
    ensures SourceInv(After(s, t))
  {
    var s' := After(s, t);
    StepExtends(s, t);
    forall pl | InLog(s'.logs, pl)
      ensures Faithful(s'.source, At(s'.logs, pl))
    {
      if InLog(s.logs, pl) {
        ExtensionKeepsRecords(s, s', pl);
        assert Faithful(s.source, At(s.logs, pl));
      }
    }
    forall pl | pl in s'.compacted
      ensures Superseded(s'.logs, pl)
    {
      assert Superseded(s.logs, pl);
      var o :| pl.o < o < |s.logs[pl.p]| && s.logs[pl.p][o].key == At(s.logs, pl).key;
      ExtensionKeepsRecords(s, s', pl);
      ExtensionKeepsRecords(s, s', Place(pl.p, o));
      assert s'.logs[pl.p][o].key == At(s'.logs, pl).key;
    }
  }

  lemma StepGrows(s: State, t: Step, g: nat)
    requires g < |s.groups|
    ensures Grows(s.groups[g], After(s, t).groups[g])
  {
    if t.Act? && t.g == g && Allowed(s, t) {
      WorkGrows(s.logs, s.compacted, s.groups[g], t.w);
    }
  }

  /** Every step of the system keeps the invariant. */
  lemma StepKeepsInv(s: State, t: Step)
    requires Inv(s)
    ensures Inv(After(s, t))
  {
    var s' := After(s, t);
    StepKeepsSource(s, t);
    StepExtends(s, t);
    forall g | 0 <= g < |s'.groups|
      ensures GroupInv(s', s'.groups[g])
    {
      if Allowed(s, t) && t.Act? && g == t.g {
        WorkKeepsGroup(s, s.groups[g], t.w);
      } else {
        ExtensionKeepsGroup(s, s', s.groups[g]);
      }
    }
  }

  lemma InitInv(s: State)
    requires Init(s)
    ensures Inv(s)
  {
  }

  lemma {:induction false} RunKeepsInv(s: State, ts: seq<Step>)
    requires Inv(s)
    ensures Inv(StateAfter(s, ts))
  {
    if ts != [] {
      RunKeepsInv(s, ts[..|ts| - 1]);
      StepKeepsInv(StateAfter(s, ts[..|ts| - 1]), ts[|ts| - 1]);
    }
  }
}
