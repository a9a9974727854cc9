/** What every run of the projection system guarantees, and what it does not. */
module Guarantees {
  import opened Users
  import opened Processor
  import opened Projection

  ghost function Reached(s0: State, ts: seq<Step>, g: nat): Group
    requires g < |s0.groups|
    ensures g < |StateAfter(s0, ts).groups|
  {
    GroupsStay(s0, ts);
    StateAfter(s0, ts).groups[g]
  }

  lemma {:induction false} GroupsStay(s0: State, ts: seq<Step>)
    ensures |StateAfter(s0, ts).groups| == |s0.groups|
    ensures |StateAfter(s0, ts).logs| == |s0.logs|
  {
    if ts != [] {
      GroupsStay(s0, ts[..|ts| - 1]);
    }
  }

  lemma ReachedInv(s0: State, ts: seq<Step>, g: nat)
    requires Init(s0) && g < |s0.groups|
    ensures SourceInv(StateAfter(s0, ts)) && GroupInv(StateAfter(s0, ts), Reached(s0, ts, g))
  {
    InitInv(s0);
    RunKeepsInv(s0, ts);
  }

  // ------------------------------------------------------------------ safety

  /** The table seen as a view would hold it. */
  function Image(source: map<string, Row>): map<string, User> {
    map id | id in source :: ToUser(source[id])
  }

  predicate Submap(a: map<string, User>, b: map<string, User>) {
    forall id | id in a :: id in b && b[id] == a[id]
  }

  /** Whatever happened, a view never shows a user the table does not hold, nor
      one with other values. */
  lemma ProjectionSafety(s0: State, ts: seq<Step>, g: nat)
    requires Init(s0) && g < |s0.groups|
    ensures Submap(Reached(s0, ts, g).view, Image(StateAfter(s0, ts).source))
  {
    ReachedInv(s0, ts, g);
  }

  /** Why a group was allowed to commit past a place. */
  lemma CommitAccounting(s0: State, ts: seq<Step>, g: nat, pl: Place)
    requires Init(s0) && g < |s0.groups|
    requires pl.p < |s0.logs|
    ensures |Reached(s0, ts, g).committed| == |s0.logs|
    ensures var s, r := StateAfter(s0, ts), Reached(s0, ts, g);
            pl.o < r.committed[pl.p] ==>
              && InLog(s.logs, pl)
              && (|| pl in s.compacted
                  || DutyOf(At(s.logs, pl).payload).Nothing?
                  || (IsCreate(s.logs, pl) && pl in r.acked)
                  || (CanFail(DutyOf(At(s.logs, pl).payload)) && pl in r.failed))
  {
    ReachedInv(s0, ts, g);
    GroupsStay(s0, ts);
    var s, r := StateAfter(s0, ts), Reached(s0, ts, g);
    assert AccountedBelow(s.logs, s.compacted, r, pl.p, r.committed[pl.p]);
  }

  /** A value that ends every process that decodes it holds its partition up: no
      group ever commits past it, until it is compacted away. */
  lemma ShortIsNeverPassed(s0: State, ts: seq<Step>, g: nat, pl: Place)
    requires Init(s0) && g < |s0.groups|
    requires InLog(StateAfter(s0, ts).logs, pl) && At(StateAfter(s0, ts).logs, pl).payload.Short?
    requires pl !in StateAfter(s0, ts).compacted
    ensures pl.p < |Reached(s0, ts, g).committed| && Reached(s0, ts, g).committed[pl.p] <= pl.o
    ensures !CaughtUp(StateAfter(s0, ts), Reached(s0, ts, g))
  {
    GroupsStay(s0, ts);
    CommitAccounting(s0, ts, g, pl);
  }

  /** Step t commits group g beyond place pl: it commits a later message. */
  ghost predicate CommitsLaterThan(s: State, t: Step, g: nat, pl: Place) {
    && t.Act? && t.g == g && g < |s.groups| && t.w.Commit? && Holds(s.groups[g], t.w.c)
    && Held(s.groups[g], t.w.c).place.p == pl.p
    && Held(s.groups[g], t.w.c).place.o > pl.o
  }

  lemma StepPassesOver(s: State, t: Step, g: nat, pl: Place)
    requires Inv(s) && g < |s.groups| && InLog(s.logs, pl)
    requires !(pl.o < s.groups[g].committed[pl.p])
    requires pl.o < After(s, t).groups[g].committed[pl.p]
    requires !Succeeded(s.logs, s.groups[g], pl)
    ensures CommitsLaterThan(s, t, g, pl)
  {
  }

  lemma SuccessStays(s: State, t: Step, g: nat, pl: Place)
    requires g < |s.groups| && InLog(s.logs, pl)
    requires Succeeded(s.logs, s.groups[g], pl)
    ensures InLog(After(s, t).logs, pl) && Succeeded(After(s, t).logs, After(s, t).groups[g], pl)
  {
  }

  /** One step back: either the place had been passed already, or this step is
      the commit of a later message. */
  lemma PassedBeforeOrNow(s: State, t: Step, g: nat, pl: Place)
    requires Inv(s) && g < |s.groups| && pl.p < |s.logs|
    requires |After(s, t).groups[g].committed| == |s.logs|
    requires pl.o < After(s, t).groups[g].committed[pl.p]
    requires InLog(After(s, t).logs, pl)
    requires !Succeeded(After(s, t).logs, After(s, t).groups[g], pl)
    ensures |s.groups[g].committed| == |s.logs|
    ensures CommitsLaterThan(s, t, g, pl)
            || (pl.o < s.groups[g].committed[pl.p] && InLog(s.logs, pl) && !Succeeded(s.logs, s.groups[g], pl))
  {
    assert GroupInv(s, s.groups[g]);
    if pl.o < s.groups[g].committed[pl.p] {
      assert AccountedBelow(s.logs, s.compacted, s.groups[g], pl.p, s.groups[g].committed[pl.p]);
      assert InLog(s.logs, Place(pl.p, pl.o));
    }
    if InLog(s.logs, pl) && Succeeded(s.logs, s.groups[g], pl) {
      SuccessStays(s, t, g, pl);
    } else if !(pl.o < s.groups[g].committed[pl.p]) {
      assert InLog(s.logs, pl);
      StepPassesOver(s, t, g, pl);
    }
  }

  /** The offset group g has committed in partition p. */
  ghost function Committed(s0: State, ts: seq<Step>, g: nat, p: nat): nat
    requires Init(s0) && g < |s0.groups| && p < |s0.logs|
  {
    ReachedShape(s0, ts, g);
    Reached(s0, ts, g).committed[p]
  }

  /** A place that never succeeded is left behind only because a later message
      of the same partition was committed; no step commits the place itself. */
  lemma {:induction false} FailurePassedByLaterCommit(s0: State, ts: seq<Step>, g: nat, pl: Place)
    requires Init(s0) && g < |s0.groups| && pl.p < |s0.logs|
    requires pl.o < Committed(s0, ts, g, pl.p)
    requires InLog(StateAfter(s0, ts).logs, pl) ==> !Succeeded(StateAfter(s0, ts).logs, Reached(s0, ts, g), pl)
    ensures exists i :: 0 <= i < |ts| && CommitsLaterThan(StateAfter(s0, ts[..i]), ts[i], g, pl)
  {
    hide After, Allowed, Inv, Succeeded;
    CommitAccounting(s0, ts, g, pl);
    if ts != [] {
      var n := |ts| - 1;
      ReachedShape(s0, ts[..n], g);
      PassedBeforeOrNow(StateAfter(s0, ts[..n]), ts[n], g, pl);
      if !CommitsLaterThan(StateAfter(s0, ts[..n]), ts[n], g, pl) {
        FailurePassedByLaterCommit(s0, ts[..n], g, pl);
        var i :| 0 <= i < n && CommitsLaterThan(StateAfter(s0, ts[..n][..i]), ts[..n][i], g, pl);
        assert ts[..n][..i] == ts[..i];
      }
    }
  }

  lemma WorkGoesBackExactly(logs: Logs, compacted: set<Place>, g: Group, w: Work, p: nat)
    requires Enabled(logs, compacted, g, w) && p < |g.committed|
    ensures |Do(logs, compacted, g, w).committed| == |g.committed|
    ensures Do(logs, compacted, g, w).committed[p] < g.committed[p] <==>
              && w.Commit? && w.rewind && Held(g, w.c).place.p == p
              && Held(g, w.c).place.o + 1 < g.committed[p]
  {
  }

  /** A committed offset goes back exactly when the broker takes a stale commit
      as it comes, without merging it with what it has. */
  lemma CommitGoesBackExactly(s: State, t: Step, g: nat, p: nat)
    requires Inv(s) && g < |s.groups| && p < |s.logs|
    ensures |After(s, t).groups| == |s.groups| && |After(s, t).groups[g].committed| == |s.logs|
    ensures After(s, t).groups[g].committed[p] < s.groups[g].committed[p] <==>
              && Allowed(s, t) && t.Act? && t.g == g && t.w.Commit? && t.w.rewind
              && Held(s.groups[g], t.w.c).place.p == p
              && Held(s.groups[g], t.w.c).place.o + 1 < s.groups[g].committed[p]
  {
    assert GroupInv(s, s.groups[g]);
    if Allowed(s, t) && t.Act? && t.g == g {
      WorkGoesBackExactly(s.logs, s.compacted, s.groups[g], t.w, p);
    }
  }

  predicate NoRewind(ts: seq<Step>) {
    forall i | 0 <= i < |ts| && ts[i].Act? && ts[i].w.Commit? :: !ts[i].w.rewind
  }

  lemma {:induction false} CommittedNeverDecreases(s0: State, ts: seq<Step>, i: nat, g: nat, p: nat)
    requires Init(s0) && g < |s0.groups| && p < |s0.logs| && i <= |ts| && NoRewind(ts)
    ensures |Reached(s0, ts, g).committed| == |Reached(s0, ts[..i], g).committed| == |s0.logs|
    ensures Reached(s0, ts[..i], g).committed[p] <= Reached(s0, ts, g).committed[p]
  {
    hide After, Allowed, Inv, GroupInv, SourceInv;
    ReachedShape(s0, ts, g);
    ReachedShape(s0, ts[..i], g);
    if i == |ts| {
      assert ts[..i] == ts;
    } else {
      var n := |ts| - 1;
      CommittedNeverDecreases(s0, ts[..n], i, g, p);
      assert ts[..n][..i] == ts[..i];
      ReachedShape(s0, ts[..n], g);
      CommitGoesBackExactly(StateAfter(s0, ts[..n]), ts[n], g, p);
    }
  }

  lemma ReachedShape(s0: State, ts: seq<Step>, g: nat)
    requires Init(s0) && g < |s0.groups|
    ensures Inv(StateAfter(s0, ts))
    ensures |StateAfter(s0, ts).logs| == |s0.logs| == |Reached(s0, ts, g).committed|
  {
    InitInv(s0);
    RunKeepsInv(s0, ts);
    GroupsStay(s0, ts);
    assert GroupInv(StateAfter(s0, ts), Reached(s0, ts, g));
  }

  // ------------------------------------------------------------- convergence

  /** The group has committed to the end of every partition. */
  ghost predicate CaughtUp(s: State, g: Group) {
    |g.committed| == |s.logs| && forall p | 0 <= p < |s.logs| :: g.committed[p] == |s.logs[p]|
  }

  /** Change data capture has done its part for id: its insert event is there. */
  ghost predicate CapturedAt(s: State, id: string, pl: Place)
    requires id in s.source
  {
    Creates(s.logs, pl, ToUser(s.source[id])) && pl !in s.compacted
  }

  ghost predicate Captured(s: State) {
    forall id | id in s.source :: exists pl :: CapturedAt(s, id, pl)
  }

  /** Failures that do not matter: creates whose write reached the store anyway. */
  ghost predicate NoCreateFailed(s: State, g: Group) {
    forall pl | pl in g.failed && IsCreate(s.logs, pl) :: pl in g.stored
  }

  lemma StoredIsShown(s: State, g: Group, pl: Place)
    requires GroupInv(s, g) && IsCreate(s.logs, pl)
    ensures pl in g.stored ==> UserAt(s.logs, pl).id in g.view
  {
  }

  lemma CapturedIsShown(s: State, g: Group, id: string)
    requires SourceInv(s) && GroupInv(s, g) && id in s.source
    requires Captured(s) && CaughtUp(s, g) && NoCreateFailed(s, g) && g.acked <= g.stored
    ensures id in g.view
  {
    var pl :| CapturedAt(s, id, pl);
    assert IsCreate(s.logs, pl);
    assert AccountedBelow(s.logs, s.compacted, g, pl.p, g.committed[pl.p]);
    assert Accounted(s.logs, s.compacted, g, Place(pl.p, pl.o));
    StoredIsShown(s, g, pl);
  }

  lemma ImageExactly(view: map<string, User>, source: map<string, Row>)
    requires Submap(view, Image(source))
    ensures view == Image(source) <==> forall id | id in source :: id in view
  {
  }

  /** A group that has committed everything shows the table, if every row was
      captured and no create failed for good. */
  lemma Convergence(s0: State, ts: seq<Step>, g: nat)
    requires Init(s0) && g < |s0.groups|
    requires Captured(StateAfter(s0, ts)) && CaughtUp(StateAfter(s0, ts), Reached(s0, ts, g))
    requires NoCreateFailed(StateAfter(s0, ts), Reached(s0, ts, g))
    requires Reached(s0, ts, g).lossy ==> Reached(s0, ts, g).acked <= Reached(s0, ts, g).stored
    ensures Reached(s0, ts, g).view == Image(StateAfter(s0, ts).source)
  {
    var s, r := StateAfter(s0, ts), Reached(s0, ts, g);
    ReachedInv(s0, ts, g);
    ProjectionSafety(s0, ts, g);
    forall id | id in s.source
      ensures id in r.view
    {
      CapturedIsShown(s, r, id);
    }
    ImageExactly(r.view, s.source);
  }

  /** Groups with different consumers, schedules and stores show the same users. */
  lemma TwoGroupsAgree(s0: State, ts: seq<Step>, g: nat, h: nat)
    requires Init(s0) && g < |s0.groups| && h < |s0.groups|
    requires var s := StateAfter(s0, ts);
             Captured(s) && forall k | k in {g, h} ::
               && CaughtUp(s, Reached(s0, ts, k)) && NoCreateFailed(s, Reached(s0, ts, k))
               && (Reached(s0, ts, k).lossy ==> Reached(s0, ts, k).acked <= Reached(s0, ts, k).stored)
    ensures Reached(s0, ts, g).view == Reached(s0, ts, h).view
  {
    Convergence(s0, ts, g);
    Convergence(s0, ts, h);
  }

  /** As long as only inserts reach the topic, capturing a row once is enough:
      duplicates and compaction cannot hide it. */
  ghost predicate OnlyInserts(s: State) {
    forall pl | InLog(s.logs, pl) ::
      var r := At(s.logs, pl);
      r.key in s.source && r.payload == Change(BeforeAfter(NULL_ROW, s.source[r.key]))
  }

  ghost predicate LastOfKey(logs: Logs, pl: Place)
    requires InLog(logs, pl)
  {
    forall o | pl.o < o < |logs[pl.p]| :: logs[pl.p][o].key != At(logs, pl).key
  }

  lemma {:induction false} LastPlace(logs: Logs, pl: Place) returns (last: Place)
    requires InLog(logs, pl)
    ensures InLog(logs, last) && At(logs, last).key == At(logs, pl).key && LastOfKey(logs, last)
    decreases if pl.p < |logs| && pl.o < |logs[pl.p]| then |logs[pl.p]| - pl.o else 0
  {
    if LastOfKey(logs, pl) {
      last := pl;
    } else {
      var o :| pl.o < o < |logs[pl.p]| && logs[pl.p][o].key == At(logs, pl).key;
      last := LastPlace(logs, Place(pl.p, o));
    }
  }

  lemma OnlyInsertsCaptured(s: State)
    requires SourceInv(s) && OnlyInserts(s)
    requires forall id | id in s.source :: exists pl :: InLog(s.logs, pl) && At(s.logs, pl).key == id
    ensures Captured(s)
  {
    forall id | id in s.source
      ensures exists pl :: CapturedAt(s, id, pl)
    {
      var pl :| InLog(s.logs, pl) && At(s.logs, pl).key == id;
      var last := LastPlace(s.logs, pl);
      ClassifyByIds(At(s.logs, last).payload.event);
      assert !Superseded(s.logs, last);
      assert CapturedAt(s, id, last);
    }
  }

  // ------------------------------------------- what the system does not promise

  lemma {:induction false} RunAppend(s: State, ts: seq<Step>, t: Step)
    requires IsRun(s, ts) && Allowed(StateAfter(s, ts), t)
    ensures IsRun(s, ts + [t]) && StateAfter(s, ts + [t]) == After(StateAfter(s, ts), t)
  {
  }

  const ANN := Row("a", "Ann", "Lee", 1)
  const FIRST := Place(0, 0)
  const SECOND := Place(0, 1)
  const ANN_INSERT := Record("a", Change(BeforeAfter(NULL_ROW, ANN)))
  const OTHER_TOMBSTONE := Record("z", Tombstone)
  const ANN_LOGS: Logs := [[ANN_INSERT, OTHER_TOMBSTONE]]

  /** A strict group with one partition and one consumer, which has fetched up to
      next and holds held. */
  function Solo(next: nat, held: Option<InFlight>, failed: set<Place>, committed: nat): Group {
    Group(false, map[], [committed], [Consumer(map[0 := next], held)], {}, {}, {}, failed)
  }

  const IDLE := Group(false, map[], [0], [Consumer(map[], None)], {}, {}, {}, {})
  const EMPTY := State(map[], [[]], {}, [IDLE])
  const ANN_STATE := State(map["a" := ANN], ANN_LOGS, {}, [IDLE])

  /** One row is inserted; its event and another key's tombstone are appended. */
  lemma AnnAppended() returns (ts: seq<Step>)
    ensures IsRun(EMPTY, ts) && StateAfter(EMPTY, ts) == ANN_STATE
  {
    RunAppend(EMPTY, [], Insert(ANN));
    ts := [Insert(ANN)];
    assert StateAfter(EMPTY, [] + [Insert(ANN)]) == EMPTY.(source := map["a" := ANN]);
    RunAppend(EMPTY, ts, Append(0, ANN_INSERT));
    ts := ts + [Append(0, ANN_INSERT)];
    assert [] + [ANN_INSERT] == [ANN_INSERT];
    assert StateAfter(EMPTY, ts).logs == [[ANN_INSERT]];
    RunAppend(EMPTY, ts, Append(0, OTHER_TOMBSTONE));
    assert [ANN_INSERT] + [OTHER_TOMBSTONE] == ANN_LOGS[0];
    ts := ts + [Append(0, OTHER_TOMBSTONE)];
  }

  /** g and g' are one step of the only group apart. */
  ghost predicate Hop(g: Group, w: Work, g': Group) {
    Enabled(ANN_LOGS, {}, g, w) && Do(ANN_LOGS, {}, g, w) == g'
  }

  /** The create of the row fails and is logged. */
  lemma FirstFails()
    ensures Hop(IDLE, Reassign(0, {0}, false), Solo(0, None, {}, 0))
    ensures Hop(Solo(0, None, {}, 0), Fetch(0, 0), Solo(1, Some(InFlight(FIRST, false)), {}, 0))
    ensures Hop(Solo(1, Some(InFlight(FIRST, false)), {}, 0), Fail(0), Solo(1, None, {FIRST}, 0))
  {
    var g := Do(ANN_LOGS, {}, IDLE, Reassign(0, {0}, false));
    assert g.consumers[0].position == map[0 := 0];
    assert g.consumers == Solo(0, None, {}, 0).consumers;
    assert map[0 := 0][0 := 1] == map[0 := 1];
    ClassifyByIds(ANN_INSERT.payload.event);
  }

  /** The tombstone after it is passed and committed. */
  lemma SecondCommitted()
    ensures Hop(Solo(1, None, {FIRST}, 0), Fetch(0, 0), Solo(2, Some(InFlight(SECOND, false)), {FIRST}, 0))
    ensures Hop(Solo(2, Some(InFlight(SECOND, false)), {FIRST}, 0), Pass(0),
                Solo(2, Some(InFlight(SECOND, true)), {FIRST}, 0))
    ensures Hop(Solo(2, Some(InFlight(SECOND, true)), {FIRST}, 0), Commit(0, false), Solo(2, None, {FIRST}, 2))
  {
    assert map[0 := 1][0 := 2] == map[0 := 2];
  }

  lemma HopAppend(ts: seq<Step>, g: Group, w: Work, g': Group)
    requires IsRun(EMPTY, ts) && StateAfter(EMPTY, ts) == ANN_STATE.(groups := [g]) && Hop(g, w, g')
    ensures IsRun(EMPTY, ts + [Act(0, w)]) && StateAfter(EMPTY, ts + [Act(0, w)]) == ANN_STATE.(groups := [g'])
  {
  }

  lemma LossyRun() returns (ts: seq<Step>)
    ensures IsRun(EMPTY, ts) && StateAfter(EMPTY, ts) == ANN_STATE.(groups := [Solo(2, None, {FIRST}, 2)])
  {
    ts := AnnAppended();
    FirstFails();
    SecondCommitted();
    HopAppend(ts, IDLE, Reassign(0, {0}, false), Solo(0, None, {}, 0));
    ts := ts + [Act(0, Reassign(0, {0}, false))];
    HopAppend(ts, Solo(0, None, {}, 0), Fetch(0, 0), Solo(1, Some(InFlight(FIRST, false)), {}, 0));
    ts := ts + [Act(0, Fetch(0, 0))];
    HopAppend(ts, Solo(1, Some(InFlight(FIRST, false)), {}, 0), Fail(0), Solo(1, None, {FIRST}, 0));
    ts := ts + [Act(0, Fail(0))];
    HopAppend(ts, Solo(1, None, {FIRST}, 0), Fetch(0, 0), Solo(2, Some(InFlight(SECOND, false)), {FIRST}, 0));
    ts := ts + [Act(0, Fetch(0, 0))];
    HopAppend(ts, Solo(2, Some(InFlight(SECOND, false)), {FIRST}, 0), Pass(0),
              Solo(2, Some(InFlight(SECOND, true)), {FIRST}, 0));
    ts := ts + [Act(0, Pass(0))];
    HopAppend(ts, Solo(2, Some(InFlight(SECOND, true)), {FIRST}, 0), Commit(0, false), Solo(2, None, {FIRST}, 2));
    ts := ts + [Act(0, Commit(0, false))];
  }

  /** Commits do not mean at-least-once: a create fails and is logged, the commit
      of the next message passes over it, and although the group has committed the
      whole log the row is not only missing but left behind. */
  lemma CommittedDoesNotMeanApplied() returns (s0: State, ts: seq<Step>)
    ensures Init(s0) && IsRun(s0, ts) && |s0.groups| == 1
    ensures Captured(StateAfter(s0, ts)) && CaughtUp(StateAfter(s0, ts), Reached(s0, ts, 0))
    ensures Reached(s0, ts, 0).acked == Reached(s0, ts, 0).stored
    ensures "a" in StateAfter(s0, ts).source && "a" !in Reached(s0, ts, 0).view
    ensures LeftBehind(StateAfter(s0, ts).logs, Reached(s0, ts, 0), "a")
  {
    s0 := EMPTY;
    ts := LossyRun();
    ClassifyByIds(ANN_INSERT.payload.event);
    assert CapturedAt(StateAfter(s0, ts), "a", FIRST);
  }

  // ---------------------------------------------------------- lost for good

  predicate CreatesId(logs: Logs, pl: Place, id: string) {
    IsCreate(logs, pl) && UserAt(logs, pl).id == id
  }

  /** Group g has left every create of id behind: none of its writes was asked for,
      and every one is below the committed offset and below every position. */
  ghost predicate LeftBehind(logs: Logs, g: Group, id: string) {
    && id !in g.view && |g.committed| == |logs|
    && (forall pl | pl in g.sent :: IsCreate(logs, pl) && !CreatesId(logs, pl, id))
    && (forall pl | CreatesId(logs, pl, id) :: pl.o < g.committed[pl.p])
    && (forall c | 0 <= c < |g.consumers| :: PastCreates(logs, g.consumers[c], id))
  }

  ghost predicate PastCreates(logs: Logs, k: Consumer, id: string) {
    && (forall pl | CreatesId(logs, pl, id) && pl.p in k.position :: pl.o < k.position[pl.p])
    && (k.inFlight.Some? ==>
          InLog(logs, k.inFlight.value.place) && !CreatesId(logs, k.inFlight.value.place, id))
  }

  /** t neither rewinds a commit of group g nor appends another create of id. */
  predicate Ordinary(t: Step, g: nat, id: string) {
    && (t.Act? && t.g == g && t.w.Commit? ==> !t.w.rewind)
    && (t.Append? && DutyOf(t.r.payload).Upsert? ==> DutyOf(t.r.payload).user.id != id)
  }

  lemma WorkKeepsPast(logs: Logs, compacted: set<Place>, g: Group, w: Work, c: nat, id: string)
    requires LeftBehind(logs, g, id) && Enabled(logs, compacted, g, w) && c < |g.consumers|
    ensures var g' := Do(logs, compacted, g, w);
            |g'.consumers| == |g.consumers| && PastCreates(logs, g'.consumers[c], id)
  {
    assert PastCreates(logs, g.consumers[c], id);
  }

  lemma WorkLeavesBehind(logs: Logs, compacted: set<Place>, g: Group, w: Work, id: string)
    requires LeftBehind(logs, g, id) && Enabled(logs, compacted, g, w) && (w.Commit? ==> !w.rewind)
    ensures LeftBehind(logs, Do(logs, compacted, g, w), id)
  {
    forall c | 0 <= c < |g.consumers|
      ensures var g' := Do(logs, compacted, g, w);
              |g'.consumers| == |g.consumers| && PastCreates(logs, g'.consumers[c], id)
    {
      WorkKeepsPast(logs, compacted, g, w, c, id);
    }
    if w.Send? {
      assert PastCreates(logs, g.consumers[w.c], id);
    }
    hide PastCreates;
  }

  lemma AppendLeavesBehind(s: State, p: nat, r: Record, g: Group, id: string)
    requires p < |s.logs| && LeftBehind(s.logs, g, id)
    requires DutyOf(r.payload).Upsert? ==> DutyOf(r.payload).user.id != id
    ensures LeftBehind(s.logs[p := s.logs[p] + [r]], g, id)
  {
    var logs' := s.logs[p := s.logs[p] + [r]];
    forall pl | InLog(logs', pl)
      ensures CreatesId(logs', pl, id) ==> CreatesId(s.logs, pl, id)
      ensures InLog(s.logs, pl) ==> At(logs', pl) == At(s.logs, pl)
    {
    }
    forall c | 0 <= c < |g.consumers|
      ensures PastCreates(logs', g.consumers[c], id)
    {
      assert PastCreates(s.logs, g.consumers[c], id);
    }
  }

  lemma StepLeavesBehind(s: State, t: Step, g: nat, id: string)
    requires g < |s.groups| && LeftBehind(s.logs, s.groups[g], id) && Ordinary(t, g, id)
    ensures LeftBehind(After(s, t).logs, After(s, t).groups[g], id)
  {
    if Allowed(s, t) {
      if t.Append? {
        AppendLeavesBehind(s, t.p, t.r, s.groups[g], id);
      } else if t.Act? && t.g == g {
        WorkLeavesBehind(s.logs, s.compacted, s.groups[g], t.w, id);
      }
    }
  }

  /** A row that was left behind is lost for good: whatever happens, with merging
      commits and no further create of it, the view does not come to show it. */
  lemma {:induction false} LostForGood(s: State, ts: seq<Step>, g: nat, id: string)
    requires g < |s.groups| && LeftBehind(s.logs, s.groups[g], id)
    requires forall i | 0 <= i < |ts| :: Ordinary(ts[i], g, id)
    ensures LeftBehind(StateAfter(s, ts).logs, Reached(s, ts, g), id)
    ensures id !in Reached(s, ts, g).view
  {
    hide LeftBehind, Ordinary, After;
    if ts != [] {
      LostForGood(s, ts[..|ts| - 1], g, id);
      StepLeavesBehind(StateAfter(s, ts[..|ts| - 1]), ts[|ts| - 1], g, id);
    }
    LeftBehindIsMissing(StateAfter(s, ts).logs, Reached(s, ts, g), id);
  }

  lemma LeftBehindIsMissing(logs: Logs, g: Group, id: string)
    requires LeftBehind(logs, g, id)
    ensures id !in g.view
  {
  }
}
