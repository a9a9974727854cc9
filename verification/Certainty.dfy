/** What the history of a consumer group tells about its view. The program does not
    see its store: it sees what it asked for, what it was answered, and the errors
    Run logged. Runs that agree in all of that may still differ in their views,
    because a write whose answer is lost may have landed or not. */
module Certainty {
  import opened Projection
  import opened Guarantees

  /** us ends as ts does, but for what reached the store of group g: the table, the
      logs, the other groups, and in g the requests, answers, logged failures,
      committed offsets and consumers are the same. */
  ghost predicate LooksLike(s0: State, us: seq<Step>, ts: seq<Step>, g: nat)
    requires g < |s0.groups|
  {
    && IsRun(s0, us)
    && var s, r, u := StateAfter(s0, ts), Reached(s0, ts, g), Reached(s0, us, g);
       StateAfter(s0, us) == s.(groups := s.groups[g := r.(view := u.view, stored := u.stored)])
  }

  /** For all the program can know after ts, id may be missing from the view of g. */
  ghost predicate MayMiss(s0: State, ts: seq<Step>, g: nat, id: string)
    requires g < |s0.groups|
  {
    exists us :: LooksLike(s0, us, ts, g) && id !in Reached(s0, us, g).view
  }

  /** For all it can know, id may be there. */
  ghost predicate MayShow(s0: State, ts: seq<Step>, g: nat, id: string)
    requires g < |s0.groups|
  {
    exists us :: LooksLike(s0, us, ts, g) && id in Reached(s0, us, g).view
  }

  /** Some create of id returned nil. */
  ghost predicate Acknowledged(logs: Logs, g: Group, id: string) {
    exists pl :: pl in g.acked && CreatesId(logs, pl, id)
  }

  /** Some write of id was asked of the store. */
  ghost predicate Requested(logs: Logs, g: Group, id: string) {
    exists pl :: pl in g.sent && CreatesId(logs, pl, id)
  }

  // ------------------------------------------------- a run without some writes

  ghost function Stripped(logs: Logs, k: Group, id: string): Group {
    k.(view := k.view - {id}, stored := set pl | pl in k.stored && !CreatesId(logs, pl, id))
  }

  /** s as if no write of id had ever reached the store of g. */
  ghost function Without(s: State, g: nat, id: string): State
    requires g < |s.groups|
  {
    s.(groups := s.groups[g := Stripped(s.logs, s.groups[g], id)])
  }

  predicate Lands(logs: Logs, t: Step, g: nat, id: string) {
    t.Act? && t.g == g && t.w.Land? && CreatesId(logs, t.w.pl, id)
  }

  /** ts but for the steps in which a write of id reaches the store of g. */
  ghost function Dropped(s0: State, ts: seq<Step>, g: nat, id: string): seq<Step> {
    if ts == [] then []
    else
      var n := |ts| - 1;
      var before := Dropped(s0, ts[..n], g, id);
      if Lands(StateAfter(s0, ts[..n]).logs, ts[n], g, id) then before else before + [ts[n]]
  }

  /** A create of id returned nil, and the store keeps what it acknowledges. */
  ghost predicate Sure(logs: Logs, k: Group, id: string) {
    !k.lossy && Acknowledged(logs, k, id)
  }

  ghost predicate SureOfAll(s: State, k: Group) {
    forall id | id in s.source :: Sure(s.logs, k, id)
  }

  lemma LandStripped(logs: Logs, compacted: set<Place>, k: Group, pl: Place, id: string)
    requires Enabled(logs, compacted, k, Land(pl))
    ensures var k' := Do(logs, compacted, k, Land(pl));
            Stripped(logs, k', id) ==
              if CreatesId(logs, pl, id) then Stripped(logs, k, id)
              else Do(logs, compacted, Stripped(logs, k, id), Land(pl))
  {
    var k', u := Do(logs, compacted, k, Land(pl)), UserAt(logs, pl);
    var stripped := Stripped(logs, k, id);
    if u.id == id {
      assert k'.view - {id} == k.view - {id};
      assert Stripped(logs, k', id).stored == stripped.stored;
    } else {
      assert k'.view - {id} == (k.view - {id})[u.id := u];
      assert Stripped(logs, k', id).stored == stripped.stored + {pl};
    }
  }

  /** A step of the group does not notice the missing writes. */
  lemma WorkStripped(logs: Logs, compacted: set<Place>, k: Group, w: Work, id: string)
    requires Enabled(logs, compacted, k, w) && !w.Land?
    requires !Sure(logs, Do(logs, compacted, k, w), id)
    ensures Enabled(logs, compacted, Stripped(logs, k, id), w)
    ensures Do(logs, compacted, Stripped(logs, k, id), w) == Stripped(logs, Do(logs, compacted, k, w), id)
  {
    if w.Ack? {
      assert Held(k, w.c).place in Do(logs, compacted, k, w).acked;
    }
  }

  lemma ExtensionStripped(s: State, s': State, k: Group, id: string)
    requires Extends(s, s') && HistoryInv(s.logs, k)
    ensures Stripped(s'.logs, k, id) == Stripped(s.logs, k, id)
  {
    forall pl | pl in k.stored
      ensures CreatesId(s'.logs, pl, id) <==> CreatesId(s.logs, pl, id)
    {
      ExtensionKeepsCreates(s, s', pl);
    }
  }

  lemma SureStays(s: State, s': State, k: Group, k': Group, id: string)
    requires Extends(s, s') && Grows(k, k') && Sure(s.logs, k, id)
    ensures Sure(s'.logs, k', id)
  {
    var pl :| pl in k.acked && CreatesId(s.logs, pl, id);
    ExtensionKeepsCreates(s, s', pl);
    assert pl in k'.acked && CreatesId(s'.logs, pl, id);
  }

  lemma UnsureBefore(s: State, t: Step, g: nat, id: string)
    requires g < |s.groups| && !Sure(After(s, t).logs, After(s, t).groups[g], id)
    ensures !Sure(s.logs, s.groups[g], id)
  {
    StepExtends(s, t);
    StepGrows(s, t, g);
    if Sure(s.logs, s.groups[g], id) {
      SureStays(s, After(s, t), s.groups[g], After(s, t).groups[g], id);
    }
  }

  lemma WorkWithout(s: State, t: Step, g: nat, id: string)
    requires g < |s.groups| && Allowed(s, t) && t.Act? && t.g == g
    requires !Sure(After(s, t).logs, After(s, t).groups[g], id)
    ensures if Lands(s.logs, t, g, id) then Without(After(s, t), g, id) == Without(s, g, id)
            else Allowed(Without(s, g, id), t) && After(Without(s, g, id), t) == Without(After(s, t), g, id)
  {
    if t.w.Land? {
      LandStripped(s.logs, s.compacted, s.groups[g], t.w.pl, id);
    } else {
      WorkStripped(s.logs, s.compacted, s.groups[g], t.w, id);
    }
  }

  lemma StepWithout(s: State, t: Step, g: nat, id: string)
    requires g < |s.groups| && HistoryInv(s.logs, s.groups[g]) && Allowed(s, t)
    requires !Sure(After(s, t).logs, After(s, t).groups[g], id)
    ensures if Lands(s.logs, t, g, id) then Without(After(s, t), g, id) == Without(s, g, id)
            else Allowed(Without(s, g, id), t) && After(Without(s, g, id), t) == Without(After(s, t), g, id)
  {
    if t.Act? && t.g == g {
      WorkWithout(s, t, g, id);
    } else {
      StepExtends(s, t);
      ExtensionStripped(s, After(s, t), s.groups[g], id);
    }
  }

  lemma NothingStripped(logs: Logs, k: Group, id: string)
    requires k.view == map[] && k.stored == {}
    ensures Stripped(logs, k, id) == k
  {
    assert k.view - {id} == map[];
  }

  /** A run nobody could tell from ts, in which no write of id ever landed. */
  lemma {:induction false} DroppedIsARun(s0: State, ts: seq<Step>, g: nat, id: string)
    requires Init(s0) && g < |s0.groups| && IsRun(s0, ts)
    requires !Sure(StateAfter(s0, ts).logs, Reached(s0, ts, g), id)
    ensures var us := Dropped(s0, ts, g, id);
            IsRun(s0, us) && StateAfter(s0, us) == Without(StateAfter(s0, ts), g, id)
  {
    if ts == [] {
      NothingStripped(s0.logs, s0.groups[g], id);
      assert s0.groups[g := s0.groups[g]] == s0.groups;
    } else {
      var n := |ts| - 1;
      var s, before := StateAfter(s0, ts[..n]), Dropped(s0, ts[..n], g, id);
      ReachedShape(s0, ts[..n], g);
      assert GroupInv(s, s.groups[g]);
      UnsureBefore(s, ts[n], g, id);
      DroppedIsARun(s0, ts[..n], g, id);
      StepWithout(s, ts[n], g, id);
      if !Lands(s.logs, ts[n], g, id) {
        RunAppend(s0, before, ts[n]);
      }
    }
  }

  // ------------------------------------------------------- the exact conditions

  lemma AcknowledgedIsShown(s: State, k: Group, id: string)
    requires HistoryInv(s.logs, k) && ContentsInv(s.source, s.logs, k.view, k.stored) && Sure(s.logs, k, id)
    ensures id in k.view
  {
    var pl :| pl in k.acked && CreatesId(s.logs, pl, id);
    assert pl in k.stored;
  }

  lemma DroppedLooksLike(s0: State, ts: seq<Step>, g: nat, id: string) returns (us: seq<Step>)
    requires Init(s0) && g < |s0.groups| && IsRun(s0, ts)
    requires !Sure(StateAfter(s0, ts).logs, Reached(s0, ts, g), id)
    ensures LooksLike(s0, us, ts, g) && id !in Reached(s0, us, g).view
  {
    us := Dropped(s0, ts, g, id);
    DroppedIsARun(s0, ts, g, id);
  }

  /** A row may be missing from the view, for all the program knows, exactly when
      none of its creates returned nil, or the store acknowledges writes it does
      not keep. */
  lemma MissingExactly(s0: State, ts: seq<Step>, g: nat, id: string)
    requires Init(s0) && g < |s0.groups| && IsRun(s0, ts)
    ensures MayMiss(s0, ts, g, id) <==> !Sure(StateAfter(s0, ts).logs, Reached(s0, ts, g), id)
  {
    var s, r := StateAfter(s0, ts), Reached(s0, ts, g);
    if !Sure(s.logs, r, id) {
      var us := DroppedLooksLike(s0, ts, g, id);
    } else {
      forall us | LooksLike(s0, us, ts, g)
        ensures id in Reached(s0, us, g).view
      {
        ReachedInv(s0, us, g);
        AcknowledgedIsShown(StateAfter(s0, us), Reached(s0, us, g), id);
      }
    }
  }

  lemma RequestedCanLand(s0: State, ts: seq<Step>, g: nat, id: string) returns (us: seq<Step>)
    requires Init(s0) && g < |s0.groups| && IsRun(s0, ts)
    requires Requested(StateAfter(s0, ts).logs, Reached(s0, ts, g), id)
    ensures LooksLike(s0, us, ts, g) && id in Reached(s0, us, g).view
  {
    var s := StateAfter(s0, ts);
    var pl :| pl in s.groups[g].sent && CreatesId(s.logs, pl, id);
    RunAppend(s0, ts, Act(g, Land(pl)));
    us := ts + [Act(g, Land(pl))];
  }

  /** It may be there exactly when one of its writes was asked of the store. */
  lemma ShownExactly(s0: State, ts: seq<Step>, g: nat, id: string)
    requires Init(s0) && g < |s0.groups| && IsRun(s0, ts)
    ensures MayShow(s0, ts, g, id) <==> Requested(StateAfter(s0, ts).logs, Reached(s0, ts, g), id)
  {
    if Requested(StateAfter(s0, ts).logs, Reached(s0, ts, g), id) {
      var us := RequestedCanLand(s0, ts, g, id);
    } else {
      forall us | LooksLike(s0, us, ts, g)
        ensures id !in Reached(s0, us, g).view
      {
        if id in Reached(s0, us, g).view {
          ShownWasRequested(s0, us, g, id);
        }
      }
    }
  }

  lemma ShownWasRequested(s0: State, us: seq<Step>, g: nat, id: string)
    requires Init(s0) && g < |s0.groups| && id in Reached(s0, us, g).view
    ensures Requested(StateAfter(s0, us).logs, Reached(s0, us, g), id)
  {
    var s, r := StateAfter(s0, us), Reached(s0, us, g);
    ReachedInv(s0, us, g);
    assert Written(s.logs, r.stored, r.view[id]);
    var pl :| pl in r.stored && Creates(s.logs, pl, r.view[id]);
    assert r.view[id].id == id;
    assert pl in r.sent && CreatesId(s.logs, pl, id);
  }

  /** The view is sure to be the table exactly when every row has a create that
      returned nil, from a store that keeps what it acknowledges. Committing
      everything is neither enough for that nor needed. */
  lemma ConvergenceExactly(s0: State, ts: seq<Step>, g: nat)
    requires Init(s0) && g < |s0.groups| && IsRun(s0, ts)
    ensures var s, r := StateAfter(s0, ts), Reached(s0, ts, g);
            (forall us | LooksLike(s0, us, ts, g) :: Reached(s0, us, g).view == Image(s.source))
            <==> SureOfAll(s, r)
  {
    var s, r := StateAfter(s0, ts), Reached(s0, ts, g);
    if id :| id in s.source && !Sure(s.logs, r, id) {
      var us := DroppedLooksLike(s0, ts, g, id);
      assert Reached(s0, us, g).view != Image(s.source);
    } else {
      forall us | LooksLike(s0, us, ts, g)
        ensures Reached(s0, us, g).view == Image(s.source)
      {
        SureOfAllIsTable(s0, us, g);
      }
    }
  }

  lemma SureOfAllIsTable(s0: State, us: seq<Step>, g: nat)
    requires Init(s0) && g < |s0.groups|
    requires SureOfAll(StateAfter(s0, us), Reached(s0, us, g))
    ensures Reached(s0, us, g).view == Image(StateAfter(s0, us).source)
  {
    var s, r := StateAfter(s0, us), Reached(s0, us, g);
    ReachedInv(s0, us, g);
    ProjectionSafety(s0, us, g);
    forall id | id in s.source
      ensures id in r.view
    {
      AcknowledgedIsShown(s, r, id);
    }
    ImageExactly(r.view, s.source);
  }

  lemma CommittedOrFailed(s: State, k: Group, pl: Place)
    requires OffsetsInv(s.logs, s.compacted, k) && CaughtUp(s, k) && IsCreate(s.logs, pl)
    ensures pl in s.compacted || pl in k.acked || pl in k.failed
  {
    assert AccountedBelow(s.logs, s.compacted, k, pl.p, k.committed[pl.p]);
    assert Accounted(s.logs, s.compacted, k, Place(pl.p, pl.o));
  }

  ghost predicate Logged(logs: Logs, k: Group, id: string) {
    exists pl :: pl in k.failed && CreatesId(logs, pl, id)
  }

  lemma CapturedIsKept(s: State, id: string) returns (pl: Place)
    requires SourceInv(s) && id in s.source && Captured(s)
    ensures CreatesId(s.logs, pl, id) && pl !in s.compacted
  {
    pl :| CapturedAt(s, id, pl);
  }

  /** Once a group has committed everything, a captured row without a successful
      create has left a trace: one of its creates failed and was logged. */
  lemma UnsureWasLogged(s0: State, ts: seq<Step>, g: nat, id: string)
    requires Init(s0) && g < |s0.groups| && id in StateAfter(s0, ts).source
    requires CaughtUp(StateAfter(s0, ts), Reached(s0, ts, g)) && Captured(StateAfter(s0, ts))
    requires !Acknowledged(StateAfter(s0, ts).logs, Reached(s0, ts, g), id)
    ensures Logged(StateAfter(s0, ts).logs, Reached(s0, ts, g), id)
  {
    ReachedInv(s0, ts, g);
    var pl := CapturedIsKept(StateAfter(s0, ts), id);
    CommittedOrFailed(StateAfter(s0, ts), Reached(s0, ts, g), pl);
  }
}
