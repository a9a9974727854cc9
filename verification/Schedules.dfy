/** Which deliveries of change events give the same view. */
module Schedules {
  import opened Users
  import opened Upserts
  import opened Projection

  // -------------------------------------------------- order and duplicates

  ghost predicate Consistent(us: set<User>) {
    forall u, v | u in us && v in us :: u.id == v.id ==> u == v
  }

  function Elements(us: seq<User>): set<User> {
    set u | u in us
  }

  /** The view a consumer builds from nothing. */
  function Fold(us: seq<User>): Table {
    UpsertAll(map[], us)
  }

  lemma FoldOfConsistent(us: seq<User>)
    requires Consistent(Elements(us))
    ensures forall u | u in us :: u.id in Fold(us) && Fold(us)[u.id] == u
    ensures forall id | id in Fold(us) :: Fold(us)[id] in us && Fold(us)[id].id == id
  {
    forall u | u in us
      ensures u.id in Fold(us) && Fold(us)[u.id] == u
    {
      var i := FindLast(us, u.id);
      LastWins(map[], us, i);
      assert us[i] in Elements(us) && u in Elements(us);
    }
    forall id | id in Fold(us)
      ensures Fold(us)[id] in us && Fold(us)[id].id == id
    {
      UpsertKeys(map[], us, id);
      var i := FindLast(us, id);
      LastWins(map[], us, i);
    }
  }

  /** Duplicates, replays of old offsets and any reordering give the same view. */
  lemma ScheduleIndependence(a: seq<User>, b: seq<User>)
    requires Elements(a) == Elements(b) && Consistent(Elements(a))
    ensures Fold(a) == Fold(b)
  {
    FoldOfConsistent(a);
    FoldOfConsistent(b);
    forall id
      ensures id in Fold(a) <==> id in Fold(b)
      ensures id in Fold(a) ==> Fold(b)[id] == Fold(a)[id]
    {
      if id in Fold(a) {
        assert Fold(a)[id] in Elements(b);
      }
      if id in Fold(b) {
        assert Fold(b)[id] in Elements(a);
      }
    }
  }

  lemma {:induction false} Enumerate(us: set<User>) returns (s: seq<User>)
    ensures Elements(s) == us
  {
    if us == {} {
      s := [];
    } else {
      var u :| u in us;
      var rest := Enumerate(us - {u});
      s := rest + [u];
      assert forall v :: v in s <==> v in Elements(rest) || v == u;
    }
  }

  /** Delivering the same event again, at once or later, changes nothing. */
  lemma RedeliveryIsHarmless(us: seq<User>, u: User)
    requires u in us && Consistent(Elements(us))
    ensures Fold(us + [u]) == Fold(us)
  {
    assert Elements(us + [u]) == Elements(us);
    ScheduleIndependence(us + [u], us);
  }

  /** Two events that disagree about an id: whichever comes last decides. */
  lemma LastEventDecides(us: set<User>, u: User) returns (s: seq<User>)
    requires u in us
    ensures Elements(s) == us && u.id in Fold(s) && Fold(s)[u.id] == u
  {
    var rest := Enumerate(us);
    s := rest + [u];
    assert forall v :: v in s <==> v in Elements(rest) || v == u;
    LastWins(map[], s, |rest|);
  }

  /** The order does not matter exactly when no two events give one id different
      values: with updates in the topic, it would. */
  lemma ScheduleIndependenceExactly(us: set<User>)
    ensures (forall a, b | Elements(a) == us && Elements(b) == us :: Fold(a) == Fold(b)) <==> Consistent(us)
  {
    if Consistent(us) {
      forall a, b | Elements(a) == us && Elements(b) == us
        ensures Fold(a) == Fold(b)
      {
        ScheduleIndependence(a, b);
      }
    } else {
      var u, v :| u in us && v in us && u.id == v.id && u != v;
      var a := LastEventDecides(us, u);
      var b := LastEventDecides(us, v);
      assert Fold(a) != Fold(b);
    }
  }

  // --------------------------------------------- the same, for the step system

  ghost function StoredUsers(logs: Logs, stored: set<Place>): set<User>
    requires forall pl | pl in stored :: IsCreate(logs, pl)
  {
    set pl | pl in stored :: UserAt(logs, pl)
  }

  lemma StoredIsConsistent(s: State, g: Group)
    requires SourceInv(s) && GroupInv(s, g)
    requires forall pl | pl in g.stored :: IsCreate(s.logs, pl)
    ensures Consistent(StoredUsers(s.logs, g.stored))
    ensures forall u | u in StoredUsers(s.logs, g.stored) :: u.id in g.view && g.view[u.id] == u
    ensures forall id | id in g.view :: g.view[id] in StoredUsers(s.logs, g.stored) && g.view[id].id == id
  {
    forall u | u in StoredUsers(s.logs, g.stored)
      ensures u.id in g.view && g.view[u.id] == u
    {
      var pl :| pl in g.stored && UserAt(s.logs, pl) == u;
      CreateComesFromSource(s, pl, u);
    }
    forall id | id in g.view
      ensures g.view[id] in StoredUsers(s.logs, g.stored)
    {
      assert Written(s.logs, g.stored, g.view[id]);
      var pl :| pl in g.stored && Creates(s.logs, pl, g.view[id]);
      assert UserAt(s.logs, pl) == g.view[id];
    }
  }

  /** In every reachable state a group's view is the fold of any delivery of the
      creates that reached its store, whatever the consumers did to get there. */
  lemma ViewIsAnyFold(s: State, g: Group, us: seq<User>)
    requires SourceInv(s) && GroupInv(s, g)
    requires forall pl | pl in g.stored :: IsCreate(s.logs, pl)
    requires Elements(us) == StoredUsers(s.logs, g.stored)
    ensures g.view == Fold(us)
  {
    StoredIsConsistent(s, g);
    FoldOfConsistent(us);
    forall id
      ensures id in g.view <==> id in Fold(us)
      ensures id in g.view ==> Fold(us)[id] == g.view[id]
    {
      if id in g.view {
        assert g.view[id] in Elements(us);
      }
      if id in Fold(us) {
        assert Fold(us)[id] in Elements(us);
      }
    }
  }

  // -------------------------------------------------------------- compaction

  function CreatedAt(log: seq<Record>, i: nat): Option<User>
    requires i < |log|
  {
    match DutyOf(log[i].payload)
    case Upsert(u) => Some(u)
    case _ => None
  }

  predicate CreatesId(log: seq<Record>, i: nat, id: string)
    requires i < |log|
  {
    CreatedAt(log, i).Some? && CreatedAt(log, i).value.id == id
  }

  /** Create events carry their row's id as the message key. */
  ghost predicate Keyed(log: seq<Record>) {
    forall i | 0 <= i < |log| && CreatedAt(log, i).Some? :: CreatedAt(log, i).value.id == log[i].key
  }

  ghost predicate LastOffset(log: seq<Record>, i: nat)
    requires i < |log|
  {
    forall j | i < j < |log| :: log[j].key != log[i].key
  }

  /** The view a new group builds from the offsets of a log that were kept. */
  function Replay(log: seq<Record>, kept: set<nat>): Table {
    if log == [] then map[]
    else
      var n := |log| - 1;
      var view := Replay(log[..n], kept);
      if n in kept && CreatedAt(log, n).Some? then
        var u := CreatedAt(log, n).value;
        view[u.id := u]
      else view
  }

  function AllOffsets(log: seq<Record>): (s: set<nat>)
    ensures forall i: nat :: i in s <==> i < |log|
  {
    if log == [] then {} else AllOffsets(log[..|log| - 1]) + {|log| - 1}
  }

  /** What compaction in the limit keeps: the last record of every key. */
  ghost function LastOffsets(log: seq<Record>): set<nat> {
    set i: nat | i < |log| && LastOffset(log, i)
  }

  /** Whenever a key was created, its last record is a create. */
  ghost predicate EndsInCreate(log: seq<Record>) {
    forall i | 0 <= i < |log| && CreatedAt(log, i).Some? ::
      forall j | i <= j < |log| && log[j].key == log[i].key && LastOffset(log, j) :: CreatedAt(log, j).Some?
  }

  lemma {:induction false} ReplayValue(log: seq<Record>, kept: set<nat>, i: nat, id: string)
    requires i < |log| && i in kept && CreatesId(log, i, id)
    requires forall j | i < j < |log| :: !CreatesId(log, j, id)
    ensures id in Replay(log, kept) && Replay(log, kept)[id] == CreatedAt(log, i).value
  {
    var n := |log| - 1;
    if i < n {
      forall j | i < j < n
        ensures !CreatesId(log[..n], j, id)
      {
        assert !CreatesId(log, j, id);
      }
      ReplayValue(log[..n], kept, i, id);
      assert !CreatesId(log, n, id);
    }
  }

  lemma {:induction false} ReplayAbsent(log: seq<Record>, kept: set<nat>, id: string)
    requires forall i | 0 <= i < |log| && i in kept :: !CreatesId(log, i, id)
    ensures id !in Replay(log, kept)
  {
    if log != [] {
      var n := |log| - 1;
      forall i | 0 <= i < n && i in kept
        ensures !CreatesId(log[..n], i, id)
      {
        assert !CreatesId(log, i, id);
      }
      ReplayAbsent(log[..n], kept, id);
      assert n in kept ==> !CreatesId(log, n, id);
    }
  }

  lemma {:induction false} FindLastOffset(log: seq<Record>, i: nat) returns (j: nat)
    requires i < |log|
    ensures i <= j < |log| && log[j].key == log[i].key && LastOffset(log, j)
    decreases |log| - i
  {
    if LastOffset(log, i) {
      j := i;
    } else {
      var k :| i < k < |log| && log[k].key == log[i].key;
      j := FindLastOffset(log, k);
    }
  }

  /** A log created at i under id, with everything that ends in creates, replays
      to the same user from any offsets that include the last of every key. */
  lemma ReplayEndsInCreate(log: seq<Record>, kept: set<nat>, i: nat, id: string)
    requires Keyed(log) && EndsInCreate(log) && LastOffsets(log) <= kept
    requires i < |log| && CreatesId(log, i, id)
    ensures id in Replay(log, kept) && id in Replay(log, AllOffsets(log))
    ensures Replay(log, kept)[id] == Replay(log, AllOffsets(log))[id]
  {
    var j := FindLastOffset(log, i);
    assert CreatedAt(log, j).Some? && j in LastOffsets(log);
    ReplayValue(log, kept, j, id);
    ReplayValue(log, AllOffsets(log), j, id);
  }

  /** Compaction, however far it has gone, leaves the replayed view unchanged. */
  lemma CompactionKeepsView(log: seq<Record>, kept: set<nat>)
    requires Keyed(log) && EndsInCreate(log) && LastOffsets(log) <= kept
    ensures Replay(log, kept) == Replay(log, AllOffsets(log))
  {
    forall id
      ensures id in Replay(log, kept) <==> id in Replay(log, AllOffsets(log))
      ensures id in Replay(log, kept) ==> Replay(log, kept)[id] == Replay(log, AllOffsets(log))[id]
    {
      if i: nat :| i < |log| && CreatesId(log, i, id) {
        ReplayEndsInCreate(log, kept, i, id);
      } else {
        ReplayAbsent(log, kept, id);
        ReplayAbsent(log, AllOffsets(log), id);
      }
    }
  }

  lemma {:induction false} FindLastCreate(log: seq<Record>, i: nat, id: string) returns (k: nat)
    requires i < |log| && CreatesId(log, i, id)
    ensures i <= k < |log| && CreatesId(log, k, id)
    ensures forall l | k < l < |log| :: !CreatesId(log, l, id)
    decreases |log| - i
  {
    if l: nat :| i < l < |log| && CreatesId(log, l, id) {
      k := FindLastCreate(log, l, id);
    } else {
      k := i;
    }
  }

  /** Full compaction keeps the view exactly when every created key ends in a
      create: a tombstone or a failed update after it would hide the user. */
  lemma FullCompactionExactly(log: seq<Record>)
    requires Keyed(log)
    ensures Replay(log, LastOffsets(log)) == Replay(log, AllOffsets(log)) <==> EndsInCreate(log)
  {
    if EndsInCreate(log) {
      CompactionKeepsView(log, LastOffsets(log));
    } else {
      var i: nat, j: nat :| i <= j < |log| && CreatedAt(log, i).Some? && log[j].key == log[i].key
                       && LastOffset(log, j) && CreatedAt(log, j).None?;
      var id := log[i].key;
      forall k | 0 <= k < |log| && k in LastOffsets(log)
        ensures !CreatesId(log, k, id)
      {
        assert LastOffset(log, k);
      }
      ReplayAbsent(log, LastOffsets(log), id);
      var k := FindLastCreate(log, i, id);
      ReplayValue(log, AllOffsets(log), k, id);
    }
  }
}
