/** internal/storage/memory/user.go: a map behind a mutex that only Create takes.
    First each method on its own, then any number of overlapping calls. */
module Memory {
  import opened Users
  import opened Upserts

  /** Every user of the table once, and nothing else. */
  ghost predicate Lists(out: seq<User>, users: Table) {
    && |out| == |users|
    && (forall u :: u in out <==> u.id in users && users[u.id] == u)
    && (forall i, j | 0 <= i < j < |out| :: out[i].id != out[j].id)
  }

  ghost predicate Keyed(users: Table) {
    forall id | id in users :: users[id].id == id
  }

  class UserStorage {
    var users: Table

    constructor ()
      ensures Keyed(users) && users == map[]
    {
      users := map[];
    }

    method Create(us: seq<User>)
      requires Keyed(users)
      modifies this
      ensures Keyed(users) && users == UpsertAll(old(users), us)
    {
      for i := 0 to |us|
        invariant Keyed(users) && users == UpsertAll(old(users), us[..i])
      {
        assert us[..i + 1][..i] == us[..i];
        users := users[us[i].id := us[i]];
      }
      assert us[..|us|] == us;
    }

    /** In whatever order the map is ranged over, each user comes out once. */
    method Read() returns (out: seq<User>)
      requires Keyed(users)
      ensures Lists(out, users)
    {
      out := [];
      var rest := users.Keys;
      while rest != {}
        invariant rest <= users.Keys && |out| + |rest| == |users.Keys|
        invariant forall u :: u in out <==> u.id in users && users[u.id] == u && u.id !in rest
        invariant forall i, j | 0 <= i < j < |out| :: out[i].id != out[j].id
        decreases rest
      {
        var id :| id in rest;
        assert forall u | u in out :: u.id != id;
        out := out + [users[id]];
        rest := rest - {id};
      }
    }
  }

  // ------------------------------------------------------ overlapping calls

  datatype Call = Create(users: seq<User>) | Read

  /** Where a call is. before is history: the map when the call got the lock, or
      when its iteration began. */
  datatype Thread =
    | Waiting
    | Holding(before: Table, written: nat)
    | Writing(before: Table, written: nat)
    | Ranging(before: Table, seen: set<string>, out: seq<User>)
    | Unlocked
    | Listed(before: Table, out: seq<User>)

  datatype State = State(users: Table, locked: bool, threads: seq<Thread>)

  /** A map assignment takes time, from BeginPut to EndPut, and so does a range over
      the map, from BeginRange to EndRange. */
  datatype Step =
    | Lock(t: nat)
    | BeginPut(t: nat)
    | EndPut(t: nat)
    | Unlock(t: nat)
    | BeginRange(t: nat)
    | Yield(t: nat, id: string)
    | EndRange(t: nat)

  predicate Enabled(calls: seq<Call>, s: State, e: Step)
    requires |s.threads| == |calls|
  {
    e.t < |calls| &&
    var call, thread := calls[e.t], s.threads[e.t];
    match e
    case Lock(_) => call.Create? && thread.Waiting? && !s.locked
    case BeginPut(_) => call.Create? && thread.Holding? && thread.written < |call.users|
    case EndPut(_) => call.Create? && thread.Writing? && thread.written < |call.users|
    case Unlock(_) => call.Create? && thread.Holding? && thread.written == |call.users|
    // Read does not ask for the lock
    case BeginRange(_) => call.Read? && thread.Waiting?
    case Yield(_, id) => thread.Ranging? && id in s.users && id !in thread.seen
    case EndRange(_) => thread.Ranging? && s.users.Keys <= thread.seen
  }

  function Do(calls: seq<Call>, s: State, e: Step): State
    requires |s.threads| == |calls| && Enabled(calls, s, e)
  {
    var thread := s.threads[e.t];
    match e
    case Lock(t) => s.(locked := true, threads := s.threads[t := Holding(s.users, 0)])
    case BeginPut(t) => s.(threads := s.threads[t := Writing(thread.before, thread.written)])
    case EndPut(t) =>
      var u := calls[t].users[thread.written];
      s.(users := s.users[u.id := u], threads := s.threads[t := Holding(thread.before, thread.written + 1)])
    case Unlock(t) => s.(locked := false, threads := s.threads[t := Unlocked])
    case BeginRange(t) => s.(threads := s.threads[t := Ranging(s.users, {}, [])])
    case Yield(t, id) =>
      s.(threads := s.threads[t := Ranging(thread.before, thread.seen + {id}, thread.out + [s.users[id]])])
    case EndRange(t) => s.(threads := s.threads[t := Listed(thread.before, thread.out)])
  }

  ghost predicate StepsTo(calls: seq<Call>, s: State, s': State) {
    |s.threads| == |calls| && exists e :: Enabled(calls, s, e) && Do(calls, s, e) == s'
  }

  ghost predicate IsRun(calls: seq<Call>, ss: seq<State>, users: Table) {
    && ss != [] && ss[0] == State(users, false, seq(|calls|, _ => Waiting))
    && forall i | 0 < i < |ss| :: StepsTo(calls, ss[i - 1], ss[i])
  }

  predicate HasLock(t: Thread) {
    t.Holding? || t.Writing?
  }

  /** Somebody writes to the map while somebody else ranges over it. Go calls that a
      data race and may end the process. */
  ghost predicate Races(s: State) {
    exists r, c :: 0 <= r < |s.threads| && 0 <= c < |s.threads| && s.threads[r].Ranging? && s.threads[c].Writing?
  }

  // --------------------------------------------------- creates exclude creates

  ghost predicate LockInv(calls: seq<Call>, s: State) {
    && |s.threads| == |calls| && Keyed(s.users)
    && (forall t | 0 <= t < |calls| && HasLock(s.threads[t]) :: s.locked && Wrote(calls[t], s.threads[t], s.users))
    && (forall t, u | 0 <= t < u < |calls| :: !(HasLock(s.threads[t]) && HasLock(s.threads[u])))
    && (s.locked ==> SomeoneHasLock(s.threads))
    && (forall t | 0 <= t < |calls| && s.threads[t].Ranging? :: calls[t].Read?)
  }

  ghost predicate SomeoneHasLock(threads: seq<Thread>) {
    exists t :: 0 <= t < |threads| && HasLock(threads[t])
  }

  /** The call with the lock has put the first written users in the map it found. */
  ghost predicate Wrote(call: Call, t: Thread, users: Table)
    requires HasLock(t)
  {
    && call.Create? && t.written <= |call.users| && (t.Writing? ==> t.written < |call.users|)
    && users == UpsertAll(t.before, call.users[..t.written])
  }

  lemma PutOne(before: Table, us: seq<User>, n: nat)
    requires n < |us|
    ensures UpsertAll(before, us[..n + 1]) == UpsertAll(before, us[..n])[us[n].id := us[n]]
  {
    assert us[..n + 1][..n] == us[..n];
  }

  lemma LockStaysHeld(calls: seq<Call>, s: State, e: Step)
    requires LockInv(calls, s) && Enabled(calls, s, e)
    ensures Do(calls, s, e).locked ==> SomeoneHasLock(Do(calls, s, e).threads)
  {
    var threads' := Do(calls, s, e).threads;
    if e.Lock? || e.BeginPut? || e.EndPut? {
      assert HasLock(threads'[e.t]);
    } else if !e.Unlock? && s.locked {
      var t :| 0 <= t < |s.threads| && HasLock(s.threads[t]);
      assert HasLock(threads'[t]);
    }
  }

  lemma StepKeepsLock(calls: seq<Call>, s: State, e: Step)
    requires LockInv(calls, s) && Enabled(calls, s, e)
    ensures LockInv(calls, Do(calls, s, e))
  {
    hide SomeoneHasLock;
    LockStaysHeld(calls, s, e);
    if e.EndPut? {
      PutOne(s.threads[e.t].before, calls[e.t].users, s.threads[e.t].written);
    }
  }

  lemma {:induction false} RunKeepsLock(calls: seq<Call>, ss: seq<State>, users: Table)
    requires IsRun(calls, ss, users) && Keyed(users)
    ensures forall i | 0 <= i < |ss| :: LockInv(calls, ss[i])
  {
    for n := 1 to |ss|
      invariant forall i | 0 <= i < n :: LockInv(calls, ss[i])
    {
      assert StepsTo(calls, ss[n - 1], ss[n]);
      var e :| Enabled(calls, ss[n - 1], e) && Do(calls, ss[n - 1], e) == ss[n];
      StepKeepsLock(calls, ss[n - 1], e);
    }
  }

  /** In every schedule at most one call writes at a time, and when a Create unlocks,
      it has made of the map it found what it would have made on its own. */
  lemma CreatesExclude(calls: seq<Call>, ss: seq<State>, users: Table, n: nat)
    requires IsRun(calls, ss, users) && Keyed(users) && n < |ss|
    ensures |ss[n].threads| == |calls|
    ensures forall t, u | 0 <= t < u < |calls| :: !(ss[n].threads[t].Writing? && ss[n].threads[u].Writing?)
    ensures forall t | 0 <= t < |calls| && Enabled(calls, ss[n], Unlock(t)) ::
              ss[n].users == UpsertAll(ss[n].threads[t].before, calls[t].users)
  {
    RunKeepsLock(calls, ss, users);
    forall t | 0 <= t < |calls| && Enabled(calls, ss[n], Unlock(t))
      ensures ss[n].users == UpsertAll(ss[n].threads[t].before, calls[t].users)
    {
      assert Wrote(calls[t], ss[n].threads[t], ss[n].users);
      assert calls[t].users[..|calls[t].users|] == calls[t].users;
    }
  }

  predicate IsDone(t: Thread) {
    t.Unlocked? || t.Listed?
  }

  /** No schedule gets stuck: until every call has returned, some call can go on. */
  lemma CallsGoOn(calls: seq<Call>, s: State, t: nat) returns (e: Step)
    requires LockInv(calls, s) && t < |calls| && !IsDone(s.threads[t])
    ensures Enabled(calls, s, e)
  {
    var thread := s.threads[t];
    match thread {
      case Waiting =>
        if calls[t].Read? {
          e := BeginRange(t);
        } else if !s.locked {
          e := Lock(t);
        } else {
          var u :| 0 <= u < |calls| && HasLock(s.threads[u]);
          e := HolderStep(calls, s, u);
        }
      case Holding(_, _) => e := HolderStep(calls, s, t);
      case Writing(_, _) => e := HolderStep(calls, s, t);
      case Ranging(_, seen, _) =>
        if s.users.Keys <= seen {
          e := EndRange(t);
        } else {
          var id :| id in s.users && id !in seen;
          e := Yield(t, id);
        }
    }
  }

  lemma HolderStep(calls: seq<Call>, s: State, u: nat) returns (e: Step)
    requires LockInv(calls, s) && u < |calls| && HasLock(s.threads[u])
    ensures Enabled(calls, s, e)
  {
    assert Wrote(calls[u], s.threads[u], s.users);
    e := if s.threads[u].Writing? then EndPut(u)
         else if s.threads[u].written < |calls[u].users| then BeginPut(u) else Unlock(u);
  }

  // ------------------------------------------------- but they race with reads

  /** A read and a create that writes anything. */
  ghost predicate CanOverlap(calls: seq<Call>) {
    exists r, c :: 0 <= r < |calls| && 0 <= c < |calls| && calls[r].Read? && calls[c].Create? && calls[c].users != []
  }

  /** Some schedule of the calls has a data race. */
  ghost predicate CanRace(calls: seq<Call>, users: Table) {
    exists ss :: IsRun(calls, ss, users) && Races(ss[|ss| - 1])
  }

  lemma OverlapRaces(calls: seq<Call>, users: Table, r: nat, c: nat)
    requires r < |calls| && c < |calls| && calls[r].Read? && calls[c].Create? && calls[c].users != []
    ensures CanRace(calls, users)
  {
    var s0 := State(users, false, seq(|calls|, _ => Waiting));
    var s1 := Do(calls, s0, BeginRange(r));
    var s2 := Do(calls, s1, Lock(c));
    var s3 := Do(calls, s2, BeginPut(c));
    var ss := [s0, s1, s2, s3];
    assert StepsTo(calls, s0, s1) && StepsTo(calls, s1, s2) && StepsTo(calls, s2, s3);
    assert s3.threads[r].Ranging? && s3.threads[c].Writing?;
    assert IsRun(calls, ss, users) && Races(ss[|ss| - 1]);
  }

  /** Calls can race exactly if there is a read among them and a create that is not
      empty: Read would need the lock. */
  lemma RaceExactly(calls: seq<Call>, users: Table)
    requires Keyed(users)
    ensures CanRace(calls, users) <==> CanOverlap(calls)
  {
    if CanOverlap(calls) {
      var r, c :| 0 <= r < |calls| && 0 <= c < |calls| && calls[r].Read? && calls[c].Create? && calls[c].users != [];
      OverlapRaces(calls, users, r, c);
    }
    if CanRace(calls, users) {
      var ss: seq<State> :| IsRun(calls, ss, users) && Races(ss[|ss| - 1]);
      RunKeepsLock(calls, ss, users);
      var s := ss[|ss| - 1];
      var r, c :| 0 <= r < |s.threads| && 0 <= c < |s.threads| && s.threads[r].Ranging? && s.threads[c].Writing?;
      assert calls[r].Read? && Wrote(calls[c], s.threads[c], s.users);
    }
  }

  // ------------------------------------------- without a race, a read is a snapshot

  /** While t ranges over the map, it is as it was, and out lists the users seen. */
  ghost predicate Partial(t: Thread, users: Table)
    requires t.Ranging?
  {
    && t.before == users && t.seen <= users.Keys && |t.out| == |t.seen|
    && (forall u :: u in t.out <==> u.id in t.seen && users[u.id] == u)
    && (forall i, j | 0 <= i < j < |t.out| :: t.out[i].id != t.out[j].id)
  }

  ghost predicate RangeOk(t: Thread, users: Table) {
    && (t.Ranging? ==> Partial(t, users))
    && (t.Listed? ==> Lists(t.out, t.before))
  }

  ghost predicate RangeInv(s: State) {
    forall t | 0 <= t < |s.threads| :: RangeOk(s.threads[t], s.users)
  }

  lemma NothingSeen(users: Table)
    ensures Partial(Ranging(users, {}, []), users)
  {
  }

  lemma YieldIsPartial(t: Thread, users: Table, id: string)
    requires Keyed(users) && t.Ranging? && Partial(t, users) && id in users && id !in t.seen
    ensures Partial(Ranging(t.before, t.seen + {id}, t.out + [users[id]]), users)
  {
    forall i | 0 <= i < |t.out|
      ensures t.out[i].id != id
    {
      assert t.out[i] in t.out;
    }
  }

  lemma WholeIsListed(t: Thread, users: Table)
    requires Keyed(users) && t.Ranging? && Partial(t, users) && users.Keys <= t.seen
    ensures Lists(t.out, users) && t.before == users
  {
    assert t.seen == users.Keys;
  }

  lemma MoverKeepsRange(calls: seq<Call>, s: State, e: Step)
    requires LockInv(calls, s) && RangeInv(s) && Enabled(calls, s, e)
    ensures RangeOk(Do(calls, s, e).threads[e.t], Do(calls, s, e).users)
  {
    hide Partial, Lists, Wrote, SomeoneHasLock;
    assert RangeOk(s.threads[e.t], s.users);
    match e
    case BeginRange(t) => NothingSeen(s.users);
    case Yield(t, id) => YieldIsPartial(s.threads[t], s.users, id);
    case EndRange(t) => WholeIsListed(s.threads[t], s.users);
    case _ =>
  }

  lemma NoReaderIsOk(t: Thread, users: Table, users': Table)
    requires RangeOk(t, users) && !t.Ranging?
    ensures RangeOk(t, users')
  {
  }

  lemma StepKeepsRange(calls: seq<Call>, s: State, e: Step)
    requires LockInv(calls, s) && RangeInv(s) && !Races(s) && Enabled(calls, s, e)
    ensures RangeInv(Do(calls, s, e))
  {
    hide RangeOk, Keyed, Wrote;
    MoverKeepsRange(calls, s, e);
    var s' := Do(calls, s, e);
    forall t | 0 <= t < |s'.threads|
      ensures RangeOk(s'.threads[t], s'.users)
    {
      if t != e.t && e.EndPut? {
        NoReaderIsOk(s.threads[t], s.users, s'.users);
      }
    }
  }

  lemma {:induction false} RunKeepsRange(calls: seq<Call>, ss: seq<State>, users: Table)
    requires IsRun(calls, ss, users) && Keyed(users) && forall i | 0 <= i < |ss| :: !Races(ss[i])
    ensures forall i | 0 <= i < |ss| :: RangeInv(ss[i])
  {
    RunKeepsLock(calls, ss, users);
    for n := 1 to |ss|
      invariant forall i | 0 <= i < n :: RangeInv(ss[i])
    {
      assert StepsTo(calls, ss[n - 1], ss[n]);
      var e :| Enabled(calls, ss[n - 1], e) && Do(calls, ss[n - 1], e) == ss[n];
      StepKeepsRange(calls, ss[n - 1], e);
    }
  }

  /** In a schedule without a race every read lists the map as it was when its
      iteration began, which is also how it was when it ended. */
  lemma RaceFreeReadIsSnapshot(calls: seq<Call>, ss: seq<State>, users: Table, n: nat, t: nat)
    requires IsRun(calls, ss, users) && Keyed(users) && forall i | 0 <= i < |ss| :: !Races(ss[i])
    requires n < |ss| && t < |calls|
    ensures |ss[n].threads| == |calls|
    ensures ss[n].threads[t].Listed? ==> Lists(ss[n].threads[t].out, ss[n].threads[t].before)
    ensures ss[n].threads[t].Ranging? ==> ss[n].threads[t].before == ss[n].users
  {
    RunKeepsLock(calls, ss, users);
    RunKeepsRange(calls, ss, users);
    assert RangeOk(ss[n].threads[t], ss[n].users) by {
      assert LockInv(calls, ss[n]) && RangeInv(ss[n]);
    }
    assert LockInv(calls, ss[n]) && RangeInv(ss[n]);
  }
}
