/** The one abstract store every store of the repository is compared with: a map
    from ids to users, written a batch at a time, the last write of an id winning. */
module Upserts {
  import opened Users

  type Table = map<string, User>

  function UpsertAll(m: Table, us: seq<User>): Table {
    if us == [] then m
    else
      var last := us[|us| - 1];
      UpsertAll(m, us[..|us| - 1])[last.id := last]
  }

  function UpsertBatches(m: Table, batches: seq<seq<User>>): Table {
    if batches == [] then m
    else UpsertAll(UpsertBatches(m, batches[..|batches| - 1]), batches[|batches| - 1])
  }

  /** No user after position i has the id of the user at i. */
  ghost predicate LastAt(us: seq<User>, i: nat)
    requires i < |us|
  {
    forall j | i < j < |us| :: us[j].id != us[i].id
  }

  /** The value of an id is the last user written under it. */
  lemma {:induction false} LastWins(m: Table, us: seq<User>, i: nat)
    requires i < |us| && LastAt(us, i)
    ensures us[i].id in UpsertAll(m, us) && UpsertAll(m, us)[us[i].id] == us[i]
  {
    if i < |us| - 1 {
      LastWins(m, us[..|us| - 1], i);
    }
  }

  /** An id nobody wrote keeps whatever it had. */
  lemma {:induction false} Untouched(m: Table, us: seq<User>, id: string)
    requires forall i | 0 <= i < |us| :: us[i].id != id
    ensures id in UpsertAll(m, us) <==> id in m
    ensures id in m ==> UpsertAll(m, us)[id] == m[id]
  {
    if us != [] {
      Untouched(m, us[..|us| - 1], id);
    }
  }

  lemma {:induction false} FindLast(us: seq<User>, id: string) returns (i: nat)
    requires exists j :: 0 <= j < |us| && us[j].id == id
    ensures i < |us| && us[i].id == id && LastAt(us, i)
  {
    if us[|us| - 1].id == id {
      i := |us| - 1;
    } else {
      i := FindLast(us[..|us| - 1], id);
    }
  }

  lemma UpsertKeys(m: Table, us: seq<User>, id: string)
    ensures id in UpsertAll(m, us) <==> id in m || exists i :: 0 <= i < |us| && us[i].id == id
  {
  }

  lemma {:induction false} UpsertConcat(m: Table, a: seq<User>, b: seq<User>)
    ensures UpsertAll(m, a + b) == UpsertAll(UpsertAll(m, a), b)
  {
    if b == [] {
      assert a + b == a;
    } else {
      UpsertConcat(m, a, b[..|b| - 1]);
      assert (a + b)[..|a + b| - 1] == a + b[..|b| - 1];
    }
  }
}
