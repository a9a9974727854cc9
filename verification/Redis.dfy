/** internal/storage/redis/user.go: users as JSON strings under "user:" + id. */
module Redis {
  import opened Users
  import opened Processor
  import opened Upserts

  /** encoding/json on user.User. Marshalling can fail: a year beyond 9999 does. */
  datatype Codec = Codec(enc: User -> Option<string>, dec: string -> Option<User>)

  ghost predicate Lawful(c: Codec) {
    forall u :: c.enc(u).Some? ==> c.dec(c.enc(u).value) == Some(u)
  }

  const PREFIX := "user:"

  function KeyOf(id: string): string {
    PREFIX + id
  }

  /** The pattern user:* of the scan. */
  predicate Matches(key: string) {
    |PREFIX| <= |key| && key[..|PREFIX|] == PREFIX
  }

  function IdOf(key: string): string
    requires Matches(key)
  {
    key[|PREFIX|..]
  }

  lemma KeysAndIds(id: string, key: string)
    ensures Matches(KeyOf(id)) && IdOf(KeyOf(id)) == id
    ensures Matches(key) ==> KeyOf(IdOf(key)) == key
  {
  }

  lemma KeyExamples()
    ensures KeyOf("7") == "user:7"
    ensures Matches("user:7") && Matches("user:") && !Matches("users") && !Matches("use")
  {
    assert "user:" + "7" == "user:7";
    assert "user:7"[..5] == "user:" && "user:"[..5] == "user:";
    assert "users"[..5][4] == 's' && "user:"[4] == ':';
  }

  type Cache = map<string, string>

  predicate AllMarshal(c: Codec, users: seq<User>) {
    forall i | 0 <= i < |users| :: c.enc(users[i]).Some?
  }

  /** The entries one MSET writes for a batch. */
  function Entries(c: Codec, users: seq<User>): Cache
    requires AllMarshal(c, users)
  {
    if users == [] then map[]
    else
      var n := |users| - 1;
      Entries(c, users[..n])[KeyOf(users[n].id) := c.enc(users[n]).value]
  }

  /** The cache after the users of a batch were written one by one. */
  function WriteAll(c: Codec, cache: Cache, users: seq<User>): Cache
    requires AllMarshal(c, users)
  {
    if users == [] then cache
    else
      var n := |users| - 1;
      WriteAll(c, cache, users[..n])[KeyOf(users[n].id) := c.enc(users[n]).value]
  }

  /** The one MSET has the effect of all the writes in order. */
  lemma {:induction false} MSetWritesAll(c: Codec, cache: Cache, users: seq<User>)
    requires AllMarshal(c, users)
    ensures cache + Entries(c, users) == WriteAll(c, cache, users)
  {
    if users != [] {
      MSetWritesAll(c, cache, users[..|users| - 1]);
    }
  }

  function MGet(cache: Cache, keys: seq<string>): seq<Option<string>> {
    seq(|keys|, i requires 0 <= i < |keys| => if keys[i] in cache then Some(cache[keys[i]]) else None)
  }

  predicate Decodes(c: Codec, v: Option<string>) {
    v.Some? && c.dec(v.value).Some?
  }

  /** How many values Read gets through. */
  function GoodPrefix(c: Codec, values: seq<Option<string>>): (n: nat)
    ensures n <= |values|
    ensures forall i | 0 <= i < n :: Decodes(c, values[i])
    ensures n < |values| ==> !Decodes(c, values[n])
  {
    if values == [] || !Decodes(c, values[0]) then 0 else 1 + GoodPrefix(c, values[1..])
  }

  const MARSHAL_FAILED := "json: error calling MarshalJSON"
  const NOT_A_STRING := "could not assert user val as string"
  const UNMARSHAL_FAILED := "json: cannot unmarshal"

  class UserCache {
    var cache: Cache

    constructor ()
      ensures cache == map[]
    {
      cache := map[];
    }

    /** All or nothing: an empty batch touches nothing, nor does one with a user
        that cannot be marshalled; anything else is one atomic MSET. */
    method Create(c: Codec, users: seq<User>, w: Outcome) returns (err: Option<string>)
      modifies this
      ensures users == [] ==> err == None && cache == old(cache)
      ensures !AllMarshal(c, users) ==> err.Some? && cache == old(cache)
      ensures users != [] && AllMarshal(c, users) ==>
                err == w.err && cache == if w.landed then WriteAll(c, old(cache), users) else old(cache)
    {
      if |users| == 0 {
        return None;
      }
      var usrMap: Cache := map[];
      for i := 0 to |users|
        invariant AllMarshal(c, users[..i]) && usrMap == Entries(c, users[..i])
        invariant cache == old(cache)
      {
        var mUsr := c.enc(users[i]);
        if mUsr.None? {
          return Some(MARSHAL_FAILED);
        }
        assert users[..i + 1][..i] == users[..i];
        usrMap := usrMap[KeyOf(users[i].id) := mUsr.value];
      }
      assert users[..|users|] == users;
      if w.landed {
        MSetWritesAll(c, cache, users);
        cache := cache + usrMap;
      }
      err := w.err;
    }

    /** scan is what the iterator yields and scanErr how it ended. A failed MGET is
        not looked at: its values are empty, so Read reports no users. On a value
        that is missing or does not decode, the users so far come back with the
        error, the rest of the slice being zero users. */
    method Read(c: Codec, scan: seq<string>, scanErr: Option<string>, mgetFails: bool)
      returns (users: array<User>, err: Option<string>)
      ensures fresh(users)
      ensures scanErr.Some? ==> users.Length == 0 && err == scanErr
      ensures scanErr.None? && mgetFails ==> users.Length == 0 && err == None
      ensures scanErr.None? && !mgetFails ==>
                var values := MGet(cache, scan);
                var good := GoodPrefix(c, values);
                && users.Length == |scan|
                && (forall i | 0 <= i < good :: Some(users[i]) == c.dec(values[i].value))
                && (forall i | good <= i < |scan| :: users[i] == EMPTY_USER)
                && (err.None? <==> good == |scan|)
                && (err == Some(NOT_A_STRING) <==> good < |scan| && values[good].None?)
    {
      var keys := [];
      for i := 0 to |scan|
        invariant keys == scan[..i]
      {
        keys := keys + [scan[i]];
      }
      users := new User[0];
      if scanErr.Some? {
        return users, scanErr;
      }
      assert keys == scan;
      if |keys| == 0 {
        return users, None;
      }
      var values := if mgetFails then [] else MGet(cache, keys);
      users, err := Unmarshal(c, values);
    }
  }

  /** The loop of Read over the values of the MGET. */
  method Unmarshal(c: Codec, values: seq<Option<string>>) returns (users: array<User>, err: Option<string>)
    ensures fresh(users) && users.Length == |values|
    ensures forall i | 0 <= i < GoodPrefix(c, values) :: Some(users[i]) == c.dec(values[i].value)
    ensures forall i | GoodPrefix(c, values) <= i < |values| :: users[i] == EMPTY_USER
    ensures err.None? <==> GoodPrefix(c, values) == |values|
    ensures err == Some(NOT_A_STRING) <==>
              GoodPrefix(c, values) < |values| && values[GoodPrefix(c, values)].None?
  {
    users := new User[|values|](_ => EMPTY_USER);
    for k := 0 to |values|
      invariant k <= GoodPrefix(c, values)
      invariant forall i | 0 <= i < k :: Some(users[i]) == c.dec(values[i].value)
      invariant forall i | k <= i < |values| :: users[i] == EMPTY_USER
    {
      if values[k].None? {
        return users, Some(NOT_A_STRING);
      }
      var u := c.dec(values[k].value);
      if u.None? {
        return users, Some(UNMARSHAL_FAILED);
      }
      users[k] := u.value;
    }
    err := None;
  }

  lemma GoodPrefixIs(c: Codec, values: seq<Option<string>>, n: nat)
    requires n <= |values| && (n < |values| ==> !Decodes(c, values[n]))
    requires forall i | 0 <= i < n :: Decodes(c, values[i])
    ensures GoodPrefix(c, values) == n
  {
  }

  // -------------------------------------------------- the cache as a table

  /** The user entries of the cache are the JSON of the table's users; the cache
      may hold other keys too. */
  ghost predicate Represents(c: Codec, cache: Cache, table: Table) {
    && (forall id :: KeyOf(id) in cache <==> id in table)
    && (forall id | id in table :: table[id].id == id && c.dec(cache[KeyOf(id)]) == Some(table[id]))
  }

  lemma OneWrite(c: Codec, cache: Cache, table: Table, u: User)
    requires Lawful(c) && Represents(c, cache, table) && c.enc(u).Some?
    ensures Represents(c, cache[KeyOf(u.id) := c.enc(u).value], table[u.id := u])
  {
    var cache' := cache[KeyOf(u.id) := c.enc(u).value];
    KeysAndIds(u.id, "");
    forall id
      ensures KeyOf(id) in cache' <==> id in table[u.id := u]
      ensures id != u.id && id in table ==> cache'[KeyOf(id)] == cache[KeyOf(id)]
    {
      KeysAndIds(id, "");
    }
  }

  /** A batch in Redis is the same last-wins update as in memory. */
  lemma {:induction false} BatchRefinesUpsert(c: Codec, cache: Cache, table: Table, users: seq<User>)
    requires Lawful(c) && Represents(c, cache, table) && AllMarshal(c, users)
    ensures Represents(c, WriteAll(c, cache, users), UpsertAll(table, users))
  {
    if users != [] {
      var n := |users| - 1;
      BatchRefinesUpsert(c, cache, table, users[..n]);
      OneWrite(c, WriteAll(c, cache, users[..n]), UpsertAll(table, users[..n]), users[n]);
    }
  }

  lemma {:induction false} NoKeyIsRemoved(c: Codec, cache: Cache, users: seq<User>)
    requires AllMarshal(c, users)
    ensures cache.Keys <= WriteAll(c, cache, users).Keys
  {
    if users != [] {
      NoKeyIsRemoved(c, cache, users[..|users| - 1]);
    }
  }

  /** A write touches no key outside the user entries. */
  lemma {:induction false} OtherKeysUntouched(c: Codec, cache: Cache, users: seq<User>, key: string)
    requires AllMarshal(c, users) && !Matches(key)
    ensures key in WriteAll(c, cache, users) <==> key in cache
    ensures key in cache ==> WriteAll(c, cache, users)[key] == cache[key]
  {
    if users != [] {
      OtherKeysUntouched(c, cache, users[..|users| - 1], key);
      KeysAndIds(users[|users| - 1].id, "");
    }
  }

  /** The caches and tables successful calls of Create leave behind; a batch that
      cannot be marshalled leaves both as they were. */
  function CacheBatches(c: Codec, cache: Cache, batches: seq<seq<User>>): Cache {
    if batches == [] then cache
    else
      var before := CacheBatches(c, cache, batches[..|batches| - 1]);
      var users := batches[|batches| - 1];
      if AllMarshal(c, users) then WriteAll(c, before, users) else before
  }

  function Marshallable(c: Codec, batches: seq<seq<User>>): seq<seq<User>> {
    if batches == [] then []
    else
      var before := Marshallable(c, batches[..|batches| - 1]);
      var users := batches[|batches| - 1];
      if AllMarshal(c, users) then before + [users] else before
  }

  lemma {:induction false} BatchesRefineUpserts(c: Codec, cache: Cache, table: Table, batches: seq<seq<User>>)
    requires Lawful(c) && Represents(c, cache, table)
    ensures Represents(c, CacheBatches(c, cache, batches), UpsertBatches(table, Marshallable(c, batches)))
  {
    hide Represents, Lawful, AllMarshal;
    if batches != [] {
      var n := |batches| - 1;
      BatchesRefineUpserts(c, cache, table, batches[..n]);
      if AllMarshal(c, batches[n]) {
        var kept := Marshallable(c, batches[..n]);
        BatchRefinesUpsert(c, CacheBatches(c, cache, batches[..n]), UpsertBatches(table, kept), batches[n]);
        assert (kept + [batches[n]])[..|kept|] == kept;
      }
    }
  }

  // --------------------------------------- reading while creates go on

  /** What happens between the start of a scan and the MGET: batches of other
      callers, and pages the scan returns. */
  datatype Event = Written(users: seq<User>) | Page(keys: seq<string>)

  function CacheAfter(c: Codec, cache: Cache, events: seq<Event>): Cache {
    if events == [] then cache
    else
      var before := CacheAfter(c, cache, events[..|events| - 1]);
      match events[|events| - 1]
      case Written(users) => if AllMarshal(c, users) then WriteAll(c, before, users) else before
      case Page(_) => before
  }

  function TableAfter(c: Codec, table: Table, events: seq<Event>): Table {
    if events == [] then table
    else
      var before := TableAfter(c, table, events[..|events| - 1]);
      match events[|events| - 1]
      case Written(users) => if AllMarshal(c, users) then UpsertAll(before, users) else before
      case Page(_) => before
  }

  /** A page holds keys that match and are in the cache at that moment. */
  ghost predicate Possible(c: Codec, cache: Cache, events: seq<Event>) {
    forall n | 0 <= n < |events| && events[n].Page? ::
      forall k | k in events[n].keys :: Matches(k) && k in CacheAfter(c, cache, events[..n])
  }

  function Scanned(events: seq<Event>): seq<string> {
    if events == [] then []
    else
      Scanned(events[..|events| - 1])
      + (match events[|events| - 1] case Written(_) => [] case Page(keys) => keys)
  }

  /** What SCAN promises once the iteration has ended: every matching key that was
      there all the time was returned, at least once. Nothing removes keys. */
  ghost predicate CoversStart(cache: Cache, events: seq<Event>) {
    forall key | key in cache && Matches(key) :: key in Scanned(events)
  }

  /** A scan that returns every matching key on one page, while nothing else goes on,
      is one that can happen and keeps the promise. */
  lemma OnePageScan(c: Codec, cache: Cache, keys: seq<string>)
    requires forall key :: key in keys <==> key in cache && Matches(key)
    ensures Possible(c, cache, [Page(keys)]) && CoversStart(cache, [Page(keys)])
    ensures Scanned([Page(keys)]) == keys
  {
    var events := [Page(keys)];
    assert events[..0] == [] && Scanned(events) == [] + keys;
  }

  lemma {:induction false} ReadInvariant(c: Codec, cache: Cache, table: Table, events: seq<Event>)
    requires Lawful(c) && Represents(c, cache, table) && Possible(c, cache, events)
    ensures Represents(c, CacheAfter(c, cache, events), TableAfter(c, table, events))
    ensures cache.Keys <= CacheAfter(c, cache, events).Keys
    ensures forall key | key in Scanned(events) :: Matches(key) && key in CacheAfter(c, cache, events)
  {
    if events != [] {
      var n := |events| - 1;
      assert Possible(c, cache, events[..n]) by {
        assert forall m | 0 <= m < n :: events[..n][m] == events[m] && events[..n][..m] == events[..m];
      }
      ReadInvariant(c, cache, table, events[..n]);
      if events[n].Written? && AllMarshal(c, events[n].users) {
        BatchRefinesUpsert(c, CacheAfter(c, cache, events[..n]), TableAfter(c, table, events[..n]), events[n].users);
        NoKeyIsRemoved(c, CacheAfter(c, cache, events[..n]), events[n].users);
      }
    }
  }

  /** The users Read returns for the scanned keys, in key order. */
  function UsersAt(table: Table, keys: seq<string>): seq<User>
    requires forall k | k in keys :: Matches(k) && IdOf(k) in table
  {
    seq(|keys|, i requires 0 <= i < |keys| => assert keys[i] in keys; table[IdOf(keys[i])])
  }

  lemma ScannedKey(c: Codec, cache: Cache, table: Table, key: string)
    requires Represents(c, cache, table) && Matches(key) && key in cache
    ensures IdOf(key) in table && c.dec(cache[key]) == Some(table[IdOf(key)])
  {
    KeysAndIds("", key);
    assert KeyOf(IdOf(key)) == key;
  }

  /** A read that overlaps any number of creates: no value is missing or fails to
      decode, so neither error of the loop can happen, and entry i is the current
      user of key i. */
  lemma ReadNeverFails(c: Codec, cache: Cache, table: Table, events: seq<Event>)
    requires Lawful(c) && Represents(c, cache, table) && Possible(c, cache, events)
    ensures var keys, now := Scanned(events), TableAfter(c, table, events);
            var values := MGet(CacheAfter(c, cache, events), keys);
            && (forall k | k in keys :: Matches(k) && IdOf(k) in now)
            && GoodPrefix(c, values) == |keys|
            && (forall i | 0 <= i < |keys| :: c.dec(values[i].value) == Some(UsersAt(now, keys)[i]))
  {
    var keys, now, after := Scanned(events), TableAfter(c, table, events), CacheAfter(c, cache, events);
    ReadInvariant(c, cache, table, events);
    var values := MGet(after, keys);
    forall k | k in keys
      ensures Matches(k) && IdOf(k) in now && c.dec(after[k]) == Some(now[IdOf(k)])
    {
      ScannedKey(c, after, now, k);
    }
    forall i | 0 <= i < |keys|
      ensures Decodes(c, values[i]) && c.dec(values[i].value) == Some(UsersAt(now, keys)[i])
    {
      assert keys[i] in keys;
    }
    GoodPrefixIs(c, values, |keys|);
  }

  lemma UsersOfKeys(table: Table, keys: seq<string>, ids: set<string>)
    requires forall k | k in keys :: Matches(k) && IdOf(k) in table
    requires forall id | id in table :: table[id].id == id
    requires forall id | id in ids :: KeyOf(id) in keys
    ensures forall id | id in ids :: id in table && table[id] in UsersAt(table, keys)
    ensures forall u | u in UsersAt(table, keys) :: u.id in table && table[u.id] == u
  {
    forall id | id in ids
      ensures id in table && table[id] in UsersAt(table, keys)
    {
      KeysAndIds(id, "");
      var i :| 0 <= i < |keys| && keys[i] == KeyOf(id);
      assert keys[i] in keys;
      assert UsersAt(table, keys)[i] == table[id];
    }
    forall i | 0 <= i < |keys|
      ensures var u := UsersAt(table, keys)[i]; u.id in table && table[u.id] == u
    {
      assert keys[i] in keys;
    }
  }

  /** Every user there when the scan began is returned, and nothing is returned
      that is not in the table at the time of the MGET. */
  lemma ReadIsComplete(c: Codec, cache: Cache, table: Table, events: seq<Event>)
    requires Lawful(c) && Represents(c, cache, table) && Possible(c, cache, events)
    requires CoversStart(cache, events)
    ensures var keys, now := Scanned(events), TableAfter(c, table, events);
            && (forall k | k in keys :: Matches(k) && IdOf(k) in now)
            && (forall id | id in table :: id in now && now[id] in UsersAt(now, keys))
            && (forall u | u in UsersAt(now, keys) :: u.id in now && now[u.id] == u)
  {
    ReadInvariant(c, cache, table, events);
    ReadNeverFails(c, cache, table, events);
    forall id | id in table
      ensures KeyOf(id) in Scanned(events)
    {
      KeysAndIds(id, "");
    }
    UsersOfKeys(TableAfter(c, table, events), Scanned(events), table.Keys);
  }

  /** SCAN may return a key twice, and Read does not look: a user is listed twice
      exactly when its key was. */
  lemma ReadDuplicatesExactly(table: Table, keys: seq<string>)
    requires forall id | id in table :: table[id].id == id
    requires forall k | k in keys :: Matches(k) && IdOf(k) in table
    ensures (forall i, j | 0 <= i < j < |keys| :: UsersAt(table, keys)[i].id != UsersAt(table, keys)[j].id)
            <==> (forall i, j | 0 <= i < j < |keys| :: keys[i] != keys[j])
  {
    forall i, j | 0 <= i < j < |keys|
      ensures UsersAt(table, keys)[i].id == UsersAt(table, keys)[j].id <==> keys[i] == keys[j]
    {
      assert keys[i] in keys && keys[j] in keys;
      KeysAndIds("", keys[i]);
      KeysAndIds("", keys[j]);
    }
  }
}
