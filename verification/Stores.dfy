/** The stores side by side: the same batches leave the same users in memory, in
    Redis and, where MySQL accepts them, in MySQL. */
module Stores {
  import opened Users
  import opened Upserts
  import Redis
  import MySql

  /** The table after the statements of a sequence of batches, the rejected ones
      without effect. */
  function ExecBatches(server: MySql.Server, table: MySql.UsersTable, batches: seq<seq<User>>): MySql.UsersTable {
    if batches == [] then table
    else
      var before := ExecBatches(server, table, batches[..|batches| - 1]);
      var users := batches[|batches| - 1];
      match MySql.Exec(server, before, MySql.Query(|users|), MySql.Args(users))
      case Some(after) => after
      case None => before
  }

  /** Every batch was non-empty and used free ids when its turn came. */
  ghost predicate AllFresh(server: MySql.Server, table: MySql.UsersTable, batches: seq<seq<User>>) {
    forall i | 0 <= i < |batches| ::
      batches[i] != [] && MySql.Fresh(server, ExecBatches(server, table, batches[..i]), batches[i])
  }

  ghost predicate AllMarshal(c: Redis.Codec, batches: seq<seq<User>>) {
    forall i | 0 <= i < |batches| :: Redis.AllMarshal(c, batches[i])
  }

  lemma FreshPrefix(server: MySql.Server, table: MySql.UsersTable, batches: seq<seq<User>>)
    requires batches != [] && AllFresh(server, table, batches)
    ensures AllFresh(server, table, batches[..|batches| - 1])
  {
    hide ExecBatches, MySql.Fresh;
    var prefix := batches[..|batches| - 1];
    forall i | 0 <= i < |prefix|
      ensures prefix[i] != [] && MySql.Fresh(server, ExecBatches(server, table, prefix[..i]), prefix[i])
    {
      assert prefix[i] == batches[i] && prefix[..i] == batches[..i];
    }
  }

  lemma OneBatch(server: MySql.Server, table: MySql.UsersTable, m: Table, users: seq<User>)
    requires MySql.Represents(server, table, m) && users != [] && MySql.Fresh(server, table, users)
    ensures var after := MySql.Exec(server, table, MySql.Query(|users|), MySql.Args(users));
            after.Some? && MySql.Represents(server, after.value, UpsertAll(m, users))
  {
    MySql.CreateExactly(server, table, m, users);
  }

  lemma {:induction false} MySqlRefinesUpserts(server: MySql.Server, table: MySql.UsersTable, m: Table,
                                               batches: seq<seq<User>>)
    requires MySql.Represents(server, table, m) && AllFresh(server, table, batches)
    ensures MySql.Represents(server, ExecBatches(server, table, batches), UpsertBatches(m, batches))
  {
    if batches != [] {
      var n := |batches| - 1;
      FreshPrefix(server, table, batches);
      MySqlRefinesUpserts(server, table, m, batches[..n]);
      OneBatch(server, ExecBatches(server, table, batches[..n]), UpsertBatches(m, batches[..n]), batches[n]);
    }
  }

  lemma {:induction false} NothingDropped(c: Redis.Codec, batches: seq<seq<User>>)
    requires AllMarshal(c, batches)
    ensures Redis.Marshallable(c, batches) == batches
  {
    if batches != [] {
      NothingDropped(c, batches[..|batches| - 1]);
    }
  }

  /** After any batches that can be marshalled and whose ids are free, the Redis
      cache and the MySQL table both hold the users memory holds, MySQL with the
      times its column keeps. */
  lemma StoresAgree(c: Redis.Codec, cache: Redis.Cache, server: MySql.Server, table: MySql.UsersTable,
                    m: Table, batches: seq<seq<User>>)
    requires Redis.Lawful(c) && Redis.Represents(c, cache, m) && MySql.Represents(server, table, m)
    requires AllMarshal(c, batches) && AllFresh(server, table, batches)
    ensures Redis.Represents(c, Redis.CacheBatches(c, cache, batches), UpsertBatches(m, batches))
    ensures MySql.Represents(server, ExecBatches(server, table, batches), UpsertBatches(m, batches))
  {
    Redis.BatchesRefineUpserts(c, cache, m, batches);
    NothingDropped(c, batches);
    MySqlRefinesUpserts(server, table, m, batches);
  }

  /** A batch with a taken id splits them: memory and Redis take the new value,
      MySQL keeps the whole batch out. */
  lemma ClashSplitsStores(c: Redis.Codec, cache: Redis.Cache, server: MySql.Server, table: MySql.UsersTable,
                          m: Table, users: seq<User>)
    requires Redis.Lawful(c) && Redis.Represents(c, cache, m) && MySql.Represents(server, table, m)
    requires Redis.AllMarshal(c, users) && !MySql.Fresh(server, table, users)
    ensures Redis.Represents(c, Redis.WriteAll(c, cache, users), UpsertAll(m, users))
    ensures ExecBatches(server, table, [users]) == table
  {
    Redis.BatchRefinesUpsert(c, cache, m, users);
    MySql.CreateExactly(server, table, m, users);
    assert [users][..0] == [];
  }
}
