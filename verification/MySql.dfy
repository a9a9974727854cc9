/** internal/storage/mysql/user.go: the INSERT statement is built as text with
    placeholders and a flat list of arguments; the server puts them together. */
module MySql {
  import opened Users
  import opened Text
  import opened Upserts

  datatype Arg = Str(s: string) | Tim(t: Time)

  // ------------------------------------------------------- what Create sends

  const TUPLE := "(?, ?, ?, ?)"

  /** The columns the INSERT names, in that order. */
  const INSERT_COLUMNS := ["id", "first_name", "last_name", "created_at"]

  const INTO := "INSERT INTO users("
  const VALUES := " VALUES "

  function Head(): string {
    INTO + (Join(INSERT_COLUMNS, ", ") + (")" + VALUES))
  }

  lemma JoinStep(x: string, a: string, rest: seq<string>, sep: string)
    requires rest != []
    ensures x + Join([a] + rest, sep) == x + a + sep + Join(rest, sep)
  {
    assert ([a] + rest)[1..] == rest;
  }

  lemma Nested(a: string, b: string, c: string, d: string)
    ensures a + b + c + d == a + (b + (c + d))
  {
  }

  /** The start of the statement, as the source has it. */
  lemma HeadText()
    ensures Head() == "INSERT INTO users(id, first_name, last_name, created_at) VALUES "
  {
    JoinStep(INTO, "id", ["first_name", "last_name", "created_at"], ", ");
    assert INTO + "id" + ", " == "INSERT INTO users(id, ";
    JoinStep("INSERT INTO users(id, ", "first_name", ["last_name", "created_at"], ", ");
    assert "INSERT INTO users(id, " + "first_name" + ", " == "INSERT INTO users(id, first_name, ";
    JoinStep("INSERT INTO users(id, first_name, ", "last_name", ["created_at"], ", ");
    TailText(Join(INSERT_COLUMNS, ", "));
  }

  lemma TailText(columns: string)
    requires INTO + columns == "INSERT INTO users(id, first_name, " + "last_name" + ", " + "created_at"
    ensures INTO + (columns + (")" + VALUES)) == "INSERT INTO users(id, first_name, last_name, created_at) VALUES "
  {
    assert "INSERT INTO users(id, first_name, " + "last_name" + ", " == "INSERT INTO users(id, first_name, last_name, ";
    assert "INSERT INTO users(id, first_name, last_name, " + "created_at"
        == "INSERT INTO users(id, first_name, last_name, created_at";
    assert "INSERT INTO users(id, first_name, last_name, created_at" + ")"
        == "INSERT INTO users(id, first_name, last_name, created_at)";
    Nested(INTO, columns, ")", VALUES);
  }

  function Repeat(t: string, n: nat): seq<string> {
    if n == 0 then [] else [t] + Repeat(t, n - 1)
  }

  function Query(n: nat): string {
    Head() + Join(Repeat(TUPLE, n), ",")
  }

  function Fields(u: User): seq<Arg> {
    [Str(u.id), Str(u.firstName), Str(u.lastName), Tim(u.createdAt)]
  }

  function Args(users: seq<User>): seq<Arg> {
    if users == [] then [] else Args(users[..|users| - 1]) + Fields(users[|users| - 1])
  }

  // --------------------------------------- how the server reads a statement

  /** The columns of the table. */
  const SCHEMA := {"id", "first_name", "last_name", "created_at"}

  /** How many characters there are before the next comma or closing parenthesis. */
  function NameLength(s: string): (n: nat)
    ensures n <= |s|
    ensures n < |s| ==> s[n] == ',' || s[n] == ')'
    ensures forall i | 0 <= i < n :: s[i] != ',' && s[i] != ')'
  {
    if s == "" || s[0] == ',' || s[0] == ')' then 0 else 1 + NameLength(s[1..])
  }

  /** Names up to the closing parenthesis, and what follows. */
  function ParseNames(s: string): Option<(seq<string>, string)>
    decreases |s|
  {
    var n := NameLength(s);
    if n == 0 || n == |s| then None
    else if s[n] == ')' then Some(([s[..n]], s[n + 1..]))
    else if |s| < n + 2 || s[n + 1] != ' ' then None
    else
      match ParseNames(s[n + 2..])
      case Some((names, rest)) => Some(([s[..n]] + names, rest))
      case None => None
  }

  /** The server knows the columns, and none is named twice. */
  predicate Insertable(columns: seq<string>) {
    && (forall i | 0 <= i < |columns| :: columns[i] in SCHEMA)
    && (forall i, j | 0 <= i < j < |columns| :: columns[i] != columns[j])
  }

  /** The columns an INSERT statement names, and its list of tuples. */
  function ParseHead(query: string): Option<(seq<string>, string)> {
    if !(INTO <= query) then None
    else
      match ParseNames(query[|INTO|..])
      case None => None
      case Some((columns, rest)) =>
        if VALUES <= rest && Insertable(columns) then Some((columns, rest[|VALUES|..])) else None
  }

  /** Placeholders up to the closing parenthesis: how many, and what follows. */
  function ParsePlaceholders(s: string): (r: Option<(nat, string)>)
    ensures r.Some? ==> |r.value.1| < |s|
    decreases |s|
  {
    if |s| < 2 || s[0] != '?' then None
    else if s[1] == ')' then Some((1, s[2..]))
    else if |s| < 3 || s[1..3] != ", " then None
    else
      match ParsePlaceholders(s[3..])
      case Some((n, rest)) => Some((n + 1, rest))
      case None => None
  }

  /** A non-empty, comma-separated list of tuples: the arity of each. */
  function ParseTuples(s: string): Option<seq<nat>>
    decreases |s|
  {
    if s == "" || s[0] != '(' then None
    else
      match ParsePlaceholders(s[1..])
      case None => None
      case Some((n, rest)) =>
        if rest == "" then Some([n])
        else if rest[0] != ',' then None
        else
          match ParseTuples(rest[1..])
          case Some(ns) => Some([n] + ns)
          case None => None
  }

  /** Arguments are bound to placeholders from left to right, all of them. */
  function Bind(arities: seq<nat>, args: seq<Arg>): Option<seq<seq<Arg>>> {
    if arities == [] then (if args == [] then Some([]) else None)
    else if |args| < arities[0] then None
    else
      match Bind(arities[1..], args[arities[0]..])
      case Some(rows) => Some([args[..arities[0]]] + rows)
      case None => None
  }

  type Row = map<string, Arg>

  function Zip(columns: seq<string>, values: seq<Arg>): Row
    requires |columns| == |values|
  {
    if columns == [] then map[] else Zip(columns[1..], values[1..])[columns[0] := values[0]]
  }

  function ZipAll(columns: seq<string>, tuples: seq<seq<Arg>>): Option<seq<Row>> {
    if tuples == [] then Some([])
    else if |tuples[0]| != |columns| then None
    else
      match ZipAll(columns, tuples[1..])
      case Some(rows) => Some([Zip(columns, tuples[0])] + rows)
      case None => None
  }

  /** The rows an INSERT statement with arguments denotes, if it is one. */
  function RowsOf(query: string, args: seq<Arg>): Option<seq<Row>> {
    match ParseHead(query)
    case None => None
    case Some((columns, list)) =>
      match ParseTuples(list)
      case None => None
      case Some(arities) =>
        match Bind(arities, args)
        case None => None
        case Some(tuples) => ZipAll(columns, tuples)
  }

  // -------------------------------------------------- INSERT round trip

  lemma {:induction false} NameEnds(name: string, tail: string)
    requires forall i | 0 <= i < |name| :: name[i] != ',' && name[i] != ')'
    requires tail != "" && (tail[0] == ',' || tail[0] == ')')
    ensures NameLength(name + tail) == |name|
  {
    if name == "" {
      assert name + tail == tail;
    } else {
      NameEnds(name[1..], tail);
      assert (name + tail)[1..] == name[1..] + tail;
    }
  }

  predicate IsName(name: string) {
    name != "" && forall i | 0 <= i < |name| :: name[i] != ',' && name[i] != ')'
  }

  lemma ParseLastName(name: string, rest: string)
    requires IsName(name)
    ensures ParseNames(name + (")" + rest)) == Some(([name], rest))
  {
    NameEnds(name, ")" + rest);
    assert (name + (")" + rest))[..|name|] == name;
    assert (name + (")" + rest))[|name| + 1..] == rest;
  }

  lemma ParseNextName(name: string, tail: string)
    requires IsName(name)
    ensures ParseNames(name + (", " + tail)) ==
              match ParseNames(tail) case Some((names, rest)) => Some(([name] + names, rest)) case None => None
  {
    var s := name + (", " + tail);
    NameEnds(name, ", " + tail);
    assert s[..|name|] == name && s[|name|] == ',' && s[|name| + 1] == ' ';
    assert s[|name| + 2..] == tail;
  }

  lemma {:induction false} ParseJoinedNames(names: seq<string>, rest: string)
    requires names != [] && forall name | name in names :: IsName(name)
    ensures ParseNames(Join(names, ", ") + (")" + rest)) == Some((names, rest))
  {
    hide ParseNames;
    if |names| == 1 {
      ParseLastName(names[0], rest);
      assert Join(names, ", ") == names[0] && names == [names[0]];
    } else {
      ParseJoinedNames(names[1..], rest);
      var tail := Join(names[1..], ", ") + (")" + rest);
      ParseNextName(names[0], tail);
      Nested(names[0], ", ", Join(names[1..], ", "), ")" + rest);
      assert names == [names[0]] + names[1..];
    }
  }

  /** The server takes the column names from the text, whatever list follows. */
  lemma ParseWritten(list: string)
    ensures ParseHead(Head() + list) == Some((INSERT_COLUMNS, list))
  {
    hide ParseNames, Join;
    var query, rest := Head() + list, VALUES + list;
    assert query[|INTO|..] == Join(INSERT_COLUMNS, ", ") + (")" + rest);
    ParseJoinedNames(INSERT_COLUMNS, rest);
    assert rest[|VALUES|..] == list;
  }

  /** t is a tuple of four placeholders, whatever comes after it. */
  ghost predicate FourTuple(t: string) {
    t != "" && t[0] == '(' && forall rest :: ParsePlaceholders(t[1..] + rest) == Some((4, rest))
  }

  lemma ParseFour(rest: string)
    ensures ParsePlaceholders("?, ?, ?, ?)" + rest) == Some((4, rest))
  {
    var s1, s2, s3, s4 := "?, ?, ?, ?)" + rest, "?, ?, ?)" + rest, "?, ?)" + rest, "?)" + rest;
    assert s1[3..] == s2 && s1[1..3] == ", ";
    assert s2[3..] == s3 && s2[1..3] == ", ";
    assert s3[3..] == s4 && s3[1..3] == ", ";
    assert s4[2..] == rest;
    assert ParsePlaceholders(s4) == Some((1, rest));
    assert ParsePlaceholders(s3) == Some((2, rest));
    assert ParsePlaceholders(s2) == Some((3, rest));
  }

  lemma TupleIsFour()
    ensures FourTuple(TUPLE)
  {
    assert TUPLE[1..] == "?, ?, ?, ?)";
    forall rest
      ensures ParsePlaceholders(TUPLE[1..] + rest) == Some((4, rest))
    {
      ParseFour(rest);
    }
  }

  function Fours(n: nat): seq<nat> {
    if n == 0 then [] else [4] + Fours(n - 1)
  }

  lemma ParseFirst(t: string, rest: string)
    requires FourTuple(t)
    ensures ParseTuples(t + rest) ==
              if rest == "" then Some([4])
              else if rest[0] != ',' then None
              else match ParseTuples(rest[1..]) case Some(ns) => Some([4] + ns) case None => None
  {
    var s := t + rest;
    assert s != "" && s[0] == '(' && s[1..] == t[1..] + rest;
    var p := ParsePlaceholders(s[1..]);
    assert p == Some((4, rest));
  }

  lemma {:induction false} ParseList(t: string, n: nat)
    requires FourTuple(t) && 0 < n
    ensures ParseTuples(Join(Repeat(t, n), ",")) == Some(Fours(n))
  {
    if n == 1 {
      ParseFirst(t, "");
      assert Join(Repeat(t, 1), ",") == t + "";
      assert Fours(1) == [4];
    } else {
      ParseList(t, n - 1);
      var rest := "," + Join(Repeat(t, n - 1), ",");
      ParseFirst(t, rest);
      assert rest[1..] == Join(Repeat(t, n - 1), ",");
      JoinRepeat(t, n);
    }
  }

  lemma JoinRepeat(t: string, n: nat)
    requires 1 < n
    ensures Join(Repeat(t, n), ",") == t + ("," + Join(Repeat(t, n - 1), ","))
  {
  }

  lemma {:induction false} ArgsCons(u: User, users: seq<User>)
    ensures Args([u] + users) == Fields(u) + Args(users)
  {
    if users == [] {
      assert [u] + users == [u];
      assert [u][..0] == [];
    } else {
      var n := |users| - 1;
      ArgsCons(u, users[..n]);
      assert ([u] + users)[..n + 1] == [u] + users[..n];
      var first, middle, last := Fields(u), Args(users[..n]), Fields(users[n]);
      assert Args([u] + users) == first + middle + last;
      assert Args(users) == middle + last;
      Associative(first, middle, last);
    }
  }

  lemma Associative(a: seq<Arg>, b: seq<Arg>, c: seq<Arg>)
    ensures a + b + c == a + (b + c)
  {
  }

  /** A user as the columns of the table name it. */
  function RowOf(u: User): Row {
    map["id" := Str(u.id), "first_name" := Str(u.firstName),
        "last_name" := Str(u.lastName), "created_at" := Tim(u.createdAt)]
  }

  lemma ZipFields(u: User)
    ensures Zip(INSERT_COLUMNS, Fields(u)) == RowOf(u)
  {
    var f := Fields(u);
    assert Zip(INSERT_COLUMNS[1..][1..][1..][1..], f[1..][1..][1..][1..]) == map[];
    assert Zip(INSERT_COLUMNS[1..][1..][1..], f[1..][1..][1..]) == map["created_at" := f[3]];
    assert Zip(INSERT_COLUMNS[1..][1..], f[1..][1..]) == map["last_name" := f[2], "created_at" := f[3]];
    assert Zip(INSERT_COLUMNS[1..], f[1..]) ==
           map["first_name" := f[1], "last_name" := f[2], "created_at" := f[3]];
  }

  function RowsFor(users: seq<User>): seq<Row> {
    seq(|users|, i requires 0 <= i < |users| => RowOf(users[i]))
  }

  lemma BindFirst(n: nat, first: seq<Arg>, rest: seq<Arg>)
    requires |first| == 4 && Bind(Fours(n), rest).Some?
    ensures Bind(Fours(n + 1), first + rest) == Some([first] + Bind(Fours(n), rest).value)
  {
  }

  lemma ZipFirst(u: User, tuples: seq<seq<Arg>>, users: seq<User>)
    requires ZipAll(INSERT_COLUMNS, tuples) == Some(RowsFor(users))
    ensures ZipAll(INSERT_COLUMNS, [Fields(u)] + tuples) == Some(RowsFor([u] + users))
  {
    ZipFields(u);
    assert ([Fields(u)] + tuples)[1..] == tuples;
    assert RowsFor([u] + users) == [RowOf(u)] + RowsFor(users);
  }

  lemma {:induction false} BindList(users: seq<User>)
    ensures Bind(Fours(|users|), Args(users)).Some?
    ensures ZipAll(INSERT_COLUMNS, Bind(Fours(|users|), Args(users)).value) == Some(RowsFor(users))
  {
    if users == [] {
      assert RowsFor(users) == [];
    } else {
      var u, rest := users[0], users[1..];
      BindList(rest);
      ArgsCons(u, rest);
      assert [u] + rest == users;
      BindFirst(|rest|, Fields(u), Args(rest));
      var tuples := Bind(Fours(|rest|), Args(rest)).value;
      ZipFirst(u, tuples, rest);
      assert Bind(Fours(|users|), Args(users)).value == [Fields(u)] + tuples;
    }
  }

  /** The server reads back exactly the users, in order, unless there are none: an
      empty batch is not a statement. */
  lemma InsertRoundTrip(users: seq<User>)
    ensures RowsOf(Query(|users|), Args(users)) == if users == [] then None else Some(RowsFor(users))
    ensures |RowsFor(users)| == |users|
    ensures forall i | 0 <= i < |users| ::
              RowsFor(users)[i] == map["id" := Str(users[i].id), "first_name" := Str(users[i].firstName),
                                       "last_name" := Str(users[i].lastName), "created_at" := Tim(users[i].createdAt)]
  {
    ParseWritten(Join(Repeat(TUPLE, |users|), ","));
    if users != [] {
      TupleIsFour();
      ParseList(TUPLE, |users|);
      BindList(users);
    }
  }

  lemma {:induction false} CountRepeat(t: string, n: nat, c: char)
    requires c != ','
    ensures Count(Join(Repeat(t, n), ","), c) == Count(t, c) * n
  {
    if n == 1 {
      assert Repeat(t, 1) == [t];
    } else if n > 1 {
      CountRepeat(t, n - 1, c);
      assert Repeat(t, n)[1..] == Repeat(t, n - 1);
      var tail := Join(Repeat(t, n - 1), ",");
      CountConcat(t, ",", c);
      CountConcat(t + ",", tail, c);
      assert Count(",", c) == 0;
      calc {
        Count(t, c) + Count(t, c) * (n - 1);
        Count(t, c) * n;
      }
    }
  }

  lemma CountTuple()
    ensures Count(TUPLE, '?') == 4
  {
  }

  lemma {:induction false} NoMarks(s: string, c: char)
    requires forall i | 0 <= i < |s| :: s[i] != c
    ensures Count(s, c) == 0
  {
    if s != "" {
      NoMarks(s[1..], c);
    }
  }

  lemma NoMarksAround(start: string, columns: seq<string>, end: string, c: char)
    requires c !in start && c !in end && c != ',' && c != ' ' && forall p | p in columns :: c !in p
    ensures Count(start + (Join(columns, ", ") + end), c) == 0
  {
    NoneInJoin(columns, ", ", c);
    NoMarks(start + (Join(columns, ", ") + end), c);
  }

  lemma CountHead()
    ensures Count(Head(), '?') == 0
  {
    NoMarksAround(INTO, INSERT_COLUMNS, ")" + VALUES, '?');
  }

  lemma {:induction false} NoneInJoin(parts: seq<string>, sep: string, c: char)
    requires c !in sep && forall p | p in parts :: c !in p
    ensures c !in Join(parts, sep)
  {
    if |parts| > 1 {
      NoneInJoin(parts[1..], sep, c);
    }
  }

  lemma {:induction false} ArgsAt(users: seq<User>, i: nat, j: nat)
    requires i < |users| && j < 4
    ensures |Args(users)| == 4 * |users| && Args(users)[4 * i + j] == Fields(users[i])[j]
  {
    var n := |users| - 1;
    if n > 0 {
      ArgsAt(users[..n], if i < n then i else 0, j);
    }
  }

  /** As many placeholders as arguments, and argument 4i+j is field j of user i. */
  lemma PlaceholdersMatchArgs(users: seq<User>)
    ensures Count(Query(|users|), '?') == |Args(users)| == 4 * |users|
    ensures forall i, j | 0 <= i < |users| && 0 <= j < 4 :: Args(users)[4 * i + j] == Fields(users[i])[j]
  {
    hide Head, Repeat, Join, Count;
    CountHead();
    CountTuple();
    CountRepeat(TUPLE, |users|, '?');
    CountConcat(Head(), Join(Repeat(TUPLE, |users|), ","), '?');
    if users != [] {
      ArgsAt(users, 0, 0);
    }
    forall i, j | 0 <= i < |users| && 0 <= j < 4
      ensures 4 * i + j < |Args(users)| && Args(users)[4 * i + j] == Fields(users[i])[j]
    {
      ArgsAt(users, i, j);
    }
  }

  // ------------------------------------------------------- the users table

  /** What the schema leaves to the server: the collation of the primary key, and
      how a DATETIME column keeps a time. */
  datatype Server = Server(collate: string -> string, datetime: Time -> Time)

  type UsersTable = map<string, Row>

  function Kept(server: Server, u: User): User {
    u.(createdAt := server.datetime(u.createdAt))
  }

  /** A row as the table keeps it. */
  function KeptRow(server: Server, row: Row): Row {
    if "created_at" in row && row["created_at"].Tim?
    then row["created_at" := Tim(server.datetime(row["created_at"].t))] else row
  }

  /** The rows in order; one clash with the primary key undoes them all. */
  function InsertAll(server: Server, table: UsersTable, rows: seq<Row>): Option<UsersTable> {
    if rows == [] then Some(table)
    else
      var row := rows[|rows| - 1];
      match InsertAll(server, table, rows[..|rows| - 1])
      case None => None
      case Some(before) =>
        if "id" !in row || !row["id"].Str? then None
        else
          var key := server.collate(row["id"].s);
          if key in before then None else Some(before[key := KeptRow(server, row)])
  }

  /** ExecContext: a statement the server rejects changes nothing. */
  function Exec(server: Server, table: UsersTable, query: string, args: seq<Arg>): Option<UsersTable> {
    match RowsOf(query, args)
    case None => None
    case Some(rows) => InsertAll(server, table, rows)
  }

  /** No id of the batch is taken, in the table or earlier in the batch. */
  ghost predicate Fresh(server: Server, table: UsersTable, users: seq<User>) {
    && (forall i | 0 <= i < |users| :: server.collate(users[i].id) !in table)
    && (forall i, j | 0 <= i < j < |users| :: server.collate(users[i].id) != server.collate(users[j].id))
  }

  ghost predicate Backed(server: Server, m: Table, key: string) {
    exists id :: id in m && server.collate(id) == key
  }

  /** The table holds exactly the users of m, as it keeps them. */
  ghost predicate Represents(server: Server, table: UsersTable, m: Table) {
    && (forall id | id in m ::
          && m[id].id == id && server.collate(id) in table
          && table[server.collate(id)] == RowOf(Kept(server, m[id])))
    && (forall key | key in table :: Backed(server, m, key))
  }

  lemma BackedGrows(server: Server, m: Table, u: User, key: string)
    requires key == server.collate(u.id) || Backed(server, m, key)
    ensures Backed(server, m[u.id := u], key)
  {
  }

  lemma InsertOne(server: Server, table: UsersTable, m: Table, u: User)
    requires Represents(server, table, m) && server.collate(u.id) !in table
    ensures Represents(server, table[server.collate(u.id) := KeptRow(server, RowOf(u))], m[u.id := u])
  {
    var table' := table[server.collate(u.id) := KeptRow(server, RowOf(u))];
    assert KeptRow(server, RowOf(u)) == RowOf(Kept(server, u));
    assert u.id !in m;
    forall key | key in table'
      ensures Backed(server, m[u.id := u], key)
    {
      BackedGrows(server, m, u, key);
    }
  }

  lemma {:induction false} InsertAllRepresents(server: Server, table: UsersTable, m: Table, users: seq<User>)
    requires Represents(server, table, m) && InsertAll(server, table, RowsFor(users)).Some?
    ensures Represents(server, InsertAll(server, table, RowsFor(users)).value, UpsertAll(m, users))
  {
    if users != [] {
      var n := |users| - 1;
      InsertAllSnoc(server, table, users);
      InsertAllRepresents(server, table, m, users[..n]);
      InsertOne(server, InsertAll(server, table, RowsFor(users[..n])).value, UpsertAll(m, users[..n]), users[n]);
    }
  }

  /** The primary keys a batch would take. */
  function KeysOf(server: Server, users: seq<User>): set<string> {
    set i | 0 <= i < |users| :: server.collate(users[i].id)
  }

  lemma KeysOfSnoc(server: Server, users: seq<User>)
    requires users != []
    ensures var n := |users| - 1;
            KeysOf(server, users) == KeysOf(server, users[..n]) + {server.collate(users[n].id)}
  {
  }

  lemma FreshSnoc(server: Server, table: UsersTable, users: seq<User>)
    requires users != []
    ensures var n := |users| - 1;
            var key := server.collate(users[n].id);
            Fresh(server, table, users) <==>
              Fresh(server, table, users[..n]) && key !in table && key !in KeysOf(server, users[..n])
  {
  }

  lemma InsertAllSnoc(server: Server, table: UsersTable, users: seq<User>)
    requires users != []
    ensures var n := |users| - 1;
            var before, key := InsertAll(server, table, RowsFor(users[..n])), server.collate(users[n].id);
            InsertAll(server, table, RowsFor(users)) ==
              if before.None? || key in before.value then None
              else Some(before.value[key := KeptRow(server, RowOf(users[n]))])
  {
    var n := |users| - 1;
    assert RowsFor(users)[..n] == RowsFor(users[..n]);
  }

  lemma {:induction false} InsertAllExactly(server: Server, table: UsersTable, users: seq<User>)
    ensures InsertAll(server, table, RowsFor(users)).Some? <==> Fresh(server, table, users)
    ensures InsertAll(server, table, RowsFor(users)).Some? ==>
              InsertAll(server, table, RowsFor(users)).value.Keys == table.Keys + KeysOf(server, users)
  {
    if users != [] {
      InsertAllExactly(server, table, users[..|users| - 1]);
      InsertAllSnoc(server, table, users);
      KeysOfSnoc(server, users);
      FreshSnoc(server, table, users);
    }
  }

  /** Create succeeds at the server exactly for a batch that is not empty and
      whose ids are all free; then the table is what memory would hold, times as
      the column keeps them. Otherwise nothing is stored. */
  lemma CreateExactly(server: Server, table: UsersTable, m: Table, users: seq<User>)
    requires Represents(server, table, m)
    ensures var after := Exec(server, table, Query(|users|), Args(users));
            && (after.Some? <==> users != [] && Fresh(server, table, users))
            && (after.Some? ==> Represents(server, after.value, UpsertAll(m, users)))
  {
    InsertRoundTrip(users);
    InsertAllExactly(server, table, users);
    if InsertAll(server, table, RowsFor(users)).Some? {
      InsertAllRepresents(server, table, m, users);
    }
  }

  /** SELECT id, first_name, last_name, created_at */
  const SELECT_COLUMNS := ["id", "first_name", "last_name", "created_at"]

  function Selected(row: Row): Option<seq<Arg>> {
    if forall i | 0 <= i < |SELECT_COLUMNS| :: SELECT_COLUMNS[i] in row
    then Some(seq(|SELECT_COLUMNS|,
                  i requires 0 <= i < |SELECT_COLUMNS| && SELECT_COLUMNS[i] in row => row[SELECT_COLUMNS[i]]))
    else None
  }

  /** rows.Scan(&u.ID, &u.FirstName, &u.LastName, &u.CreatedAt) */
  function Scan(values: seq<Arg>): Option<User> {
    if |values| == 4 && values[0].Str? && values[1].Str? && values[2].Str? && values[3].Tim?
    then Some(User(values[3].t, values[0].s, values[1].s, values[2].s))
    else None
  }

  /** The columns Create writes are the ones Read puts in the same fields. */
  lemma SelectAndScan(u: User)
    ensures Selected(RowOf(u)).Some? && Scan(Selected(RowOf(u)).value) == Some(u)
  {
  }

  /** What was created is what is read, up to what a DATETIME keeps. */
  lemma ReadAfterCreate(server: Server, table: UsersTable, m: Table, id: string)
    requires Represents(server, table, m) && id in m
    ensures server.collate(id) in table
    ensures var row := Selected(table[server.collate(id)]);
            row.Some? && Scan(row.value) ==
              Some(User(server.datetime(m[id].createdAt), id, m[id].firstName, m[id].lastName))
  {
  }

  /** The server behind the connection. */
  class DB {
    const server: Server
    var table: UsersTable

    constructor (server: Server)
      ensures this.server == server && table == map[]
    {
      this.server := server;
      table := map[];
    }

    /** lost is the error of a connection that fails, before the statement reached
        the server or after. */
    method ExecContext(query: string, args: seq<Arg>, lost: Option<string>, reached: bool) returns (err: Option<string>)
      modifies this`table
      ensures var after := Exec(server, old(table), query, args);
              && table == (if (lost.None? || reached) && after.Some? then after.value else old(table))
              && (err.None? <==> lost.None? && after.Some?)
    {
      var after := Exec(server, table, query, args);
      if (lost.None? || reached) && after.Some? {
        table := after.value;
      }
      err := if lost.Some? then lost else if after.Some? then None else Some("Error 1062 or 1064");
    }
  }

  class UserStorage {
    const db: DB

    constructor (db: DB)
      ensures this.db == db
    {
      this.db := db;
    }

    method Create(users: seq<User>, lost: Option<string>, reached: bool) returns (err: Option<string>)
      modifies db`table
      ensures var after := Exec(db.server, old(db.table), Query(|users|), Args(users));
              && db.table == (if (lost.None? || reached) && after.Some? then after.value else old(db.table))
              && (err.None? <==> lost.None? && after.Some?)
    {
      var values, args := Flatten(users);
      var query := Head() + Join(values, ",");
      err := db.ExecContext(query, args, lost, reached);
    }

    /** The loop of Create over the users. */
    static method Flatten(users: seq<User>) returns (values: seq<string>, args: seq<Arg>)
      ensures values == Repeat(TUPLE, |users|) && args == Args(users)
    {
      values, args := [], [];
      for i := 0 to |users|
        invariant values == Repeat(TUPLE, i) && args == Args(users[..i])
      {
        assert users[..i + 1][..i] == users[..i];
        RepeatSnoc(TUPLE, i);
        values := values + [TUPLE];
        args := args + [Str(users[i].id)];
        args := args + [Str(users[i].firstName)];
        args := args + [Str(users[i].lastName)];
        args := args + [Tim(users[i].createdAt)];
      }
      assert users[..|users|] == users;
    }

    /** rows is what the query yields, in the server's order; any error, at the
        start, on a row or at the end, means no users at all. */
    method Read(queryErr: Option<string>, rows: seq<seq<Arg>>, rowsErr: Option<string>)
      returns (users: seq<User>, err: Option<string>)
      ensures err.None? <==> queryErr.None? && rowsErr.None? && forall i | 0 <= i < |rows| :: Scan(rows[i]).Some?
      ensures err.None? ==> |users| == |rows| && forall i | 0 <= i < |rows| :: Scan(rows[i]) == Some(users[i])
      ensures err.Some? ==> users == []
    {
      if queryErr.Some? {
        return [], queryErr;
      }
      users := [];
      for i := 0 to |rows|
        invariant |users| == i && forall j | 0 <= j < i :: Scan(rows[j]) == Some(users[j])
      {
        var u := Scan(rows[i]);
        if u.None? {
          return [], Some("sql: Scan error");
        }
        users := users + [u.value];
      }
      if rowsErr.Some? {
        return [], rowsErr;
      }
      err := None;
    }
  }

  lemma TwoTuples()
    ensures Join(Repeat(TUPLE, 2), ",") == "(?, ?, ?, ?),(?, ?, ?, ?)"
  {
    JoinRepeat(TUPLE, 2);
    assert Repeat(TUPLE, 1) == [TUPLE];
    assert "," + TUPLE == ",(?, ?, ?, ?)";
    assert TUPLE + ",(?, ?, ?, ?)" == "(?, ?, ?, ?),(?, ?, ?, ?)";
  }

  /** The statement for two users, as it is sent. */
  lemma QueryExample()
    ensures Query(2) ==
            "INSERT INTO users(id, first_name, last_name, created_at) VALUES " + "(?, ?, ?, ?),(?, ?, ?, ?)"
  {
    hide Head, Join, Repeat;
    HeadText();
    TwoTuples();
  }

  lemma {:induction false} RepeatSnoc(t: string, n: nat)
    ensures Repeat(t, n + 1) == Repeat(t, n) + [t]
  {
    if n > 0 {
      RepeatSnoc(t, n - 1);
    }
  }
}
