/** internal/user/consume/processor.go: what one decoded change event does. */
module Processor {
  import opened Users
  import opened Format

  /** One side of a change event as it leaves the decoder (the source's usr).
      A side that is null in the event is the zero struct. */
  datatype Row = Row(id: string, firstName: string, lastName: string, createdAt: int64)

  const NULL_ROW := Row("", "", "", 0)

  datatype BeforeAfter = BeforeAfter(before: Row, after: Row)

  function ToUser(r: Row): User {
    User(MsecToTime(r.createdAt), r.id, r.firstName, r.lastName)
  }

  /** The three cases of the switch in Process. */
  datatype Action = Skip | Create(user: User) | Refuse

  function Classify(e: BeforeAfter): Action {
    var before, after := ToUser(e.before), ToUser(e.after);
    if before == after then Skip
    else if before == EMPTY_USER then Create(after)
    else Refuse
  }

  /** Two rows that the conversion cannot tell apart. */
  predicate SameAfterConversion(a: Row, b: Row) {
    && a.id == b.id && a.firstName == b.firstName && a.lastName == b.lastName
    && (a.createdAt == b.createdAt || (a.createdAt <= 0 && b.createdAt <= 0))
  }

  /** A row the conversion takes for "no row": not only the null row. */
  predicate LooksNull(r: Row) {
    r.id == "" && r.firstName == "" && r.lastName == "" && r.createdAt <= 0
  }

  /** The classification in terms of the raw event alone, all three cases. */
  lemma ClassifyExactly(e: BeforeAfter)
    ensures Classify(e).Skip? <==> SameAfterConversion(e.before, e.after)
    ensures Classify(e).Create? <==> LooksNull(e.before) && !LooksNull(e.after)
    ensures Classify(e).Refuse? <==> !LooksNull(e.before) && !SameAfterConversion(e.before, e.after)
    ensures Classify(e).Create? ==>
              Classify(e).user == User(MsecToTime(e.after.createdAt), e.after.id, e.after.firstName, e.after.lastName)
  {
  }

  /** An insert as change data capture reports it, and the user it creates. */
  lemma InsertExample()
    ensures Classify(BeforeAfter(Row("", "", "", 0), Row("7", "Ann", "Lee", 1_500)))
         == Create(User(UnixTime(1, 500_000_000), "7", "Ann", "Lee"))
  {
  }

  /** With the ids the API writes (never empty), an insert is always a create of
      its row and a change to an existing row never creates anything. */
  lemma ClassifyByIds(e: BeforeAfter)
    ensures e.before == NULL_ROW && e.after.id != "" ==> Classify(e) == Create(ToUser(e.after))
    ensures e.before.id != "" ==> !Classify(e).Create?
    ensures e.before.id != e.after.id ==> !Classify(e).Skip?
  {
  }

  /** The row a user came from, as far as the user tells. */
  function FromUser(u: User): Option<Row> {
    var msec := TimeToMsec(u.createdAt);
    if msec < 0x8000_0000_0000_0000 && -0x8000_0000_0000_0000 <= msec
    then Some(Row(u.id, u.firstName, u.lastName, msec as int64)) else None
  }

  /** A user keeps everything of its row exactly when the timestamp is not before
      1970: the conversion turns all earlier ones into the zero time. */
  lemma UserKeepsRowExactly(r: Row)
    ensures FromUser(ToUser(r)) == Some(r) <==> r.createdAt >= 0
  {
  }

  /** What a remote store does with one request, and what the caller is told. All
      four combinations happen: a write can land and its acknowledgement be lost,
      and a store can acknowledge what it did not keep. */
  datatype Outcome = Outcome(landed: bool, err: Option<string>)

  const NOT_IMPLEMENTED := "not implemented"
  const UNMAPPED := "mapstructure: cannot decode"

  /** A request that leaves the process: a create of a user, or the commit of the
      message at an offset of a partition. */
  datatype Call = CreateCall(user: User) | CommitCall(p: nat, o: nat)

  /** Every request, to whichever server, in the order they were made. */
  class History {
    ghost var calls: seq<Call>

    constructor ()
      ensures calls == []
    {
      calls := [];
    }
  }

  /** A view (Redis or Elasticsearch) as a user.Creator sees it. */
  class View {
    const history: History
    var users: map<string, User>

    constructor (history: History)
      ensures this.history == history && users == map[]
    {
      this.history := history;
      users := map[];
    }

    method Create(u: User, w: Outcome) returns (err: Option<string>)
      modifies this, history
      ensures history.calls == old(history.calls) + [CreateCall(u)]
      ensures users == if w.landed then old(users)[u.id := u] else old(users)
      ensures err == w.err
    {
      history.calls := history.calls + [CreateCall(u)];
      if w.landed {
        users := users[u.id := u];
      }
      err := w.err;
    }
  }

  class EventProcessor {
    const creator: View

    constructor (creator: View)
      ensures this.creator == creator
    {
      this.creator := creator;
    }

    /** data is None when mapstructure cannot decode the message; w is what the
        store would do if a create is attempted. */
    method Process(data: Option<BeforeAfter>, w: Outcome) returns (err: Option<string>)
      modifies creator, creator.history
      ensures data.None? ==> err == Some(UNMAPPED) && unchanged(creator, creator.history)
      ensures data.Some? && SameAfterConversion(data.value.before, data.value.after) ==>
                err == None && unchanged(creator, creator.history)
      ensures data.Some? && LooksNull(data.value.before) && !LooksNull(data.value.after) ==>
                var row := data.value.after;
                var u := User(MsecToTime(row.createdAt), row.id, row.firstName, row.lastName);
                && creator.history.calls == old(creator.history.calls) + [CreateCall(u)]
                && creator.users == (if w.landed then old(creator.users)[u.id := u] else old(creator.users))
                && err == w.err
      ensures data.Some? && !LooksNull(data.value.before)
              && !SameAfterConversion(data.value.before, data.value.after) ==>
                err == Some(NOT_IMPLEMENTED) && unchanged(creator, creator.history)
    {
      if data.None? {
        return Some(UNMAPPED);
      }
      ClassifyExactly(data.value);
      var before, after := ToUser(data.value.before), ToUser(data.value.after);
      if before == after {
        err := None;
      } else if before == EMPTY_USER {
        err := creator.Create(after, w);
      } else {
        err := Some(NOT_IMPLEMENTED);
      }
    }
  }
}
