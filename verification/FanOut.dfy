/** internal/storage/elastic/user.go: Create sends one request per user from its
    own goroutine, collects the answers over an unbuffered channel that a further
    goroutine closes once a wait group is down to zero, and joins the errors. */
module FanOut {
  import opened Users
  import opened Text

  // ----------------------------------------------------------------- errors

  /** A Go error: a plain one, or one made by fmt.Errorf with %w. */
  datatype GoError = Plain(text: string) | Wrapping(cause: GoError, text: string)

  function Message(e: GoError): string {
    e.text
  }

  /** errors.Is: the error or one it wraps, however deep. Go compares identities; two
      plain errors with one text are one error here, so this may find more than Go. */
  predicate Is(e: GoError, target: GoError) {
    e == target || (e.Wrapping? && Is(e.cause, target))
  }

  /** What a goroutine sends, but for the status code, which nothing reads. isError:
      the server answered, and the answer is an error. stored says whether the
      document gets into the index, which Create is told by isError at best, and it
      looks at err only. */
  datatype Reply = Reply(err: Option<GoError>, isError: bool, stored: bool)

  /** The body of the drain loop for one response. */
  function Merge(err: Option<GoError>, r: Reply): Option<GoError> {
    if r.err.None? then err
    else if err.None? then r.err
    else Some(Wrapping(r.err.value, Message(r.err.value) + ", " + Message(err.value)))
  }

  /** The error after the replies arrived in this order. */
  function Aggregate(replies: seq<Reply>): Option<GoError> {
    if replies == [] then None
    else Merge(Aggregate(replies[..|replies| - 1]), replies[|replies| - 1])
  }

  /** The transport errors among the replies, the last to arrive first. */
  function ErrorsBackwards(replies: seq<Reply>): seq<GoError> {
    if replies == [] then []
    else
      var earlier := ErrorsBackwards(replies[..|replies| - 1]);
      var r := replies[|replies| - 1];
      if r.err.Some? then [r.err.value] + earlier else earlier
  }

  function Messages(es: seq<GoError>): seq<string> {
    seq(|es|, i requires 0 <= i < |es| => Message(es[i]))
  }

  /** es are the errors of the failed replies, each once, from the last to the first;
      at says which reply each is of. */
  ghost predicate FailuresAt(replies: seq<Reply>, at: seq<nat>, es: seq<GoError>) {
    && |at| == |es|
    && (forall k | 0 <= k < |at| :: at[k] < |replies| && replies[at[k]].err == Some(es[k]))
    && (forall k, l | 0 <= k < l < |at| :: at[l] < at[k])
    && (forall i: nat | i < |replies| && replies[i].err.Some? :: i in at)
  }

  lemma NoMoreFailures(replies: seq<Reply>, at: seq<nat>, es: seq<GoError>, r: Reply)
    requires FailuresAt(replies, at, es) && r.err.None?
    ensures FailuresAt(replies + [r], at, es)
  {
  }

  lemma OneMoreFailure(replies: seq<Reply>, at: seq<nat>, es: seq<GoError>, r: Reply)
    requires FailuresAt(replies, at, es) && r.err.Some?
    ensures FailuresAt(replies + [r], [|replies|] + at, [r.err.value] + es)
  {
    var at', es' := [|replies|] + at, [r.err.value] + es;
    assert forall k | 0 < k < |at'| :: at'[k] == at[k - 1] && es'[k] == es[k - 1];
    forall i: nat | i < |replies| + 1 && (replies + [r])[i].err.Some?
      ensures i in at'
    {
      if i < |replies| {
        assert i in at;
      } else {
        assert at'[0] == i;
      }
    }
  }

  lemma NoFailures()
    ensures FailuresAt([], [], ErrorsBackwards([]))
  {
  }

  lemma {:induction false} ErrorsBackwardsExactly(replies: seq<Reply>) returns (at: seq<nat>)
    ensures FailuresAt(replies, at, ErrorsBackwards(replies))
  {
    hide FailuresAt;
    if replies == [] {
      at := [];
      NoFailures();
    } else {
      var n := |replies| - 1;
      at := ErrorsBackwardsExactly(replies[..n]);
      assert replies == replies[..n] + [replies[n]];
      if replies[n].err.Some? {
        OneMoreFailure(replies[..n], at, ErrorsBackwards(replies[..n]), replies[n]);
        at := [n] + at;
      } else {
        NoMoreFailures(replies[..n], at, ErrorsBackwards(replies[..n]), replies[n]);
      }
    }
  }

  /** nil exactly when no request failed; otherwise every transport error's text,
      once, in reverse order of arrival, and only the last to arrive is wrapped. */
  lemma {:induction false} AggregateMeaning(replies: seq<Reply>)
    ensures Aggregate(replies).None? <==> forall r | r in replies :: r.err.None?
    ensures Aggregate(replies).None? <==> ErrorsBackwards(replies) == []
    ensures Aggregate(replies).Some? ==>
              var e, es := Aggregate(replies).value, ErrorsBackwards(replies);
              && Message(e) == Join(Messages(es), ", ")
              && (e == es[0] || (e.Wrapping? && e.cause == es[0]))
              && (|es| == 1 ==> e == es[0])
              && (|es| > 1 ==> e.Wrapping? && e.cause == es[0])
  {
    if replies != [] {
      var n := |replies| - 1;
      AggregateMeaning(replies[..n]);
      var r, earlier := replies[n], ErrorsBackwards(replies[..n]);
      assert forall x :: x in replies <==> x in replies[..n] || x == r;
      if r.err.Some? {
        var es := [r.err.value] + earlier;
        assert Messages(es) == [Message(r.err.value)] + Messages(earlier);
        assert Messages(es)[1..] == Messages(earlier);
      }
    }
  }

  /** A caller that asks errors.Is sees the last failure to arrive, whatever that
      one wraps, and the aggregate itself; the earlier failures are text only. */
  lemma AggregateIs(replies: seq<Reply>, target: GoError)
    requires Aggregate(replies).Some?
    ensures ErrorsBackwards(replies) != []
    ensures Is(Aggregate(replies).value, target) <==>
              target == Aggregate(replies).value || Is(ErrorsBackwards(replies)[0], target)
  {
    AggregateMeaning(replies);
  }

  /** The drain loop of Create, over the responses in the order it receives them. */
  method Drain(responses: seq<Reply>) returns (err: Option<GoError>)
    ensures err == Aggregate(responses)
  {
    err := None;
    for i := 0 to |responses|
      invariant err == Aggregate(responses[..i])
    {
      assert responses[..i + 1][..i] == responses[..i];
      var resp := responses[i];
      if resp.err.Some? {
        if err.None? {
          err := resp.err;
        } else {
          err := Some(Wrapping(resp.err.value, resp.err.value.text + ", " + err.value.text));
        }
      }
    }
    assert responses[..|responses|] == responses;
  }

  // --------------------------------------------------------------- documents

  /** elasticUser: the document indexed under the user's id. */
  datatype Document = Document(createdAt: Time, id: string, fullName: string, firstName: string, lastName: string)

  function DocumentOf(u: User): Document {
    Document(u.createdAt, u.id, u.firstName + " " + u.lastName, u.firstName, u.lastName)
  }

  /** d is the document of u, field by field: the full name is the first name, one
      space and the last name. */
  predicate Describes(d: Document, u: User) {
    && d.id == u.id && d.createdAt == u.createdAt && d.firstName == u.firstName && d.lastName == u.lastName
    && |d.fullName| == |u.firstName| + 1 + |u.lastName|
    && d.fullName[..|u.firstName|] == u.firstName
    && d.fullName[|u.firstName|] == ' '
    && d.fullName[|u.firstName| + 1..] == u.lastName
  }

  lemma DocumentExactly(d: Document, u: User)
    ensures d == DocumentOf(u) <==> Describes(d, u)
  {
    var n := |u.firstName|;
    if Describes(d, u) {
      assert d.fullName == d.fullName[..n] + [d.fullName[n]] + d.fullName[n + 1..];
    }
  }

  lemma DocumentExample()
    ensures DocumentOf(User(UnixTime(1, 0), "7", "Ann", "Lee"))
         == Document(UnixTime(1, 0), "7", "Ann Lee", "Ann", "Lee")
  {
  }

  /** What Search makes of a hit's _source, which has no use for the full name. */
  function UserOf(d: Document): User {
    User(d.createdAt, d.id, d.firstName, d.lastName)
  }

  /** Search gives back the users Create indexed, and no two users are indexed as
      the same document. */
  lemma DocumentRoundTrip(u: User, v: User)
    ensures UserOf(DocumentOf(u)) == u
    ensures DocumentOf(u) == DocumentOf(v) <==> u == v
  {
  }

  // ---------------------------------------------------------------- protocol

  /** One call of Create: whether each user can be marshalled, and how the server
      and the network treat each request. */
  datatype Call = Call(users: seq<User>, marshals: seq<bool>, replies: seq<Reply>)

  predicate ValidCall(k: Call) {
    |k.users| == |k.marshals| == |k.replies|
  }

  datatype Routine = Unborn | Calling | Sending | Finishing | Gone

  datatype Main = Spawning(next: nat) | Draining | Returned(err: Option<GoError>)

  datatype Closer = Absent | Waiting | Closed

  /** wg is the wait group's counter; arrivals, the senders whose value the main
      goroutine received, in order; landed, the requests that reached the index. */
  datatype State = State(
    main: Main,
    routines: seq<Routine>,
    closer: Closer,
    wg: int,
    err: Option<GoError>,
    arrivals: seq<nat>,
    landed: set<nat>,
    index: map<string, Document>)

  datatype Step =
    | Spawn
    | MarshalFails
    | StartCloser
    | Land(i: nat)
    | Respond(i: nat)
    | Exchange(i: nat)
    | Finish(i: nat)
    | CloseChannel
    | Return

  const MARSHAL_FAILED := Plain("json: error calling MarshalJSON")

  predicate Enabled(k: Call, s: State, t: Step)
    requires ValidCall(k) && |s.routines| == |k.users|
  {
    match t
    case Spawn => s.main.Spawning? && s.main.next < |k.users| && k.marshals[s.main.next]
    case MarshalFails => s.main.Spawning? && s.main.next < |k.users| && !k.marshals[s.main.next]
    case StartCloser => s.main.Spawning? && s.main.next == |k.users|
    // once sent, a request may reach the index at any time, even after Create returned
    case Land(i) => i < |k.users| && !s.routines[i].Unborn? && k.replies[i].stored && i !in s.landed
    // but the server does not answer before it has dealt with the request
    case Respond(i) =>
      && i < |k.users| && s.routines[i].Calling?
      && (k.replies[i].stored && k.replies[i].err.None? ==> i in s.landed)
    // unbuffered: the send and the receive are one step, on an open channel
    case Exchange(i) => i < |k.users| && s.routines[i].Sending? && s.main.Draining? && !s.closer.Closed?
    case Finish(i) => i < |k.users| && s.routines[i].Finishing?
    case CloseChannel => s.closer.Waiting? && s.wg == 0
    // range ends when the channel is closed; nothing is buffered in it
    case Return => s.main.Draining? && s.closer.Closed?
  }

  function Do(k: Call, s: State, t: Step): State
    requires ValidCall(k) && |s.routines| == |k.users| && Enabled(k, s, t)
  {
    match t
    case Spawn =>
      var i := s.main.next;
      s.(main := Spawning(i + 1), routines := s.routines[i := Calling], wg := s.wg + 1)
    case MarshalFails => s.(main := Returned(Some(MARSHAL_FAILED)))
    case StartCloser => s.(main := Draining, closer := Waiting)
    case Land(i) => s.(landed := s.landed + {i}, index := s.index[k.users[i].id := DocumentOf(k.users[i])])
    case Respond(i) => s.(routines := s.routines[i := Sending])
    case Exchange(i) =>
      s.(routines := s.routines[i := Finishing], arrivals := s.arrivals + [i], err := Merge(s.err, k.replies[i]))
    case Finish(i) => s.(routines := s.routines[i := Gone], wg := s.wg - 1)
    case CloseChannel => s.(closer := Closed)
    case Return => s.(main := Returned(s.err))
  }

  predicate Init(k: Call, s: State, index: map<string, Document>) {
    s == State(Spawning(0), seq(|k.users|, _ => Unborn), Absent, 0, None, [], {}, index)
  }

  /** The states of a run, the first one first. */
  ghost predicate IsRun(k: Call, ss: seq<State>, index: map<string, Document>)
    requires ValidCall(k)
  {
    && ss != [] && Init(k, ss[0], index)
    && forall i | 0 < i < |ss| :: StepsTo(k, ss[i - 1], ss[i])
  }

  ghost predicate StepsTo(k: Call, s: State, s': State)
    requires ValidCall(k)
  {
    |s.routines| == |k.users| && exists t :: Enabled(k, s, t) && Do(k, s, t) == s'
  }

  // --------------------------------------------------------------- invariant

  /** Goroutines the wait group still counts. */
  function Live(rs: seq<Routine>): nat {
    if rs == [] then 0
    else Live(rs[..|rs| - 1]) + (if rs[|rs| - 1].Unborn? || rs[|rs| - 1].Gone? then 0 else 1)
  }

  lemma {:induction false} LiveUpdate(rs: seq<Routine>, i: nat, r: Routine)
    requires i < |rs|
    ensures Live(rs[i := r]) == Live(rs) - (if rs[i].Unborn? || rs[i].Gone? then 0 else 1)
                                + (if r.Unborn? || r.Gone? then 0 else 1)
  {
    var n := |rs| - 1;
    if i == n {
      assert rs[i := r][..n] == rs[..n];
    } else {
      LiveUpdate(rs[..n], i, r);
      assert rs[i := r][..n] == rs[..n][i := r];
    }
  }

  lemma {:induction false} LiveZero(rs: seq<Routine>)
    ensures Live(rs) == 0 <==> forall i | 0 <= i < |rs| :: rs[i].Unborn? || rs[i].Gone?
  {
    if rs != [] {
      LiveZero(rs[..|rs| - 1]);
    }
  }

  predicate Received(r: Routine) {
    r.Finishing? || r.Gone?
  }

  function Arrived(k: Call, arrivals: seq<nat>): seq<Reply>
    requires ValidCall(k) && forall j | 0 <= j < |arrivals| :: arrivals[j] < |k.users|
  {
    seq(|arrivals|, j requires 0 <= j < |arrivals| => k.replies[arrivals[j]])
  }

  ghost predicate Distinct(xs: seq<nat>) {
    forall i, j | 0 <= i < j < |xs| :: xs[i] != xs[j]
  }

  /** How many goroutines were started. */
  function Started(k: Call, s: State): nat
    requires ValidCall(k)
  {
    match s.main
    case Spawning(i) => i
    case Draining => |k.users|
    case Returned(_) => if s.closer.Absent? then FirstFailure(k) else |k.users|
  }

  /** The position of the first user that cannot be marshalled, or their number. */
  function FirstFailure(k: Call): (n: nat)
    requires ValidCall(k)
    ensures n <= |k.users|
    ensures forall i | 0 <= i < n :: k.marshals[i]
    ensures n < |k.users| ==> !k.marshals[n]
  {
    FirstFalse(k.marshals, 0)
  }

  function FirstFalse(bs: seq<bool>, lo: nat): (n: nat)
    requires lo <= |bs|
    ensures lo <= n <= |bs|
    ensures forall i | lo <= i < n :: bs[i]
    ensures n < |bs| ==> !bs[n]
    decreases |bs| - lo
  {
    if lo == |bs| || !bs[lo] then lo else FirstFalse(bs, lo + 1)
  }

  ghost predicate ControlInv(k: Call, s: State)
    requires ValidCall(k)
  {
    && |s.routines| == |k.users|
    && (s.main.Spawning? ==> s.main.next <= FirstFailure(k) && s.closer.Absent?)
    && (s.main.Draining? ==> FirstFailure(k) == |k.users| && !s.closer.Absent?)
    && (s.main.Returned? ==> if FirstFailure(k) == |k.users| then s.closer.Closed? else s.closer.Absent?)
    && (forall i | 0 <= i < |k.users| :: s.routines[i].Unborn? <==> Started(k, s) <= i)
    && s.wg == Live(s.routines)
    && (s.closer.Closed? ==> forall i | 0 <= i < |k.users| :: s.routines[i].Gone?)
    && (s.closer.Absent? ==> forall i | 0 <= i < |k.users| :: !Received(s.routines[i]))
  }

  ghost predicate ArrivalInv(k: Call, s: State)
    requires ValidCall(k)
  {
    && |s.routines| == |k.users|
    && (forall j | 0 <= j < |s.arrivals| :: s.arrivals[j] < |k.users| && Received(s.routines[s.arrivals[j]]))
    && (forall i | 0 <= i < |k.users| && Received(s.routines[i]) :: i in s.arrivals)
    && Distinct(s.arrivals)
    && s.err == Aggregate(Arrived(k, s.arrivals))
    && (s.main.Returned? ==> s.main.err == if s.closer.Absent? then Some(MARSHAL_FAILED) else s.err)
  }

  /** Only what was sent and is to be stored lands; what was confirmed has landed. */
  ghost predicate LandingInv(k: Call, s: State)
    requires ValidCall(k)
  {
    && |s.routines| == |k.users|
    && (forall i | i in s.landed :: i < |k.users| && k.replies[i].stored && !s.routines[i].Unborn?)
    && (forall i | 0 <= i < |k.users| && Responded(s.routines[i]) && Confirmed(k, i) :: i in s.landed)
  }

  predicate Responded(r: Routine) {
    !r.Unborn? && !r.Calling?
  }

  /** The server stores the document of user i and says so. */
  predicate Confirmed(k: Call, i: nat)
    requires ValidCall(k) && i < |k.users|
  {
    k.replies[i].stored && k.replies[i].err.None?
  }

  lemma StepKeepsLanding(k: Call, s: State, t: Step)
    requires ValidCall(k) && LandingInv(k, s) && Enabled(k, s, t)
    ensures LandingInv(k, Do(k, s, t))
  {
  }

  lemma StepKeepsControl(k: Call, s: State, t: Step)
    requires ValidCall(k) && ControlInv(k, s) && Enabled(k, s, t)
    ensures ControlInv(k, Do(k, s, t))
  {
    hide Live;
    match t {
      case Spawn => LiveUpdate(s.routines, s.main.next, Calling);
      case MarshalFails =>
      case StartCloser =>
      case Land(i) =>
      case Respond(i) => LiveUpdate(s.routines, i, Sending);
      case Exchange(i) => LiveUpdate(s.routines, i, Finishing);
      case Finish(i) => LiveUpdate(s.routines, i, Gone);
      case CloseChannel => LiveZero(s.routines);
      case Return =>
    }
  }

  lemma ArrivedSnoc(k: Call, arrivals: seq<nat>, i: nat)
    requires ValidCall(k) && i < |k.users| && forall j | 0 <= j < |arrivals| :: arrivals[j] < |k.users|
    ensures Aggregate(Arrived(k, arrivals + [i])) == Merge(Aggregate(Arrived(k, arrivals)), k.replies[i])
  {
    var after := Arrived(k, arrivals + [i]);
    assert after[..|arrivals|] == Arrived(k, arrivals);
  }

  lemma ExchangeKeepsArrivals(k: Call, s: State, i: nat)
    requires ValidCall(k) && ControlInv(k, s) && ArrivalInv(k, s) && Enabled(k, s, Exchange(i))
    ensures ArrivalInv(k, Do(k, s, Exchange(i)))
  {
    ArrivedSnoc(k, s.arrivals, i);
    forall j | 0 <= j < |s.arrivals|
      ensures s.arrivals[j] != i
    {
      assert Received(s.routines[s.arrivals[j]]);
    }
  }

  lemma StepKeepsArrivals(k: Call, s: State, t: Step)
    requires ValidCall(k) && ControlInv(k, s) && ArrivalInv(k, s) && Enabled(k, s, t)
    ensures ArrivalInv(k, Do(k, s, t))
  {
    if t.Exchange? {
      ExchangeKeepsArrivals(k, s, t.i);
    }
  }

  ghost predicate Inv(k: Call, s: State)
    requires ValidCall(k)
  {
    ControlInv(k, s) && ArrivalInv(k, s) && LandingInv(k, s)
  }

  lemma InitInv(k: Call, s: State, index: map<string, Document>)
    requires ValidCall(k) && Init(k, s, index)
    ensures Inv(k, s)
  {
    LiveZero(s.routines);
  }

  lemma {:induction false} RunInv(k: Call, ss: seq<State>, index: map<string, Document>)
    requires ValidCall(k) && IsRun(k, ss, index)
    ensures forall i | 0 <= i < |ss| :: Inv(k, ss[i])
  {
    InitInv(k, ss[0], index);
    for n := 1 to |ss|
      invariant forall i | 0 <= i < n :: Inv(k, ss[i])
    {
      assert StepsTo(k, ss[n - 1], ss[n]);
      var t :| Enabled(k, ss[n - 1], t) && Do(k, ss[n - 1], t) == ss[n];
      StepKeepsControl(k, ss[n - 1], t);
      StepKeepsArrivals(k, ss[n - 1], t);
      StepKeepsLanding(k, ss[n - 1], t);
    }
  }

  // ----------------------------------------------------------- what holds

  /** In every state of every run nothing panics: the wait group does not go below
      zero, and no goroutine is left to send on a closed channel. The channel is
      closed only after every user's response was received and every goroutine
      ended; and no response is received twice. */
  lemma FanOutSafety(k: Call, ss: seq<State>, index: map<string, Document>, n: nat)
    requires ValidCall(k) && IsRun(k, ss, index) && n < |ss|
    ensures ss[n].wg >= 0
    ensures ss[n].closer.Closed? ==> forall r | r in ss[n].routines :: !r.Sending?
    ensures Distinct(ss[n].arrivals) && forall i | i in ss[n].arrivals :: i < |k.users|
    ensures ss[n].closer.Closed? ==>
              && (forall i | 0 <= i < |k.users| :: i in ss[n].arrivals)
              && |ss[n].arrivals| == |k.users|
              && (forall r | r in ss[n].routines :: r.Gone?)
  {
    RunInv(k, ss, index);
    if ss[n].closer.Closed? {
      EveryoneOnce(ss[n].arrivals, |k.users|);
    }
  }

  lemma {:induction false} EveryoneOnce(xs: seq<nat>, n: nat)
    requires Distinct(xs) && (forall j | 0 <= j < |xs| :: xs[j] < n) && (forall i | 0 <= i < n :: i in xs)
    ensures |xs| == n
  {
    if n == 0 {
      if xs != [] {
        assert false;
      }
    } else {
      assert n - 1 in xs;
      var j :| 0 <= j < |xs| && xs[j] == n - 1;
      var ys := xs[..j] + xs[j + 1..];
      forall i | 0 <= i < n - 1
        ensures i in ys
      {
        assert i in xs;
        var l :| 0 <= l < |xs| && xs[l] == i;
        assert ys[if l < j then l else l - 1] == i;
      }
      EveryoneOnce(ys, n - 1);
    }
  }

  /** Create is never stuck: until it has returned, some goroutine can step. */
  lemma Progress(k: Call, s: State) returns (t: Step)
    requires ValidCall(k) && Inv(k, s) && !s.main.Returned?
    ensures Enabled(k, s, t)
  {
    if s.main.Spawning? {
      t := if s.main.next == |k.users| then StartCloser
           else if k.marshals[s.main.next] then Spawn else MarshalFails;
    } else if s.closer.Closed? {
      t := Return;
    } else if i :| 0 <= i < |k.users| && s.routines[i].Calling? {
      t := if Confirmed(k, i) && i !in s.landed then Land(i) else Respond(i);
    } else if i :| 0 <= i < |k.users| && s.routines[i].Sending? {
      t := Exchange(i);
    } else if i :| 0 <= i < |k.users| && s.routines[i].Finishing? {
      t := Finish(i);
    } else {
      LiveZero(s.routines);
      t := CloseChannel;
    }
  }

  function RoutineRank(r: Routine): nat {
    match r
    case Unborn => 4
    case Calling => 3
    case Sending => 2
    case Finishing => 1
    case Gone => 0
  }

  function RoutinesRank(rs: seq<Routine>): nat {
    if rs == [] then 0 else RoutinesRank(rs[..|rs| - 1]) + RoutineRank(rs[|rs| - 1])
  }

  lemma {:induction false} RankUpdate(rs: seq<Routine>, i: nat, r: Routine)
    requires i < |rs|
    ensures RoutinesRank(rs[i := r]) == RoutinesRank(rs) - RoutineRank(rs[i]) + RoutineRank(r)
  {
    var n := |rs| - 1;
    if i == n {
      assert rs[i := r][..n] == rs[..n];
    } else {
      RankUpdate(rs[..n], i, r);
      assert rs[i := r][..n] == rs[..n][i := r];
    }
  }

  lemma {:induction false} RankBound(rs: seq<Routine>)
    ensures RoutinesRank(rs) <= 4 * |rs|
  {
    if rs != [] {
      RankBound(rs[..|rs| - 1]);
    }
  }

  /** Steps that can still be taken, at most. */
  function Rank(k: Call, s: State): int {
    RoutinesRank(s.routines)
    + (match s.main case Spawning(i) => |k.users| - i + 2 case Draining => 1 case Returned(_) => 0)
    + (match s.closer case Absent => 2 case Waiting => 1 case Closed => 0)
    + |k.users| - |s.landed|
  }

  lemma {:induction false} FewerThan(xs: set<nat>, n: nat)
    requires forall x | x in xs :: x < n
    ensures |xs| <= n
  {
    if n > 0 {
      FewerThan(xs - {n - 1}, n - 1);
    }
  }

  lemma RankIsNat(k: Call, s: State)
    requires ValidCall(k) && ControlInv(k, s) && LandingInv(k, s)
    ensures 0 <= Rank(k, s)
  {
    FewerThan(s.landed, |k.users|);
  }

  lemma StepLowersRank(k: Call, s: State, t: Step)
    requires ValidCall(k) && Inv(k, s) && Enabled(k, s, t)
    ensures 0 <= Rank(k, Do(k, s, t)) < Rank(k, s)
  {
    hide ArrivalInv, LandingInv, RoutinesRank, Live, FirstFailure;
    StepKeepsControl(k, s, t);
    StepKeepsLanding(k, s, t);
    RankIsNat(k, Do(k, s, t));
    match t {
      case Spawn => RankUpdate(s.routines, s.main.next, Calling);
      case Respond(i) => RankUpdate(s.routines, i, Sending);
      case Exchange(i) => RankUpdate(s.routines, i, Finishing);
      case Finish(i) => RankUpdate(s.routines, i, Gone);
      case _ =>
    }
  }

  /** Every schedule ends: no run of a call for n users has more than 6n+4 steps. */
  lemma FanOutTerminates(k: Call, ss: seq<State>, index: map<string, Document>)
    requires ValidCall(k) && IsRun(k, ss, index)
    ensures |ss| - 1 <= 6 * |k.users| + 4
  {
    RunInv(k, ss, index);
    RankBound(ss[0].routines);
    assert Rank(k, ss[0]) <= 6 * |k.users| + 4;
    for n := 1 to |ss|
      invariant 0 <= Rank(k, ss[n - 1]) <= 6 * |k.users| + 4 - (n - 1)
    {
      assert StepsTo(k, ss[n - 1], ss[n]);
      var t :| Enabled(k, ss[n - 1], t) && Do(k, ss[n - 1], t) == ss[n];
      StepLowersRank(k, ss[n - 1], t);
    }
  }

  /** The result of Create. A marshal error is returned as such; otherwise the
      result is nil exactly when no request failed, and else the joined errors. */
  lemma FanOutResult(k: Call, ss: seq<State>, index: map<string, Document>, n: nat)
    requires ValidCall(k) && IsRun(k, ss, index) && n < |ss| && ss[n].main.Returned?
    ensures FirstFailure(k) < |k.users| ==> ss[n].main.err == Some(MARSHAL_FAILED)
    ensures FirstFailure(k) == |k.users| ==>
              && (forall j | 0 <= j < |ss[n].arrivals| :: ss[n].arrivals[j] < |k.users|)
              && ss[n].main.err == Aggregate(Arrived(k, ss[n].arrivals))
              && (ss[n].main.err.None? <==> forall i | 0 <= i < |k.users| :: k.replies[i].err.None?)
  {
    hide Live, Started, LandingInv;
    RunInv(k, ss, index);
    if FirstFailure(k) == |k.users| {
      var replies := Arrived(k, ss[n].arrivals);
      AggregateMeaning(replies);
      forall i | 0 <= i < |k.users|
        ensures k.replies[i] in replies
      {
        assert i in ss[n].arrivals;
        var j :| 0 <= j < |ss[n].arrivals| && ss[n].arrivals[j] == i;
        assert replies[j] == k.replies[i];
      }
    }
  }

  /** Where every run ends. If user f is the first that cannot be marshalled,
      Create returns at once and the f goroutines it had started wait for ever on
      a channel nobody receives from. */
  lemma FanOutEnd(k: Call, s: State)
    requires ValidCall(k) && Inv(k, s) && forall t :: !Enabled(k, s, t)
    ensures s.main.Returned?
    ensures forall i | 0 <= i < |k.users| ::
              s.routines[i] == if FirstFailure(k) == |k.users| then Gone
                               else if i < FirstFailure(k) then Sending else Unborn
  {
    if !s.main.Returned? {
      var t := Progress(k, s);
    }
    forall i | 0 <= i < |k.users|
      ensures !s.routines[i].Calling? && !s.routines[i].Finishing?
    {
      assert !Enabled(k, s, Land(i)) && !Enabled(k, s, Respond(i)) && !Enabled(k, s, Finish(i));
    }
  }

  /** No goroutine is left behind exactly when the first user to fail marshalling,
      if any, is the first of the batch; the consumer's batches have one user. */
  lemma NoLeakExactly(k: Call, s: State)
    requires ValidCall(k) && Inv(k, s) && forall t :: !Enabled(k, s, t)
    ensures (forall i | 0 <= i < |k.users| :: !s.routines[i].Sending?)
            <==> (|k.users| == 0 || !k.marshals[0] || forall i | 0 <= i < |k.users| :: k.marshals[i])
    ensures |k.users| <= 1 ==> forall i | 0 <= i < |k.users| :: !s.routines[i].Sending?
  {
    FanOutEnd(k, s);
    if 0 < FirstFailure(k) < |k.users| {
      assert s.routines[0].Sending?;
    }
  }

  // ------------------------------------------------------------- the index

  /** Stored requests for the same id carry the same document; distinct ids do. */
  ghost predicate SameIdSameDocument(k: Call)
    requires ValidCall(k)
  {
    forall i, j | 0 <= i < |k.users| && 0 <= j < |k.users| && k.replies[i].stored && k.replies[j].stored
                  && k.users[i].id == k.users[j].id :: DocumentOf(k.users[i]) == DocumentOf(k.users[j])
  }

  /** Some request for this id reached the index. */
  ghost predicate Written(k: Call, landed: set<nat>, id: string)
    requires ValidCall(k)
  {
    exists i: nat :: i in landed && i < |k.users| && k.users[i].id == id
  }

  /** The index before the call, with the documents that landed. */
  ghost predicate IndexInv(k: Call, s: State, index: map<string, Document>)
    requires ValidCall(k)
  {
    && (forall i: nat | i in s.landed && i < |k.users| ::
          k.users[i].id in s.index && s.index[k.users[i].id] == DocumentOf(k.users[i]))
    && (forall id | !Written(k, s.landed, id) ::
          (id in s.index <==> id in index) && (id in index ==> s.index[id] == index[id]))
  }

  lemma WrittenStays(k: Call, landed: set<nat>, i: nat, id: string)
    requires ValidCall(k) && i < |k.users|
    ensures Written(k, landed + {i}, id) <==> Written(k, landed, id) || k.users[i].id == id
  {
    if k.users[i].id == id {
      assert i in landed + {i};
    } else if Written(k, landed, id) {
      var j: nat :| j in landed && j < |k.users| && k.users[j].id == id;
      assert j in landed + {i};
    }
  }

  lemma StepKeepsIndex(k: Call, s: State, t: Step, index: map<string, Document>)
    requires ValidCall(k) && SameIdSameDocument(k)
    requires LandingInv(k, s) && IndexInv(k, s, index) && Enabled(k, s, t)
    ensures IndexInv(k, Do(k, s, t), index)
  {
    if t.Land? {
      forall id
        ensures Written(k, s.landed + {t.i}, id) <==> Written(k, s.landed, id) || k.users[t.i].id == id
      {
        WrittenStays(k, s.landed, t.i, id);
      }
    }
  }

  lemma {:induction false} RunIndex(k: Call, ss: seq<State>, index: map<string, Document>)
    requires ValidCall(k) && SameIdSameDocument(k) && IsRun(k, ss, index)
    ensures forall i | 0 <= i < |ss| :: IndexInv(k, ss[i], index)
  {
    RunInv(k, ss, index);
    for n := 1 to |ss|
      invariant forall i | 0 <= i < n :: IndexInv(k, ss[i], index)
    {
      assert StepsTo(k, ss[n - 1], ss[n]);
      var t :| Enabled(k, ss[n - 1], t) && Do(k, ss[n - 1], t) == ss[n];
      StepKeepsIndex(k, ss[n - 1], t, index);
    }
  }

  /** Everything the server stores has reached the index. */
  predicate Settled(k: Call, s: State)
    requires ValidCall(k)
  {
    forall i | 0 <= i < |k.users| && k.replies[i].stored :: i in s.landed
  }

  /** A call without marshal errors, up to its return and beyond, until the last
      late request has landed. */
  ghost predicate IsSettledRun(k: Call, ss: seq<State>, index: map<string, Document>)
    requires ValidCall(k)
  {
    && IsRun(k, ss, index) && FirstFailure(k) == |k.users|
    && ss[|ss| - 1].main.Returned? && Settled(k, ss[|ss| - 1])
  }

  /** When Create returns nil there is nothing left to land. */
  lemma NilIsSettled(k: Call, ss: seq<State>, index: map<string, Document>, n: nat)
    requires ValidCall(k) && IsRun(k, ss, index) && n < |ss| && FirstFailure(k) == |k.users|
    requires ss[n].main == Returned(None)
    ensures Settled(k, ss[n])
  {
    RunInv(k, ss, index);
    FanOutResult(k, ss, index, n);
    forall i | 0 <= i < |k.users| && k.replies[i].stored
      ensures i in ss[n].landed
    {
      assert Confirmed(k, i) && Responded(ss[n].routines[i]);
    }
  }

  /** A server that answers stores the document exactly if its answer is no error. */
  ghost predicate Truthful(k: Call)
    requires ValidCall(k)
  {
    forall i | 0 <= i < |k.users| && k.replies[i].err.None? :: k.replies[i].stored <==> !k.replies[i].isError
  }

  /** The index shows every user of the call as it was sent. */
  ghost predicate AllIndexed(k: Call, s: State)
    requires ValidCall(k)
  {
    forall i | 0 <= i < |k.users| ::
      i in s.landed && k.users[i].id in s.index && Describes(s.index[k.users[i].id], k.users[i])
  }

  /** Create returns nil even if the server refused a document. So every user is in
      the index after a nil result exactly if no answer was an error. */
  lemma NilMeansIndexedExactly(k: Call, ss: seq<State>, index: map<string, Document>, n: nat)
    requires ValidCall(k) && IsRun(k, ss, index) && n < |ss| && FirstFailure(k) == |k.users|
    requires Truthful(k) && SameIdSameDocument(k) && ss[n].main == Returned(None)
    ensures AllIndexed(k, ss[n]) <==> forall i | 0 <= i < |k.users| :: !k.replies[i].isError
  {
    NilIsSettled(k, ss, index, n);
    FanOutResult(k, ss, index, n);
    RunInv(k, ss, index);
    RunIndex(k, ss, index);
    forall i | 0 <= i < |k.users|
      ensures Describes(DocumentOf(k.users[i]), k.users[i])
    {
      DocumentExactly(DocumentOf(k.users[i]), k.users[i]);
    }
    LandedIsIndexed(k, ss[n], index);
  }

  lemma LandedIsIndexed(k: Call, s: State, index: map<string, Document>)
    requires ValidCall(k) && LandingInv(k, s) && IndexInv(k, s, index) && Settled(k, s)
    requires forall i | 0 <= i < |k.users| :: Describes(DocumentOf(k.users[i]), k.users[i])
    ensures AllIndexed(k, s) <==> forall i | 0 <= i < |k.users| :: k.replies[i].stored
  {
  }

  lemma IndexDetermined(k: Call, s: State, u: State, index: map<string, Document>)
    requires ValidCall(k) && IndexInv(k, s, index) && IndexInv(k, u, index) && s.landed == u.landed
    ensures s.index == u.index
  {
    forall id
      ensures id in s.index <==> id in u.index
      ensures id in s.index ==> u.index[id] == s.index[id]
    {
      if Written(k, s.landed, id) {
        var i: nat :| i in s.landed && i < |k.users| && k.users[i].id == id;
      }
    }
  }

  /** Whatever the schedule, the index ends the same. */
  lemma IndexIsScheduleFree(k: Call, ss: seq<State>, us: seq<State>, index: map<string, Document>)
    requires ValidCall(k) && SameIdSameDocument(k)
    requires IsSettledRun(k, ss, index) && IsSettledRun(k, us, index)
    ensures ss[|ss| - 1].index == us[|us| - 1].index
  {
    RunInv(k, ss, index);
    RunInv(k, us, index);
    RunIndex(k, ss, index);
    RunIndex(k, us, index);
    var s, u := ss[|ss| - 1], us[|us| - 1];
    assert s.landed == u.landed;
    IndexDetermined(k, s, u, index);
  }

  lemma RunAppend(k: Call, ss: seq<State>, t: Step, index: map<string, Document>)
    requires ValidCall(k) && IsRun(k, ss, index)
    requires |ss[|ss| - 1].routines| == |k.users| && Enabled(k, ss[|ss| - 1], t)
    ensures IsRun(k, ss + [Do(k, ss[|ss| - 1], t)], index)
  {
  }

  lemma SettledKeepsIndex(k: Call, s: State, t: Step)
    requires ValidCall(k) && |s.routines| == |k.users| && Settled(k, s) && Enabled(k, s, t)
    ensures Settled(k, Do(k, s, t)) && Do(k, s, t).index == s.index
  {
  }

  /** Something can happen until Create has returned and everything has landed. */
  lemma SettlingStep(k: Call, s: State) returns (t: Step)
    requires ValidCall(k) && Inv(k, s) && FirstFailure(k) == |k.users|
    requires !(s.main.Returned? && Settled(k, s))
    ensures Enabled(k, s, t)
  {
    if s.main.Returned? {
      var i :| 0 <= i < |k.users| && k.replies[i].stored && i !in s.landed;
      t := Land(i);
    } else {
      t := Progress(k, s);
    }
  }

  /** From any state of a run, some schedule leads to the return of Create and to
      the landing of everything. */
  lemma {:induction false} Finishes(k: Call, ss: seq<State>, index: map<string, Document>) returns (us: seq<State>)
    requires ValidCall(k) && IsRun(k, ss, index) && FirstFailure(k) == |k.users|
    ensures IsSettledRun(k, us, index)
    ensures Settled(k, ss[|ss| - 1]) ==> us[|us| - 1].index == ss[|ss| - 1].index
    decreases Rank(k, ss[|ss| - 1])
  {
    hide Do, Enabled, Rank, ArrivalInv, LandingInv, FirstFailure, Settled;
    var s := ss[|ss| - 1];
    RunInv(k, ss, index);
    if s.main.Returned? && Settled(k, s) {
      us := ss;
    } else {
      var t := SettlingStep(k, s);
      StepLowersRank(k, s, t);
      RunAppend(k, ss, t, index);
      if Settled(k, s) {
        SettledKeepsIndex(k, s, t);
      }
      us := Finishes(k, ss + [Do(k, s, t)], index);
    }
  }

  /** Request i may land after all the others. */
  lemma {:induction false} LandsLast(k: Call, ss: seq<State>, index: map<string, Document>, i: nat)
    returns (us: seq<State>)
    requires ValidCall(k) && IsRun(k, ss, index) && FirstFailure(k) == |k.users|
    requires i < |k.users| && k.replies[i].stored && i !in ss[|ss| - 1].landed
    ensures IsRun(k, us, index) && Settled(k, us[|us| - 1])
    ensures var u := us[|us| - 1];
            k.users[i].id in u.index && u.index[k.users[i].id] == DocumentOf(k.users[i])
    decreases Rank(k, ss[|ss| - 1])
  {
    var s := ss[|ss| - 1];
    RunInv(k, ss, index);
    var t: Step;
    if s.main.Spawning? {
      t := if s.main.next == |k.users| then StartCloser else Spawn;
    } else if j :| 0 <= j < |k.users| && j != i && k.replies[j].stored && j !in s.landed {
      t := Land(j);
    } else {
      RunAppend(k, ss, Land(i), index);
      us := ss + [Do(k, s, Land(i))];
      return;
    }
    StepLowersRank(k, s, t);
    RunAppend(k, ss, t, index);
    us := LandsLast(k, ss + [Do(k, s, t)], index, i);
  }

  lemma LastLandingWins(k: Call, index: map<string, Document>, i: nat) returns (us: seq<State>)
    requires ValidCall(k) && FirstFailure(k) == |k.users| && i < |k.users| && k.replies[i].stored
    ensures IsSettledRun(k, us, index)
    ensures var u := us[|us| - 1];
            k.users[i].id in u.index && u.index[k.users[i].id] == DocumentOf(k.users[i])
  {
    var s := State(Spawning(0), seq(|k.users|, _ => Unborn), Absent, 0, None, [], {}, index);
    us := LandsLast(k, [s], index, i);
    us := Finishes(k, us, index);
  }

  /** All settled runs of the call end with one index. */
  ghost predicate ScheduleFree(k: Call, index: map<string, Document>)
    requires ValidCall(k)
  {
    forall ss: seq<State>, us: seq<State> | IsSettledRun(k, ss, index) && IsSettledRun(k, us, index) ::
      ss[|ss| - 1].index == us[|us| - 1].index
  }

  lemma NoConflictIsFree(k: Call, index: map<string, Document>)
    requires ValidCall(k) && SameIdSameDocument(k)
    ensures ScheduleFree(k, index)
  {
    forall ss: seq<State>, us: seq<State> | IsSettledRun(k, ss, index) && IsSettledRun(k, us, index)
      ensures ss[|ss| - 1].index == us[|us| - 1].index
    {
      IndexIsScheduleFree(k, ss, us, index);
    }
  }

  lemma ConflictShows(k: Call, index: map<string, Document>, i: nat, j: nat)
    requires ValidCall(k) && FirstFailure(k) == |k.users| && i < |k.users| && j < |k.users|
    requires k.replies[i].stored && k.replies[j].stored
    requires k.users[i].id == k.users[j].id && DocumentOf(k.users[i]) != DocumentOf(k.users[j])
    ensures !ScheduleFree(k, index)
  {
    var ss := LastLandingWins(k, index, i);
    var us := LastLandingWins(k, index, j);
    assert ss[|ss| - 1].index != us[|us| - 1].index;
  }

  /** The index does not depend on the schedule exactly when no two stored
      requests of the batch carry different documents for one id. */
  lemma IndexIsScheduleFreeExactly(k: Call, index: map<string, Document>)
    requires ValidCall(k) && FirstFailure(k) == |k.users|
    ensures ScheduleFree(k, index) <==> SameIdSameDocument(k)
  {
    hide ScheduleFree, FirstFailure;
    if SameIdSameDocument(k) {
      NoConflictIsFree(k, index);
    } else {
      var i, j :| 0 <= i < |k.users| && 0 <= j < |k.users| && k.replies[i].stored && k.replies[j].stored
                  && k.users[i].id == k.users[j].id && DocumentOf(k.users[i]) != DocumentOf(k.users[j]);
      ConflictShows(k, index, i, j);
    }
  }

  lemma OneUserIndex(k: Call, s: State, index: map<string, Document>)
    requires ValidCall(k) && |k.users| == 1 && IndexInv(k, s, index) && LandingInv(k, s)
    ensures var u := k.users[0];
            s.index == if 0 in s.landed then index[u.id := DocumentOf(u)] else index
  {
    forall id
      ensures Written(k, s.landed, id) <==> 0 in s.landed && id == k.users[0].id
    {
    }
  }

  /** The consumer's calls have one user. For those the whole protocol comes down
      to one write: its error is the request's; the index has the document exactly
      if the request has landed; and without an error it has, if it ever will. */
  lemma OneUserIsOneWrite(k: Call, ss: seq<State>, index: map<string, Document>, n: nat)
    requires ValidCall(k) && |k.users| == 1 && FirstFailure(k) == 1
    requires IsRun(k, ss, index) && n < |ss| && ss[n].main.Returned?
    ensures var s, u := ss[n], k.users[0];
            && s.main.err == k.replies[0].err
            && s.index == (if 0 in s.landed then index[u.id := DocumentOf(u)] else index)
            && (s.main.err.None? ==> (0 in s.landed <==> k.replies[0].stored))
  {
    RunInv(k, ss, index);
    RunIndex(k, ss, index);
    OneUserIndex(k, ss[n], index);
    OneArrival(k, ss, index, n);
    if ss[n].main.err.None? {
      NilIsSettled(k, ss, index, n);
    }
  }

  lemma OneArrival(k: Call, ss: seq<State>, index: map<string, Document>, n: nat)
    requires ValidCall(k) && |k.users| == 1 && FirstFailure(k) == 1
    requires IsRun(k, ss, index) && n < |ss| && ss[n].main.Returned?
    ensures ss[n].main.err == k.replies[0].err
  {
    FanOutSafety(k, ss, index, n);
    RunInv(k, ss, index);
    assert ss[n].arrivals == [0];
    assert Arrived(k, ss[n].arrivals) == [k.replies[0]];
    AggregateOne(k.replies[0]);
  }

  lemma AggregateOne(r: Reply)
    ensures Aggregate([r]) == r.err
  {
  }
}
