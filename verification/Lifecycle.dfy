/** internal/app/app.go, cmd/main.go and the closers of internal/bootstrap: start
    every component, wait for all of them, then close. */
module Lifecycle {
  import opened Users

  /** Spawned: eg.Go was called, but its goroutine has not begun to run yet. */
  datatype Component = NotStarted | Spawned | Running | Stopped(err: Option<string>)

  datatype Report = Report(i: nat, err: Option<string>)

  /** Main in App.Run (starting, waiting), then in the deferred App.Close. */
  datatype Main = Starting(next: nat) | Waiting | Closing(next: nat) | Exited | Crashed

  /** spawned, reports and closed are history, in order; eg.Go says nothing about the
      order in which the goroutines begin. */
  datatype State = State(
    main: Main,
    components: seq<Component>,
    firstErr: Option<string>,
    cancelled: bool,
    result: Option<string>,
    spawned: seq<nat>,
    reports: seq<Report>,
    closed: seq<nat>)

  /** nils[j]: element j of the closers is a nil io.Closer. */
  datatype App = App(components: nat, nils: seq<bool>)

  datatype Step =
    | Start
    | Begin(i: nat)
    | Wait
    | Stop(i: nat, err: Option<string>)
    | WaitReturns
    | CloseNext
    | Signal

  predicate Enabled(a: App, s: State, t: Step)
    requires |s.components| == a.components
  {
    match t
    case Start => s.main.Starting? && s.main.next < a.components
    case Begin(i) => i < a.components && s.components[i].Spawned?
    case Wait => s.main.Starting? && s.main.next == a.components
    case Stop(i, _) => i < a.components && s.components[i].Running?
    case WaitReturns => s.main.Waiting? && forall c | c in s.components :: c.Stopped?
    case CloseNext => s.main.Closing?
    case Signal => !s.main.Exited? && !s.main.Crashed?
  }

  function Do(a: App, s: State, t: Step): State
    requires |s.components| == a.components && Enabled(a, s, t)
  {
    match t
    case Start =>
      var i := s.main.next;
      s.(main := Starting(i + 1), components := s.components[i := Spawned], spawned := s.spawned + [i])
    case Begin(i) => s.(components := s.components[i := Running])
    case Wait => s.(main := Waiting)
    // errgroup keeps the first error and cancels the context at once
    case Stop(i, err) =>
      s.(components := s.components[i := Stopped(err)],
         reports := s.reports + [Report(i, err)],
         firstErr := if s.firstErr.None? then err else s.firstErr,
         cancelled := s.cancelled || (s.firstErr.None? && err.Some?))
    case WaitReturns => s.(main := Closing(0), result := s.firstErr, cancelled := true)
    case CloseNext =>
      var j := s.main.next;
      if j >= |a.nils| then s.(main := Exited)
      else if a.nils[j] then s.(main := Crashed)
      else s.(main := Closing(j + 1), closed := s.closed + [j])
    case Signal => s.(cancelled := true)
  }

  function Init(a: App): State {
    State(Starting(0), seq(a.components, _ => NotStarted), None, false, None, [], [], [])
  }

  ghost function StateAfter(a: App, ts: seq<Step>): (s: State)
    ensures |s.components| == a.components
  {
    if ts == [] then Init(a)
    else
      var s := StateAfter(a, ts[..|ts| - 1]);
      if Enabled(a, s, ts[|ts| - 1]) then Do(a, s, ts[|ts| - 1]) else s
  }

  // ------------------------------------------------------------- invariant

  function Range(n: nat): (r: seq<nat>)
    ensures |r| == n && forall i | 0 <= i < n :: r[i] == i
  {
    seq(n, i => i)
  }

  function FirstError(reports: seq<Report>): Option<string> {
    if reports == [] then None
    else
      var before := FirstError(reports[..|reports| - 1]);
      if before.Some? then before else reports[|reports| - 1].err
  }

  predicate Finished(m: Main) {
    m.Closing? || m.Exited? || m.Crashed?
  }

  /** Number of components main has started. */
  function Begun(a: App, s: State): nat {
    if s.main.Starting? then s.main.next else a.components
  }

  /** How many closers there are before the first nil one. */
  function BeforeNil(nils: seq<bool>): (n: nat)
    ensures n <= |nils|
    ensures forall j | 0 <= j < n :: !nils[j]
    ensures n < |nils| ==> nils[n]
  {
    if nils == [] || nils[0] then 0 else 1 + BeforeNil(nils[1..])
  }

  ghost predicate RunInv(a: App, s: State) {
    && |s.components| == a.components
    && (s.main.Starting? ==> s.main.next <= a.components)
    && s.spawned == Range(Begun(a, s))
    && (forall i | 0 <= i < a.components :: s.components[i].NotStarted? <==> Begun(a, s) <= i)
    && (Finished(s.main) ==> forall i | 0 <= i < a.components :: s.components[i].Stopped?)
  }

  ghost predicate ReportInv(a: App, s: State) {
    && s.firstErr == FirstError(s.reports)
    && (s.firstErr.Some? ==> s.cancelled)
    && Accounted(s.components, s.reports)
    && (Finished(s.main) ==> s.result == s.firstErr)
  }

  /** Every component that has stopped has reported once, with its error. */
  ghost predicate Accounted(components: seq<Component>, reports: seq<Report>) {
    && (forall k | 0 <= k < |reports| :: ReportedAs(components, reports[k]))
    && (forall i | 0 <= i < |components| && components[i].Stopped? :: i in Reporters(reports))
    && (forall k, l | 0 <= k < l < |reports| :: reports[k].i != reports[l].i)
  }

  /** The components that have reported. */
  function Reporters(reports: seq<Report>): set<nat> {
    if reports == [] then {} else Reporters(reports[..|reports| - 1]) + {reports[|reports| - 1].i}
  }

  predicate ReportedAs(components: seq<Component>, r: Report) {
    r.i < |components| && components[r.i] == Stopped(r.err)
  }

  ghost predicate CloseInv(a: App, s: State) {
    && (!Finished(s.main) ==> s.closed == [])
    && (s.main.Closing? ==> s.main.next <= BeforeNil(a.nils) && s.closed == Range(s.main.next))
    && (s.main.Exited? ==> BeforeNil(a.nils) == |a.nils| && s.closed == Range(|a.nils|))
    && (s.main.Crashed? ==> BeforeNil(a.nils) < |a.nils| && s.closed == Range(BeforeNil(a.nils)))
  }

  ghost predicate Inv(a: App, s: State) {
    RunInv(a, s) && ReportInv(a, s) && CloseInv(a, s)
  }

  lemma StepKeepsRun(a: App, s: State, t: Step)
    requires RunInv(a, s) && Enabled(a, s, t)
    ensures RunInv(a, Do(a, s, t))
  {
  }

  lemma OneMoreReport(reports: seq<Report>, r: Report)
    ensures Reporters(reports + [r]) == Reporters(reports) + {r.i}
    ensures FirstError(reports + [r]) == if FirstError(reports).Some? then FirstError(reports) else r.err
  {
    assert (reports + [r])[..|reports|] == reports;
  }

  lemma {:induction false} FindReport(reports: seq<Report>, i: nat) returns (k: nat)
    requires i in Reporters(reports)
    ensures k < |reports| && reports[k].i == i
  {
    if reports[|reports| - 1].i == i {
      k := |reports| - 1;
    } else {
      k := FindReport(reports[..|reports| - 1], i);
    }
  }

  lemma OthersKeepReports(components: seq<Component>, reports: seq<Report>, i: nat, c: Component)
    requires Accounted(components, reports) && i < |components| && !components[i].Stopped? && !c.Stopped?
    ensures Accounted(components[i := c], reports)
  {
    forall k | 0 <= k < |reports|
      ensures ReportedAs(components[i := c], reports[k])
    {
      assert ReportedAs(components, reports[k]);
    }
  }

  /** Reports stay true, because a stopped component stays as it is. */
  lemma StopKeepsReports(components: seq<Component>, reports: seq<Report>, i: nat, err: Option<string>)
    requires Accounted(components, reports) && i < |components| && components[i].Running?
    ensures Accounted(components[i := Stopped(err)], reports + [Report(i, err)])
  {
    forall k | 0 <= k < |reports|
      ensures ReportedAs(components[i := Stopped(err)], reports[k]) && reports[k].i != i
    {
      assert ReportedAs(components, reports[k]);
    }
    OneMoreReport(reports, Report(i, err));
  }

  lemma StepKeepsReports(a: App, s: State, t: Step)
    requires RunInv(a, s) && ReportInv(a, s) && Enabled(a, s, t)
    ensures ReportInv(a, Do(a, s, t))
  {
    hide Accounted, FirstError, Reporters;
    match t
    case Start =>
      OthersKeepReports(s.components, s.reports, s.main.next, Spawned);
    case Begin(i) =>
      OthersKeepReports(s.components, s.reports, i, Running);
    case Stop(i, err) =>
      StopKeepsReports(s.components, s.reports, i, err);
      OneMoreReport(s.reports, Report(i, err));
    case _ =>
  }

  lemma StepKeepsClosers(a: App, s: State, t: Step)
    requires RunInv(a, s) && CloseInv(a, s) && Enabled(a, s, t)
    ensures CloseInv(a, Do(a, s, t))
  {
  }

  lemma {:induction false} RunKeepsInv(a: App, ts: seq<Step>)
    ensures Inv(a, StateAfter(a, ts))
  {
    if ts != [] {
      var s, t := StateAfter(a, ts[..|ts| - 1]), ts[|ts| - 1];
      RunKeepsInv(a, ts[..|ts| - 1]);
      if Enabled(a, s, t) {
        StepKeepsRun(a, s, t);
        StepKeepsReports(a, s, t);
        StepKeepsClosers(a, s, t);
      }
    }
  }

  // ----------------------------------------------------------- what holds

  /** At any moment of any schedule: components were spawned in list order, each
      once; nothing has been closed unless every component has returned, and then
      in list order; and the first error to be reported has cancelled the rest. */
  lemma LifecycleSafety(a: App, ts: seq<Step>)
    ensures var s := StateAfter(a, ts);
            && (forall k | 0 <= k < |s.spawned| :: s.spawned[k] == k)
            && |s.spawned| <= a.components
            && (s.closed != [] ==> forall c | c in s.components :: c.Stopped?)
            && (forall k | 0 <= k < |s.closed| :: s.closed[k] == k)
            && (FirstError(s.reports).Some? ==> s.cancelled)
  {
    RunKeepsInv(a, ts);
  }

  /** When App.Run has returned, every component was started and has returned, one
      report each, and the result is the first error reported, nil if there was
      none. */
  lemma RunResult(a: App, ts: seq<Step>)
    requires Finished(StateAfter(a, ts).main)
    ensures var s := StateAfter(a, ts);
            && s.spawned == Range(a.components)
            && (forall i | 0 <= i < a.components ::
                  s.components[i].Stopped? && Report(i, s.components[i].err) in s.reports)
            && (forall k, l | 0 <= k < l < |s.reports| :: s.reports[k].i != s.reports[l].i)
            && s.result == FirstError(s.reports)
            && (s.result.None? <==> forall i | 0 <= i < a.components :: s.components[i] == Stopped(None))
  {
    RunKeepsInv(a, ts);
    var s := StateAfter(a, ts);
    FirstErrorMeaning(s.reports);
    forall r | r in s.reports
      ensures ReportedAs(s.components, r)
    {
      var k :| 0 <= k < |s.reports| && s.reports[k] == r;
    }
    forall i | 0 <= i < a.components
      ensures Report(i, s.components[i].err) in s.reports
    {
      var k := FindReport(s.reports, i);
      assert s.reports[k] in s.reports;
    }
  }

  lemma {:induction false} FirstErrorMeaning(reports: seq<Report>)
    ensures FirstError(reports).None? <==> forall r | r in reports :: r.err.None?
    ensures FirstError(reports).Some? ==>
              exists k :: 0 <= k < |reports| && reports[k].err == FirstError(reports)
                          && forall l | 0 <= l < k :: reports[l].err.None?
  {
    if reports != [] {
      var n := |reports| - 1;
      FirstErrorMeaning(reports[..n]);
      assert forall r :: r in reports <==> r in reports[..n] || r == reports[n];
      if FirstError(reports[..n]).Some? {
        var k :| 0 <= k < n && reports[..n][k].err == FirstError(reports[..n])
                 && forall l | 0 <= l < k :: reports[..n][l].err.None?;
        forall l | 0 <= l < k
          ensures reports[l].err.None?
        {
          assert reports[..n][l].err.None?;
        }
        assert reports[k].err == FirstError(reports);
      } else {
        forall l | 0 <= l < n
          ensures reports[l].err.None?
        {
          assert reports[..n][l] in reports[..n];
        }
      }
    }
  }

  /** The process ends with every closer closed exactly when none of them is nil;
      otherwise it crashes at the first nil, the later ones staying open. */
  lemma AllClosedExactly(a: App, ts: seq<Step>)
    requires StateAfter(a, ts).main.Exited? || StateAfter(a, ts).main.Crashed?
    ensures StateAfter(a, ts).main.Exited? <==> true !in a.nils
    ensures StateAfter(a, ts).main.Exited? <==> StateAfter(a, ts).closed == Range(|a.nils|)
    ensures StateAfter(a, ts).closed == Range(BeforeNil(a.nils))
  {
    RunKeepsInv(a, ts);
    var n := BeforeNil(a.nils);
    if n < |a.nils| {
      assert a.nils[n] in a.nils;
      assert |Range(n)| != |Range(|a.nils|)|;
    }
  }

  /** The program cannot get stuck but in a component that does not return; once
      all have, it is up to main alone. */
  lemma MainProgress(a: App, ts: seq<Step>) returns (t: Step)
    requires !StateAfter(a, ts).main.Exited? && !StateAfter(a, ts).main.Crashed?
    ensures !t.Signal? && Enabled(a, StateAfter(a, ts), t)
    ensures t.Stop? ==> StateAfter(a, ts).components[t.i].Running?
    ensures (forall c | c in StateAfter(a, ts).components :: c.Stopped?) ==> !t.Begin? && !t.Stop?
  {
    RunKeepsInv(a, ts);
    var s := StateAfter(a, ts);
    if s.main.Starting? {
      t := if s.main.next < a.components then Start else Wait;
    } else if s.main.Closing? {
      t := CloseNext;
    } else if i :| 0 <= i < a.components && s.components[i].Spawned? {
      t := Begin(i);
      assert s.components[i] in s.components;
    } else if i :| 0 <= i < a.components && s.components[i].Running? {
      t := Stop(i, None);
      assert s.components[i] in s.components;
    } else {
      t := WaitReturns;
    }
  }

  function ComponentRank(c: Component): nat {
    match c
    case NotStarted => 3
    case Spawned => 2
    case Running => 1
    case Stopped(_) => 0
  }

  function ComponentsRank(cs: seq<Component>): nat {
    if cs == [] then 0 else ComponentsRank(cs[..|cs| - 1]) + ComponentRank(cs[|cs| - 1])
  }

  lemma {:induction false} RankUpdate(cs: seq<Component>, i: nat, c: Component)
    requires i < |cs|
    ensures ComponentsRank(cs[i := c]) == ComponentsRank(cs) - ComponentRank(cs[i]) + ComponentRank(c)
  {
    var n := |cs| - 1;
    if i == n {
      assert cs[i := c][..n] == cs[..n];
    } else {
      RankUpdate(cs[..n], i, c);
      assert cs[i := c][..n] == cs[..n][i := c];
    }
  }

  lemma {:induction false} RankBound(cs: seq<Component>)
    ensures ComponentsRank(cs) <= 3 * |cs|
  {
    if cs != [] {
      RankBound(cs[..|cs| - 1]);
    }
  }

  function MainRank(a: App, m: Main): int {
    match m
    case Starting(_) => |a.nils| + 3
    case Waiting => |a.nils| + 2
    case Closing(j) => |a.nils| + 1 - j
    case Exited => 0
    case Crashed => 0
  }

  function Rank(a: App, s: State): int {
    ComponentsRank(s.components) + MainRank(a, s.main)
  }

  lemma StepLowersRank(a: App, s: State, t: Step)
    requires Inv(a, s) && Enabled(a, s, t) && Inv(a, Do(a, s, t))
    ensures 0 <= Rank(a, Do(a, s, t)) <= Rank(a, s)
    ensures !t.Signal? ==> Rank(a, Do(a, s, t)) < Rank(a, s)
  {
    hide ReportInv, ComponentsRank;
    match t
    case Start => RankUpdate(s.components, s.main.next, Spawned);
    case Begin(i) => RankUpdate(s.components, i, Running);
    case Stop(i, err) => RankUpdate(s.components, i, Stopped(err));
    case _ =>
  }

  /** Every step of ts was possible when its turn came. */
  ghost predicate IsRun(a: App, ts: seq<Step>) {
    forall i | 0 <= i < |ts| :: Enabled(a, StateAfter(a, ts[..i]), ts[i])
  }

  lemma RunExtends(a: App, ts: seq<Step>, t: Step)
    requires IsRun(a, ts) && Enabled(a, StateAfter(a, ts), t)
    ensures IsRun(a, []) && IsRun(a, ts + [t])
    ensures StateAfter(a, ts + [t]) == Do(a, StateAfter(a, ts), t)
  {
    var after := ts + [t];
    assert after[..|ts|] == ts;
    forall i | 0 <= i < |after|
      ensures Enabled(a, StateAfter(a, after[..i]), after[i])
    {
      if i < |ts| {
        assert after[..i] == ts[..i] && after[i] == ts[i];
      }
    }
  }

  /** The steps that are not interrupts. */
  function Work(ts: seq<Step>): nat {
    if ts == [] then 0 else Work(ts[..|ts| - 1]) + (if ts[|ts| - 1].Signal? then 0 else 1)
  }

  lemma CancelledByStep(a: App, s: State, t: Step)
    requires Inv(a, s) && (Finished(s.main) ==> s.cancelled) && Enabled(a, s, t)
    ensures Do(a, s, t).cancelled <==>
              s.cancelled || t.Signal? || Finished(Do(a, s, t).main) || FirstError(Do(a, s, t).reports).Some?
  {
    if t.Stop? {
      OneMoreReport(s.reports, Report(t.i, t.err));
    }
  }

  /** The components are told to stop exactly when one of them has reported an
      error, an interrupt came, or all have returned: one that returns nil does not
      stop the others. */
  lemma {:induction false} CancelledExactly(a: App, ts: seq<Step>)
    requires IsRun(a, ts)
    ensures StateAfter(a, ts).cancelled <==>
              || FirstError(StateAfter(a, ts).reports).Some?
              || Signal in ts
              || Finished(StateAfter(a, ts).main)
  {
    if ts != [] {
      var n := |ts| - 1;
      var s := StateAfter(a, ts[..n]);
      RunPrefix(a, ts);
      CancelledExactly(a, ts[..n]);
      RunKeepsInv(a, ts[..n]);
      CancelledByStep(a, s, ts[n]);
      StaysFinished(a, s, ts[n]);
      assert Signal in ts <==> Signal in ts[..n] || ts[n] == Signal;
    }
  }

  lemma StaysFinished(a: App, s: State, t: Step)
    requires Inv(a, s) && Enabled(a, s, t)
    ensures Finished(s.main) ==> Finished(Do(a, s, t).main)
    ensures FirstError(s.reports).Some? ==> FirstError(Do(a, s, t).reports).Some?
  {
    if t.Stop? {
      OneMoreReport(s.reports, Report(t.i, t.err));
    }
  }

  lemma RunPrefix(a: App, ts: seq<Step>)
    requires IsRun(a, ts) && ts != []
    ensures IsRun(a, ts[..|ts| - 1]) && Enabled(a, StateAfter(a, ts[..|ts| - 1]), ts[|ts| - 1])
  {
    var before := ts[..|ts| - 1];
    forall i | 0 <= i < |before|
      ensures Enabled(a, StateAfter(a, before[..i]), before[i])
    {
      assert before[..i] == ts[..i];
    }
  }

  lemma {:induction false} WorkIsBounded(a: App, ts: seq<Step>)
    requires IsRun(a, ts)
    ensures 0 <= Rank(a, StateAfter(a, ts))
    ensures Work(ts) + Rank(a, StateAfter(a, ts)) <= 3 * a.components + |a.nils| + 3
  {
    hide Do, Enabled, RunInv, ReportInv, CloseInv;
    RunKeepsInv(a, ts);
    if ts == [] {
      RankBound(Init(a).components);
    } else {
      var n := |ts| - 1;
      RunPrefix(a, ts);
      WorkIsBounded(a, ts[..n]);
      RunKeepsInv(a, ts[..n]);
      StepLowersRank(a, StateAfter(a, ts[..n]), ts[n]);
    }
  }

  /** Whatever the schedule, n components and m closers take at most 3n + m + 3
      steps, interrupts aside; and where nothing but an interrupt is possible, the
      process has ended. So it ends once every component returns. */
  lemma LifecycleEnds(a: App, ts: seq<Step>)
    requires IsRun(a, ts)
    ensures Work(ts) <= 3 * a.components + |a.nils| + 3
    ensures (forall t | Enabled(a, StateAfter(a, ts), t) :: t.Signal?)
            ==> StateAfter(a, ts).main.Exited? || StateAfter(a, ts).main.Crashed?
  {
    WorkIsBounded(a, ts);
    if !StateAfter(a, ts).main.Exited? && !StateAfter(a, ts).main.Crashed? {
      var t := MainProgress(a, ts);
    }
  }

  // -------------------------------------------------- where closers come from

  datatype Closer = Nil | Closer(name: string)

  /** addCloser: the variadic slice is looked at, its elements are not. None is a
      nil slice, which only a caller that spreads one can pass. */
  function AddCloser(closers: seq<Closer>, more: Option<seq<Closer>>): seq<Closer> {
    match more
    case None => closers
    case Some(cs) => closers + cs
  }

  const REDIS_CLIENT := Closer("redis")
  const SQL_DB := Closer("mysql")

  /** newUserStorage: the in-memory storage comes with a nil closer. */
  function StorageCloser(sql: bool): Closer {
    if sql then SQL_DB else Nil
  }

  /** The closers bootstrap.New collects: the Redis client, what newRouters
      collected, and the Kafka readers of newConsumers. */
  function BootstrapClosers(sql: bool, readers: seq<Closer>): seq<Closer> {
    var closers := AddCloser([], Some([REDIS_CLIENT]));
    var routers := AddCloser([], Some([StorageCloser(sql)]));
    AddCloser(AddCloser(closers, Some(routers)), if readers == [] then None else Some(readers))
  }

  function Nils(closers: seq<Closer>): seq<bool> {
    seq(|closers|, i requires 0 <= i < |closers| => closers[i].Nil?)
  }

  /** App.Close: an error of a closer is dropped, a nil closer is a panic. */
  method Close(closers: seq<Closer>) returns (closed: seq<nat>, crashed: bool)
    ensures closed == Range(BeforeNil(Nils(closers)))
    ensures crashed <==> Nil in closers
  {
    closed := [];
    ghost var nils := Nils(closers);
    for j := 0 to |closers|
      invariant closed == Range(j) && j <= BeforeNil(nils)
      invariant forall k | 0 <= k < j :: !closers[k].Nil?
    {
      assert nils[j] == closers[j].Nil?;
      if closers[j].Nil? {
        return closed, true;
      }
      closed := closed + [j];
    }
    crashed := false;
  }

  /** Which closers those are, one by one: nothing that bootstrap opens is left out
      but a storage that has no closer. */
  lemma BootstrapClosersExactly(sql: bool, readers: seq<Closer>)
    ensures var closers := BootstrapClosers(sql, readers);
            && |closers| == |readers| + 2
            && closers[0] == Closer("redis")
            && closers[1] == (if sql then Closer("mysql") else Nil)
            && forall i | 0 <= i < |readers| :: closers[i + 2] == readers[i]
  {
  }

  lemma NilsExactly(sql: bool, readers: seq<Closer>)
    requires Nil !in readers
    ensures var nils := Nils(BootstrapClosers(sql, readers));
            |nils| == |readers| + 2 && forall i | 0 <= i < |nils| :: nils[i] <==> i == 1 && !sql
  {
    BootstrapClosersExactly(sql, readers);
    forall i | 2 <= i < |readers| + 2
      ensures BootstrapClosers(sql, readers)[i] == readers[i - 2]
    {
    }
  }

  /** With users in MySQL, an application that has ended has closed the Redis client,
      the database and every Kafka reader. */
  lemma SqlClosesEverything(readers: seq<Closer>, components: nat, ts: seq<Step>)
    requires Nil !in readers
    requires var a := App(components, Nils(BootstrapClosers(true, readers)));
             StateAfter(a, ts).main.Exited? || StateAfter(a, ts).main.Crashed?
    ensures var a := App(components, Nils(BootstrapClosers(true, readers)));
            StateAfter(a, ts).main.Exited? && forall i | 0 <= i < |readers| + 2 :: i in StateAfter(a, ts).closed
  {
    var a := App(components, Nils(BootstrapClosers(true, readers)));
    NilsExactly(true, readers);
    AllClosedExactly(a, ts);
    forall i | 0 <= i < |a.nils|
      ensures i in Range(|a.nils|)
    {
      assert Range(|a.nils|)[i] == i;
    }
  }

  /** With the in-memory storage it closes the Redis client, crashes on the nil
      closer and leaves every reader open. */
  lemma MemoryStorageCrashesClose(readers: seq<Closer>, components: nat, ts: seq<Step>)
    requires Nil !in readers
    requires var a := App(components, Nils(BootstrapClosers(false, readers)));
             StateAfter(a, ts).main.Exited? || StateAfter(a, ts).main.Crashed?
    ensures var a := App(components, Nils(BootstrapClosers(false, readers)));
            StateAfter(a, ts).main.Crashed? && StateAfter(a, ts).closed == [0]
  {
    var a := App(components, Nils(BootstrapClosers(false, readers)));
    NilsExactly(false, readers);
    AllClosedExactly(a, ts);
    assert a.nils[1] in a.nils;
    assert BeforeNil(a.nils) == 1 by {
      assert !a.nils[0] && a.nils[1];
    }
    assert Range(1) == [0];
  }
}
