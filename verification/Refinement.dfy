/** The consumer loops are a way for the projection system to run. Any number of
    them, in any groups, interleaved action by action with one another and with
    everything else that happens, take only steps the system allows; so whatever
    holds of every run of the system holds of every such interleaving. */
module Refinement {
  import opened Users
  import opened Processor
  import opened Projection
  import opened Guarantees
  import opened Consumers

  // -------------------------------------------------- what the code does

  /** What handling the message of d comes down to once it was fetched, in the
      order of the code: process it, and only then commit it. A value too short to
      decode ends the process, and with it everything the consumer has. */
  function Actions(c: nat, d: Delivery): seq<Work> {
    var a := d.answers;
    var processing :=
      match DutyOf(d.msg.payload)
      case Nothing => [Pass(c)]
      case Impossible => [Fail(c)]
      case Fatal => [Reassign(c, {}, true)]
      case Upsert(_) =>
        [Send(c)] + (if a.write.landed then [Land(d.msg.place)] else [])
        + [if a.write.err.None? then Ack(c) else Fail(c)];
    if MayCommit(d) then processing + [if a.commit.landed then Commit(c, a.rewind) else CommitLost(c)]
    else processing
  }

  /** a is one of the actions of consumer c for d. */
  predicate IsAction(c: nat, d: Delivery, a: Work) {
    var duty := DutyOf(d.msg.payload);
    match a
    case Pass(c') => c' == c && duty.Nothing?
    case Send(c') => c' == c && duty.Upsert?
    case Land(pl) => pl == d.msg.place && duty.Upsert?
    case Ack(c') => c' == c && duty.Upsert? && d.answers.write.err.None?
    case Fail(c') => c' == c && CanFail(duty)
    case Reassign(c', parts, crashed) => c' == c && parts == {} && crashed && duty.Fatal?
    case Commit(c', _) => c' == c
    case CommitLost(c') => c' == c
    case _ => false
  }

  /** a' can come right after a: an answer to a request that landed, if it was to
      land; a commit after a success, and only then. */
  predicate Follows(d: Delivery, a: Work, a': Work) {
    && (a.Pass? || a.Ack? <==> a'.Commit? || a'.CommitLost?)
    && !a.Fail? && !a.Commit? && !a.CommitLost? && !a.Reassign?
    && (a'.Land? ==> a.Send?)
    && (a'.Ack? ==> a.Land? || (a.Send? && !d.answers.write.landed))
  }

  lemma ActionsAreOrdered(c: nat, d: Delivery, i: nat)
    requires i < |Actions(c, d)|
    ensures IsAction(c, d, Actions(c, d)[i])
    ensures i + 1 < |Actions(c, d)| ==> Follows(d, Actions(c, d)[i], Actions(c, d)[i + 1])
  {
  }

  /** What one of them changes outside the process. */
  function Effect(w: World, d: Delivery, a: Work): World {
    var duty, pl := DutyOf(d.msg.payload), d.msg.place;
    match a
    case Send(_) => if duty.Upsert? then w.(calls := w.calls + [CreateCall(duty.user)]) else w
    case Land(_) => if duty.Upsert? then w.(users := w.users[duty.user.id := duty.user]) else w
    case Commit(_, rewind) =>
      w.(committed := CommitTo(w.committed, pl, rewind), calls := w.calls + [CommitCall(pl.p, pl.o)])
    case CommitLost(_) => w.(calls := w.calls + [CommitCall(pl.p, pl.o)])
    case _ => w
  }

  function EffectsFrom(w: World, c: nat, d: Delivery, i: nat): World
    decreases |Actions(c, d)| - i
  {
    if i >= |Actions(c, d)| then w else EffectsFrom(Effect(w, d, Actions(c, d)[i]), c, d, i + 1)
  }

  /** With nothing in between, the actions do what the loop body does, and make its
      requests in its order. */
  lemma ActionsAreHandle(w: World, c: nat, d: Delivery)
    ensures EffectsFrom(w, c, d, 0) == Handle(w, d)
  {
    var a := Actions(c, d);
    var w1 := Effect(w, d, a[0]);
    assert EffectsFrom(w, c, d, 0) == EffectsFrom(w1, c, d, 1);
    if |a| > 1 {
      var w2 := Effect(w1, d, a[1]);
      assert EffectsFrom(w1, c, d, 1) == EffectsFrom(w2, c, d, 2);
      if |a| > 2 {
        var w3 := Effect(w2, d, a[2]);
        assert EffectsFrom(w2, c, d, 2) == EffectsFrom(w3, c, d, 3);
        if |a| > 3 {
          assert EffectsFrom(w3, c, d, 3) == EffectsFrom(Effect(w3, d, a[3]), c, d, 4);
        }
      }
    }
  }

  // ------------------------------------------ loops and everything else

  /** A loop that is handling a message: the delivery and how many of its actions
      are behind it. */
  datatype Task = Task(d: Delivery, did: nat)

  /** tasks: the busy loops, by group and consumer. */
  datatype Config = Config(s: State, tasks: map<(nat, nat), Task>)

  /** A loop fetches a message or takes its next action; or something else happens. */
  datatype Label = Begin(g: nat, c: nat, d: Delivery) | Continue(g: nat, c: nat) | Other(t: Step)

  /** Consumer c of group g is idle and the message of d is the next it fetches. */
  ghost predicate Next(s: State, g: nat, c: nat, d: Delivery) {
    && g < |s.groups| && |s.groups[g].committed| == |s.logs|
    && CanAdvance(s.logs, s.groups[g], c, d.msg.place.p)
    && s.groups[g].consumers[c].position[d.msg.place.p] == d.msg.place.o
    && At(s.logs, d.msg.place).payload == d.msg.payload
    && d.msg.place !in s.compacted
  }

  /** Only a lossy store says nil to a write it did not keep. */
  predicate Honest(lossy: bool, d: Delivery) {
    lossy || d.answers.write.err.Some? || d.answers.write.landed
  }

  /** Not up to the loops: rows, records, compaction; writes that land late or
      again; what a reader skips; rebalances and crashes, at any time. */
  predicate OutsideLoops(t: Step) {
    t.Act? ==> t.w.Land? || t.w.SkipHole? || t.w.Reassign?
  }

  /** A label says nothing about whether the system allows a loop's action. */
  ghost predicate Legal(k: Config, l: Label) {
    match l
    case Begin(g, c, d) => (g, c) !in k.tasks && Next(k.s, g, c, d) && Honest(k.s.groups[g].lossy, d)
    case Continue(g, c) => (g, c) in k.tasks && k.tasks[(g, c)].did < |Actions(c, k.tasks[(g, c)].d)|
    case Other(t) => OutsideLoops(t) && Allowed(k.s, t)
  }

  ghost function StepOf(k: Config, l: Label): Step
    requires Legal(k, l)
  {
    match l
    case Begin(g, c, d) => Act(g, Fetch(c, d.msg.place.p))
    case Continue(g, c) => Act(g, Actions(c, k.tasks[(g, c)].d)[k.tasks[(g, c)].did])
    case Other(t) => t
  }

  /** A task ends with its last action, or with its process. */
  ghost function TasksAfter(k: Config, l: Label): map<(nat, nat), Task>
    requires Legal(k, l)
  {
    match l
    case Begin(g, c, d) => k.tasks[(g, c) := Task(d, 0)]
    case Continue(g, c) =>
      var Task(d, did) := k.tasks[(g, c)];
      if did + 1 < |Actions(c, d)| then k.tasks[(g, c) := Task(d, did + 1)] else k.tasks - {(g, c)}
    case Other(t) => if t.Act? && t.w.Reassign? && t.w.crashed then k.tasks - {(t.g, t.w.c)} else k.tasks
  }

  ghost function Moved(k: Config, l: Label): Config {
    if Legal(k, l) then Config(After(k.s, StepOf(k, l)), TasksAfter(k, l)) else k
  }

  ghost predicate IsInterleaving(k: Config, ls: seq<Label>)
    decreases |ls|
  {
    ls == [] || (Legal(k, ls[0]) && IsInterleaving(Moved(k, ls[0]), ls[1..]))
  }

  ghost function ConfigAfter(k: Config, ls: seq<Label>): Config
    decreases |ls|
  {
    if ls == [] then k else ConfigAfter(Moved(k, ls[0]), ls[1..])
  }

  ghost function StepsOf(k: Config, ls: seq<Label>): seq<Step>
    requires IsInterleaving(k, ls)
    decreases |ls|
  {
    if ls == [] then [] else [StepOf(k, ls[0])] + StepsOf(Moved(k, ls[0]), ls[1..])
  }

  // ------------------------------------------------- where a loop stands

  /** Consumer c of group k, handling d, is about to take action a. */
  ghost predicate Stage(logs: Logs, k: Group, c: nat, d: Delivery, a: Work) {
    var pl := d.msg.place;
    && |k.committed| == |logs| && Honest(k.lossy, d)
    && Holds(k, c) && Held(k, c).place == pl && InLog(logs, pl) && At(logs, pl).payload == d.msg.payload
    && (Held(k, c).done <==> a.Commit? || a.CommitLost?)
    && (a.Land? || a.Ack? ==> pl in k.sent)
    && (a.Ack? && d.answers.write.landed ==> pl in k.stored)
  }

  ghost predicate TaskInv(s: State, g: nat, c: nat, task: Task) {
    && g < |s.groups| && task.did < |Actions(c, task.d)|
    && Stage(s.logs, s.groups[g], c, task.d, Actions(c, task.d)[task.did])
  }

  ghost predicate ConfigInv(k: Config) {
    forall g, c | (g, c) in k.tasks :: TaskInv(k.s, g, c, k.tasks[(g, c)])
  }

  /** The system allows whatever a loop does next. */
  lemma ActionIsEnabled(logs: Logs, compacted: set<Place>, k: Group, c: nat, d: Delivery, a: Work)
    requires IsAction(c, d, a) && Stage(logs, k, c, d, a)
    ensures Enabled(logs, compacted, k, a)
  {
  }

  lemma NextStage(logs: Logs, compacted: set<Place>, k: Group, c: nat, d: Delivery, a: Work, a': Work)
    requires IsAction(c, d, a) && IsAction(c, d, a') && Follows(d, a, a')
    requires Stage(logs, k, c, d, a) && Enabled(logs, compacted, k, a)
    ensures Stage(logs, Do(logs, compacted, k, a), c, d, a')
  {
  }

  lemma FirstStage(logs: Logs, compacted: set<Place>, k: Group, c: nat, d: Delivery)
    requires |k.committed| == |logs| && Honest(k.lossy, d) && Enabled(logs, compacted, k, Fetch(c, d.msg.place.p))
    requires k.consumers[c].position[d.msg.place.p] == d.msg.place.o
    requires InLog(logs, d.msg.place) && At(logs, d.msg.place).payload == d.msg.payload
    ensures |Actions(c, d)| > 0
    ensures Stage(logs, Do(logs, compacted, k, Fetch(c, d.msg.place.p)), c, d, Actions(c, d)[0])
  {
  }

  /** Nobody else moves a loop on. */
  lemma StageStays(s: State, s': State, k: Group, k': Group, c: nat, d: Delivery, a: Work)
    requires Extends(s, s') && Grows(k, k') && |k'.committed| == |k.committed|
    requires Stage(s.logs, k, c, d, a) && Holds(k', c) && Held(k', c) == Held(k, c)
    ensures Stage(s'.logs, k', c, d, a)
  {
    ExtensionKeepsRecords(s, s', d.msg.place);
  }

  /** Step t leaves consumer c of group g with the message it holds. */
  predicate LeavesMessage(t: Step, g: nat, c: nat) {
    t.Act? && t.g == g ==> t.w.Land? || t.w.c != c || t.w.Send? || (t.w.Reassign? && !t.w.crashed)
  }

  lemma WorkLeavesMessage(logs: Logs, compacted: set<Place>, k: Group, w: Work, c: nat)
    requires Enabled(logs, compacted, k, w) && Holds(k, c)
    requires w.Land? || w.c != c || w.Send? || (w.Reassign? && !w.crashed)
    ensures var k' := Do(logs, compacted, k, w);
            |k'.committed| == |k.committed| && Holds(k', c) && Held(k', c) == Held(k, c)
  {
  }

  lemma MessageStays(s: State, t: Step, g: nat, c: nat)
    requires g < |s.groups| && Holds(s.groups[g], c) && LeavesMessage(t, g, c)
    ensures var k := After(s, t).groups[g];
            && |k.committed| == |s.groups[g].committed|
            && Holds(k, c) && Held(k, c) == Held(s.groups[g], c)
  {
    if t.Act? && t.g == g && Allowed(s, t) {
      WorkLeavesMessage(s.logs, s.compacted, s.groups[g], t.w, c);
    }
  }

  lemma TaskStays(s: State, t: Step, g: nat, c: nat, task: Task)
    requires TaskInv(s, g, c, task) && LeavesMessage(t, g, c)
    ensures TaskInv(After(s, t), g, c, task)
  {
    StepExtends(s, t);
    StepGrows(s, t, g);
    MessageStays(s, t, g, c);
    StageStays(s, After(s, t), s.groups[g], After(s, t).groups[g], c, task.d, Actions(c, task.d)[task.did]);
  }

  lemma LegalIsAllowed(k: Config, l: Label)
    requires ConfigInv(k) && Legal(k, l)
    ensures Allowed(k.s, StepOf(k, l))
  {
    if l.Continue? {
      var task := k.tasks[(l.g, l.c)];
      assert TaskInv(k.s, l.g, l.c, task);
      ActionsAreOrdered(l.c, task.d, task.did);
      ActionIsEnabled(k.s.logs, k.s.compacted, k.s.groups[l.g], l.c, task.d, Actions(l.c, task.d)[task.did]);
    }
  }

  /** The loop that moved is where its code says. */
  lemma MoverInv(k: Config, l: Label)
    requires ConfigInv(k) && Legal(k, l) && Allowed(k.s, StepOf(k, l)) && !l.Other?
    requires (l.g, l.c) in TasksAfter(k, l)
    ensures TaskInv(After(k.s, StepOf(k, l)), l.g, l.c, TasksAfter(k, l)[(l.g, l.c)])
  {
    hide Actions, Stage, Enabled, Do;
    var logs, compacted, group := k.s.logs, k.s.compacted, k.s.groups[l.g];
    if l.Begin? {
      FirstStage(logs, compacted, group, l.c, l.d);
    } else {
      var Task(d, i) := k.tasks[(l.g, l.c)];
      assert TaskInv(k.s, l.g, l.c, Task(d, i));
      ActionsAreOrdered(l.c, d, i);
      ActionsAreOrdered(l.c, d, i + 1);
      NextStage(logs, compacted, group, l.c, d, Actions(l.c, d)[i], Actions(l.c, d)[i + 1]);
    }
  }

  /** Its step is about its own message. */
  lemma ActionsAreOwn(k: Config, l: Label, g: nat, c: nat)
    requires ConfigInv(k) && Legal(k, l)
    requires (g, c) in TasksAfter(k, l) && (l.Other? || (g, c) != (l.g, l.c))
    ensures (g, c) in k.tasks && TasksAfter(k, l)[(g, c)] == k.tasks[(g, c)] && LeavesMessage(StepOf(k, l), g, c)
  {
    assert TaskInv(k.s, g, c, k.tasks[(g, c)]);
    if l.Continue? {
      ActionsAreOrdered(l.c, k.tasks[(l.g, l.c)].d, k.tasks[(l.g, l.c)].did);
    }
  }

  lemma MoveKeepsConfig(k: Config, l: Label)
    requires ConfigInv(k) && Legal(k, l)
    ensures Allowed(k.s, StepOf(k, l)) && ConfigInv(Moved(k, l)) && |Moved(k, l).s.groups| == |k.s.groups|
  {
    LegalIsAllowed(k, l);
    forall g, c | (g, c) in TasksAfter(k, l)
      ensures TaskInv(After(k.s, StepOf(k, l)), g, c, TasksAfter(k, l)[(g, c)])
    {
      if !l.Other? && (g, c) == (l.g, l.c) {
        MoverInv(k, l);
      } else {
        ActionsAreOwn(k, l, g, c);
        TaskStays(k.s, StepOf(k, l), g, c, k.tasks[(g, c)]);
      }
    }
  }

  // ---------------------------------------------------------- the refinement

  lemma {:induction false} RunConcat(s: State, a: seq<Step>, b: seq<Step>)
    requires IsRun(s, a) && IsRun(StateAfter(s, a), b)
    ensures IsRun(s, a + b) && StateAfter(s, a + b) == StateAfter(StateAfter(s, a), b)
  {
    hide Allowed, After;
    if b == [] {
      assert a + b == a;
    } else {
      var n := |b| - 1;
      RunConcat(s, a, b[..n]);
      RunAppend(s, a + b[..n], b[n]);
      assert a + b == a + b[..n] + [b[n]];
    }
  }

  lemma OneStep(s: State, t: Step)
    requires Allowed(s, t)
    ensures IsRun(s, [t]) && StateAfter(s, [t]) == After(s, t)
  {
    RunAppend(s, [], t);
    assert [] + [t] == [t];
  }

  /** Every interleaving of any number of loops with one another and with all
      else is a run of the system, step by step. */
  lemma {:induction false} InterleavingIsARun(k: Config, ls: seq<Label>)
    requires ConfigInv(k) && IsInterleaving(k, ls)
    ensures IsRun(k.s, StepsOf(k, ls)) && StateAfter(k.s, StepsOf(k, ls)) == ConfigAfter(k, ls).s
    ensures ConfigInv(ConfigAfter(k, ls))
    decreases |ls|
  {
    if ls != [] {
      var t := StepOf(k, ls[0]);
      MoveKeepsConfig(k, ls[0]);
      InterleavingIsARun(Moved(k, ls[0]), ls[1..]);
      OneStep(k.s, t);
      RunConcat(k.s, [t], StepsOf(Moved(k, ls[0]), ls[1..]));
    }
  }

  /** So at every moment of every interleaving each group shows only users of the
      table, and has committed nothing beyond the log. */
  lemma InterleavingIsSafe(s0: State, ls: seq<Label>, g: nat)
    requires Init(s0) && g < |s0.groups| && IsInterleaving(Config(s0, map[]), ls)
    ensures var s := ConfigAfter(Config(s0, map[]), ls).s;
            && |s.groups| == |s0.groups| && |s.groups[g].committed| == |s.logs|
            && Submap(s.groups[g].view, Image(s.source))
            && forall p | 0 <= p < |s.logs| :: s.groups[g].committed[p] <= |s.logs[p]|
  {
    var k := Config(s0, map[]);
    InterleavingIsARun(k, ls);
    GroupsStay(s0, StepsOf(k, ls));
    ReachedInv(s0, StepsOf(k, ls), g);
    ProjectionSafety(s0, StepsOf(k, ls), g);
  }

  // --------------------------------------------------- what the stores see

  /** What the program can see of a group: its view and its committed offsets. */
  ghost predicate Shows(g: Group, w: World) {
    && g.view == w.users
    && forall p | 0 <= p < |g.committed| :: g.committed[p] == CommittedAt(w.committed, p)
  }

  /** w, with the view and the offsets as they are now. */
  ghost function See(w: World, g: Group): World {
    w.(users := g.view, committed := map p | 0 <= p < |g.committed| :: g.committed[p])
  }

  /** A loop's action changes the stores as its code says, from whatever others
      have made of them in the meantime. */
  lemma ActionShows(logs: Logs, compacted: set<Place>, k: Group, c: nat, d: Delivery, a: Work, w: World)
    requires IsAction(c, d, a) && Stage(logs, k, c, d, a) && Shows(k, w) && Enabled(logs, compacted, k, a)
    ensures Shows(Do(logs, compacted, k, a), Effect(w, d, a))
  {
  }

  /** The stores of group g after a label: a loop of g acts on them, and whatever
      else happens to them is seen. */
  ghost function WorldMoved(k: Config, l: Label, g: nat, w: World): World
    requires Legal(k, l) && g < |k.s.groups|
  {
    if l.Other? then See(w, Moved(k, l).s.groups[g])
    else if l.Continue? && l.g == g then Effect(w, k.tasks[(g, l.c)].d, StepOf(k, l).w)
    else w
  }

  ghost function WorldAfter(k: Config, ls: seq<Label>, g: nat, w: World): World
    requires IsInterleaving(k, ls) && g < |k.s.groups|
    decreases |ls|
  {
    if ls == [] then w else WorldAfter(Moved(k, ls[0]), ls[1..], g, WorldMoved(k, ls[0], g, w))
  }

  lemma MoveShows(k: Config, l: Label, g: nat, w: World)
    requires ConfigInv(k) && Legal(k, l) && g < |k.s.groups| && Shows(k.s.groups[g], w)
    ensures Shows(Moved(k, l).s.groups[g], WorldMoved(k, l, g, w))
  {
    LegalIsAllowed(k, l);
    if l.Continue? && l.g == g {
      var task := k.tasks[(g, l.c)];
      assert TaskInv(k.s, g, l.c, task);
      ActionsAreOrdered(l.c, task.d, task.did);
      ActionShows(k.s.logs, k.s.compacted, k.s.groups[g], l.c, task.d, Actions(l.c, task.d)[task.did], w);
    }
  }

  lemma {:induction false} InterleavingShows(k: Config, ls: seq<Label>, g: nat, w: World)
    requires ConfigInv(k) && IsInterleaving(k, ls) && g < |k.s.groups| && Shows(k.s.groups[g], w)
    ensures g < |ConfigAfter(k, ls).s.groups| && Shows(ConfigAfter(k, ls).s.groups[g], WorldAfter(k, ls, g, w))
    decreases |ls|
  {
    hide Legal, Moved, StepOf, ConfigInv, WorldMoved, Shows;
    if ls != [] {
      MoveKeepsConfig(k, ls[0]);
      MoveShows(k, ls[0], g, w);
      InterleavingShows(Moved(k, ls[0]), ls[1..], g, WorldMoved(k, ls[0], g, w));
    }
  }

  // ---------------------------------------------- one loop among the others

  function Continues(g: nat, c: nat, n: nat): seq<Label> {
    if n == 0 then [] else [Continue(g, c)] + Continues(g, c, n - 1)
  }

  /** One turn of the loop: a message handled with nothing in between. */
  function Handling(g: nat, c: nat, d: Delivery): seq<Label> {
    [Begin(g, c, d)] + Continues(g, c, |Actions(c, d)|)
  }

  lemma ContinueTask(k: Config, g: nat, c: nat, d: Delivery, i: nat, w: World)
    requires ConfigInv(k) && g < |k.s.groups| && i < |Actions(c, d)|
    requires (g, c) in k.tasks && k.tasks[(g, c)] == Task(d, i)
    ensures var l := Continue(g, c);
            && Legal(k, l) && ConfigInv(Moved(k, l)) && |Moved(k, l).s.groups| == |k.s.groups|
            && WorldMoved(k, l, g, w) == Effect(w, d, Actions(c, d)[i])
            && Moved(k, l).tasks - {(g, c)} == k.tasks - {(g, c)}
            && (if i + 1 < |Actions(c, d)|
                then (g, c) in Moved(k, l).tasks && Moved(k, l).tasks[(g, c)] == Task(d, i + 1)
                else Moved(k, l).tasks == k.tasks - {(g, c)})
  {
    hide Actions, Effect;
    MoveKeepsConfig(k, Continue(g, c));
  }

  lemma {:induction false} FinishTask(k: Config, g: nat, c: nat, d: Delivery, i: nat, w: World)
    requires ConfigInv(k) && g < |k.s.groups| && i < |Actions(c, d)|
    requires (g, c) in k.tasks && k.tasks[(g, c)] == Task(d, i)
    ensures var ls := Continues(g, c, |Actions(c, d)| - i);
            && IsInterleaving(k, ls) && ConfigAfter(k, ls).tasks == k.tasks - {(g, c)}
            && WorldAfter(k, ls, g, w) == EffectsFrom(w, c, d, i)
    decreases |Actions(c, d)| - i
  {
    hide Legal, Moved, ConfigInv, WorldMoved, Actions, Effect;
    var l := Continue(g, c);
    var n := |Actions(c, d)| - i;
    ContinueTask(k, g, c, d, i, w);
    assert Continues(g, c, n)[1..] == Continues(g, c, n - 1);
    if n > 1 {
      FinishTask(Moved(k, l), g, c, d, i + 1, Effect(w, d, Actions(c, d)[i]));
    } else {
      assert Continues(g, c, 0) == [];
    }
  }

  lemma BeginTask(k: Config, g: nat, c: nat, d: Delivery)
    requires ConfigInv(k) && Legal(k, Begin(g, c, d))
    ensures ConfigInv(Moved(k, Begin(g, c, d))) && |Moved(k, Begin(g, c, d)).s.groups| == |k.s.groups|
    ensures Moved(k, Begin(g, c, d)).tasks == k.tasks[(g, c) := Task(d, 0)]
    ensures 0 < |Actions(c, d)| && g < |k.s.groups| && (g, c) !in k.tasks
  {
    MoveKeepsConfig(k, Begin(g, c, d));
  }

  lemma BeginFirst(k: Config, l: Label, rest: seq<Label>, g: nat, w: World)
    requires l.Begin? && g < |k.s.groups| && Legal(k, l) && IsInterleaving(Moved(k, l), rest)
    requires |Moved(k, l).s.groups| == |k.s.groups|
    ensures IsInterleaving(k, [l] + rest) && ConfigAfter(k, [l] + rest) == ConfigAfter(Moved(k, l), rest)
    ensures WorldAfter(k, [l] + rest, g, w) == WorldAfter(Moved(k, l), rest, g, w)
  {
    assert ([l] + rest)[1..] == rest;
  }

  /** A message handled without interruption, at any moment of any interleaving:
      the system allows it, and the stores change as the loop body changes them. */
  lemma HandleIsARun(k: Config, g: nat, c: nat, d: Delivery, w: World)
    requires ConfigInv(k) && Legal(k, Begin(g, c, d))
    ensures IsInterleaving(k, Handling(g, c, d)) && ConfigAfter(k, Handling(g, c, d)).tasks == k.tasks
    ensures WorldAfter(k, Handling(g, c, d), g, w) == Handle(w, d)
  {
    hide Legal, Moved, StepOf, TasksAfter, Actions, Effect, ConfigInv, Handle;
    BeginTask(k, g, c, d);
    FinishTask(Moved(k, Begin(g, c, d)), g, c, d, 0, w);
    BeginFirst(k, Begin(g, c, d), Continues(g, c, |Actions(c, d)|), g, w);
    ActionsAreHandle(w, c, d);
    assert k.tasks[(g, c) := Task(d, 0)] - {(g, c)} == k.tasks;
  }

  // ------------------------------------------ what a message leaves behind

  predicate Ends(a: Work) {
    a.Fail? || a.Commit? || a.CommitLost? || a.Reassign?
  }

  /** What an action enters in the books of its group. */
  lemma ActionBooks(logs: Logs, compacted: set<Place>, k: Group, c: nat, d: Delivery, a: Work)
    requires IsAction(c, d, a) && Stage(logs, k, c, d, a) && Enabled(logs, compacted, k, a)
    ensures var k' := Do(logs, compacted, k, a);
            && c < |k'.consumers|
            && k'.failed == (if a.Fail? then k.failed + {d.msg.place} else k.failed)
            && k'.acked == (if a.Ack? then k.acked + {d.msg.place} else k.acked)
            && (Ends(a) ==> k'.consumers[c].inFlight.None?)
  {
  }

  /** Processing ended in an error; it created the user; or the process is gone. */
  predicate ProcessingFails(d: Delivery) {
    var m := d.msg.payload;
    || m.Garbled? || m.Unmapped?
    || (m.Change? && !LooksNull(m.event.before) && !SameAfterConversion(m.event.before, m.event.after))
    || (m.Change? && LooksNull(m.event.before) && !LooksNull(m.event.after) && d.answers.write.err.Some?)
  }

  predicate ProcessingCreates(d: Delivery) {
    var m := d.msg.payload;
    m.Change? && LooksNull(m.event.before) && !LooksNull(m.event.after) && d.answers.write.err.None?
  }

  /** What the actions from i on enter. */
  predicate FailsFrom(c: nat, d: Delivery, i: nat) {
    exists j :: i <= j < |Actions(c, d)| && Actions(c, d)[j].Fail?
  }

  predicate AcksFrom(c: nat, d: Delivery, i: nat) {
    exists j :: i <= j < |Actions(c, d)| && Actions(c, d)[j].Ack?
  }

  lemma ActionsEnd(c: nat, d: Delivery)
    ensures |Actions(c, d)| > 0 && Ends(Actions(c, d)[|Actions(c, d)| - 1])
    ensures FailsFrom(c, d, 0) <==> ProcessingFails(d)
    ensures AcksFrom(c, d, 0) <==> ProcessingCreates(d)
  {
    DutyExactly(d.msg.payload);
    var a := Actions(c, d);
    var n := if DutyOf(d.msg.payload).Upsert? && d.answers.write.landed then 2 else 1;
    if DutyOf(d.msg.payload).Impossible? {
      assert a[0].Fail?;
    }
    if DutyOf(d.msg.payload).Upsert? {
      assert if d.answers.write.err.None? then a[n].Ack? else a[n].Fail?;
    }
  }

  lemma OneBook(k: Config, g: nat, c: nat, d: Delivery, i: nat)
    requires ConfigInv(k) && g < |k.s.groups| && i < |Actions(c, d)|
    requires (g, c) in k.tasks && k.tasks[(g, c)] == Task(d, i)
    ensures var a, r, r' := Actions(c, d)[i], k.s.groups[g], Moved(k, Continue(g, c)).s.groups;
            && |r'| == |k.s.groups| && c < |r'[g].consumers|
            && r'[g].failed == (if a.Fail? then r.failed + {d.msg.place} else r.failed)
            && r'[g].acked == (if a.Ack? then r.acked + {d.msg.place} else r.acked)
            && (Ends(a) ==> r'[g].consumers[c].inFlight.None?)
  {
    hide Actions, IsAction, Stage, Enabled, Ends;
    assert TaskInv(k.s, g, c, k.tasks[(g, c)]);
    LegalIsAllowed(k, Continue(g, c));
    ActionsAreOrdered(c, d, i);
    ActionBooks(k.s.logs, k.s.compacted, k.s.groups[g], c, d, Actions(c, d)[i]);
  }

  lemma {:induction false} BooksFrom(k: Config, g: nat, c: nat, d: Delivery, i: nat)
    requires ConfigInv(k) && g < |k.s.groups| && i < |Actions(c, d)|
    requires (g, c) in k.tasks && k.tasks[(g, c)] == Task(d, i)
    requires Ends(Actions(c, d)[|Actions(c, d)| - 1])
    ensures var r, k' := k.s.groups[g], ConfigAfter(k, Continues(g, c, |Actions(c, d)| - i));
            && g < |k'.s.groups| && c < |k'.s.groups[g].consumers|
            && k'.s.groups[g].consumers[c].inFlight.None?
            && k'.s.groups[g].failed == (if FailsFrom(c, d, i) then r.failed + {d.msg.place} else r.failed)
            && k'.s.groups[g].acked == (if AcksFrom(c, d, i) then r.acked + {d.msg.place} else r.acked)
    decreases |Actions(c, d)| - i
  {
    hide Legal, Moved, ConfigInv, Actions, Ends;
    var n, w := |Actions(c, d)| - i, World(map[], map[], []);
    ContinueTask(k, g, c, d, i, w);
    OneBook(k, g, c, d, i);
    assert Continues(g, c, n)[1..] == Continues(g, c, n - 1);
    assert FailsFrom(c, d, i) <==> Actions(c, d)[i].Fail? || FailsFrom(c, d, i + 1);
    assert AcksFrom(c, d, i) <==> Actions(c, d)[i].Ack? || AcksFrom(c, d, i + 1);
    if n > 1 {
      BooksFrom(Moved(k, Continue(g, c)), g, c, d, i + 1);
    } else {
      assert Continues(g, c, 0) == [];
    }
  }

  /** Once a message was handled its consumer is idle again. The message is booked
      as failed exactly if its processing returned an error, and then that error is
      what the loop logs; as acknowledged exactly if it created a user. */
  lemma HandlingIsBooked(k: Config, g: nat, c: nat, d: Delivery)
    requires ConfigInv(k) && Legal(k, Begin(g, c, d))
    ensures g < |k.s.groups|
    ensures var r, k' := k.s.groups[g], ConfigAfter(k, Handling(g, c, d));
            && g < |k'.s.groups| && c < |k'.s.groups[g].consumers|
            && k'.s.groups[g].consumers[c].inFlight.None?
            && k'.s.groups[g].failed == (if ProcessingFails(d) then r.failed + {d.msg.place} else r.failed)
            && k'.s.groups[g].acked == (if ProcessingCreates(d) then r.acked + {d.msg.place} else r.acked)
    ensures ProcessingFails(d) ==>
              var m := d.msg.payload;
              LineOf(d) == [Error(if m.Garbled? then "could not decode msg"
                                  else if m.Unmapped? then "mapstructure: cannot decode"
                                  else if LooksNull(m.event.before) then d.answers.write.err.value
                                  else "not implemented")]
  {
    hide Legal, Moved, ConfigInv, Actions, FailsFrom, AcksFrom, LineOf;
    var l := Begin(g, c, d);
    BeginTask(k, g, c, d);
    BeginBooks(k, g, c, d);
    ActionsEnd(c, d);
    BooksFrom(Moved(k, l), g, c, d, 0);
    assert Handling(g, c, d)[0] == l && Handling(g, c, d)[1..] == Continues(g, c, |Actions(c, d)|);
    if ProcessingFails(d) {
      FailureIsLogged(d);
    }
  }

  lemma BeginBooks(k: Config, g: nat, c: nat, d: Delivery)
    requires Legal(k, Begin(g, c, d))
    ensures var r' := Moved(k, Begin(g, c, d)).s.groups;
            && |r'| == |k.s.groups|
            && r'[g].failed == k.s.groups[g].failed && r'[g].acked == k.s.groups[g].acked
  {
  }

  lemma FailureIsLogged(d: Delivery)
    requires ProcessingFails(d)
    ensures var m := d.msg.payload;
            LineOf(d) == [Error(if m.Garbled? then "could not decode msg"
                                else if m.Unmapped? then "mapstructure: cannot decode"
                                else if LooksNull(m.event.before) then d.answers.write.err.value
                                else "not implemented")]
  {
    DutyExactly(d.msg.payload);
  }

  lemma {:induction false} InterleavingConcat(k: Config, a: seq<Label>, b: seq<Label>, g: nat, w: World)
    requires ConfigInv(k) && g < |k.s.groups| && IsInterleaving(k, a) && IsInterleaving(ConfigAfter(k, a), b)
    ensures IsInterleaving(k, a + b) && ConfigAfter(k, a + b) == ConfigAfter(ConfigAfter(k, a), b)
    ensures |ConfigAfter(k, a).s.groups| == |k.s.groups|
    ensures WorldAfter(k, a + b, g, w) == WorldAfter(ConfigAfter(k, a), b, g, WorldAfter(k, a, g, w))
    decreases |a|
  {
    hide Legal, Moved, StepOf, ConfigInv, WorldMoved;
    if a == [] {
      assert a + b == b;
    } else {
      assert (a + b)[1..] == a[1..] + b;
      MoveKeepsConfig(k, a[0]);
      InterleavingConcat(Moved(k, a[0]), a[1..], b, g, WorldMoved(k, a[0], g, w));
    }
  }

  /** What others do before the loop is handed its next message: the table, the
      logs, other loops, rebalances, whatever the system allows. */
  datatype Turn = Turn(others: seq<Label>, d: Delivery)

  function Script(g: nat, c: nat, turns: seq<Turn>): seq<Label>
    decreases |turns|
  {
    if turns == [] then [] else turns[0].others + Handling(g, c, turns[0].d) + Script(g, c, turns[1..])
  }

  /** In every turn others do what they can do, and then the loop is idle and the
      message is the next in a partition it has at that time. */
  ghost predicate Served(k: Config, g: nat, c: nat, turns: seq<Turn>)
    decreases |turns|
  {
    turns == [] ||
    (var k1 := ConfigAfter(k, turns[0].others);
     && IsInterleaving(k, turns[0].others) && Legal(k1, Begin(g, c, turns[0].d))
     && Served(ConfigAfter(k1, Handling(g, c, turns[0].d)), g, c, turns[1..]))
  }

  /** What the loop makes of the stores: each turn works on what it finds. */
  ghost function LoopWorld(k: Config, g: nat, c: nat, turns: seq<Turn>, w: World): World
    requires g < |k.s.groups| && Served(k, g, c, turns)
    decreases |turns|
  {
    if turns == [] then w
    else
      var k1 := ConfigAfter(k, turns[0].others);
      var k2 := ConfigAfter(k1, Handling(g, c, turns[0].d));
      GroupsRemain(k, turns[0].others);
      GroupsRemain(k1, Handling(g, c, turns[0].d));
      LoopWorld(k2, g, c, turns[1..], Handle(WorldAfter(k, turns[0].others, g, w), turns[0].d))
  }

  lemma {:induction false} GroupsRemain(k: Config, ls: seq<Label>)
    ensures |ConfigAfter(k, ls).s.groups| == |k.s.groups|
    decreases |ls|
  {
    if ls != [] {
      GroupsRemain(Moved(k, ls[0]), ls[1..]);
    }
  }

  /** Every run of one loop among any others is an interleaving, hence a run of
      the system, and leaves the stores as its turns do. */
  lemma {:induction false} LoopIsARun(k: Config, g: nat, c: nat, turns: seq<Turn>, w: World)
    requires ConfigInv(k) && g < |k.s.groups| && Shows(k.s.groups[g], w) && Served(k, g, c, turns)
    ensures IsInterleaving(k, Script(g, c, turns)) && IsRun(k.s, StepsOf(k, Script(g, c, turns)))
    ensures |ConfigAfter(k, Script(g, c, turns)).s.groups| == |k.s.groups|
    ensures Shows(ConfigAfter(k, Script(g, c, turns)).s.groups[g], LoopWorld(k, g, c, turns, w))
    decreases |turns|
  {
    if turns != [] {
      var t := turns[0];
      var k1 := ConfigAfter(k, t.others);
      var k2 := ConfigAfter(k1, Handling(g, c, t.d));
      InterleavingIsARun(k, t.others);
      InterleavingShows(k, t.others, g, w);
      var w1 := WorldAfter(k, t.others, g, w);
      HandleIsARun(k1, g, c, t.d, w1);
      InterleavingIsARun(k1, Handling(g, c, t.d));
      InterleavingShows(k1, Handling(g, c, t.d), g, w1);
      LoopIsARun(k2, g, c, turns[1..], Handle(w1, t.d));
      InterleavingConcat(k, t.others, Handling(g, c, t.d), g, w);
      InterleavingConcat(k, t.others + Handling(g, c, t.d), Script(g, c, turns[1..]), g, w);
    }
    InterleavingIsARun(k, Script(g, c, turns));
  }

  function DeliveriesOf(turns: seq<Turn>): seq<Delivery> {
    seq(|turns|, i requires 0 <= i < |turns| => turns[i].d)
  }

  /** When nothing comes between its messages either, the loop does exactly what
      the contract of Run says. */
  lemma {:induction false} UndisturbedLoopIsRun(k: Config, g: nat, c: nat, turns: seq<Turn>, w: World)
    requires g < |k.s.groups| && Served(k, g, c, turns)
    requires forall i | 0 <= i < |turns| :: turns[i].others == []
    ensures LoopWorld(k, g, c, turns, w) == HandleAll(w, DeliveriesOf(turns))
    decreases |turns|
  {
    hide Legal, Moved, StepOf, TasksAfter, Effect, Actions, Handle, Handling;
    if turns != [] {
      var t := turns[0];
      var k2 := ConfigAfter(k, Handling(g, c, t.d));
      assert t.others == [] && ConfigAfter(k, t.others) == k && WorldAfter(k, t.others, g, w) == w;
      GroupsRemain(k, Handling(g, c, t.d));
      UndisturbedLoopIsRun(k2, g, c, turns[1..], Handle(w, t.d));
      assert DeliveriesOf(turns)[1..] == DeliveriesOf(turns[1..]);
      HandleFirst(w, DeliveriesOf(turns));
    }
  }

  // ------------------------------------------------------- a worked example

  /** The insert event of a row at the start of partition 0, with a store and a
      broker that do what they are asked. */
  const ANN_DELIVERY :=
    Delivery(Message(FIRST, ANN_INSERT.payload), Answers(Outcome(true, None), Outcome(true, None), false))

  /** One consumer, assigned partition 0 from its start, holding nothing. */
  const ASSIGNED := ANN_STATE.(groups := [Solo(0, None, {}, 0)])

  /** A loop that is handed the message shows the user and has committed it. */
  lemma HandlingExample()
    ensures Served(Config(ASSIGNED, map[]), 0, 0, [Turn([], ANN_DELIVERY)])
    ensures var w := LoopWorld(Config(ASSIGNED, map[]), 0, 0, [Turn([], ANN_DELIVERY)], World(map[], map[], []));
            var user := User(UnixTime(0, 1_000_000), "a", "Ann", "Lee");
            w == World(map["a" := user], map[0 := 1], [CreateCall(user), CommitCall(0, 0)])
  {
    var k, turns := Config(ASSIGNED, map[]), [Turn([], ANN_DELIVERY)];
    var w := World(map[], map[], []);
    assert ConfigAfter(k, turns[0].others) == k;
    assert At(ANN_LOGS, FIRST) == ANN_INSERT;
    assert Legal(k, Begin(0, 0, ANN_DELIVERY));
    assert Served(ConfigAfter(k, Handling(0, 0, ANN_DELIVERY)), 0, 0, turns[1..]);
    UndisturbedLoopIsRun(k, 0, 0, turns, w);
    assert DeliveriesOf(turns) == [ANN_DELIVERY];
    HandleSnoc(w, [], ANN_DELIVERY);
    assert [] + [ANN_DELIVERY] == [ANN_DELIVERY];
    HandleChange(w, ANN_DELIVERY);
    CommitAskedExactly(w, ANN_DELIVERY);
  }

  // ------------------------------- what a consumer that is not rebalanced is handed

  /** l does not assign partitions anew to consumer c of group g. */
  predicate KeepsAssignment(l: Label, g: nat, c: nat) {
    !(l.Other? && l.t.Act? && l.t.g == g && l.t.w.Reassign? && l.t.w.c == c)
  }

  predicate AllKeepAssignment(ls: seq<Label>, g: nat, c: nat) {
    forall i | 0 <= i < |ls| :: KeepsAssignment(ls[i], g, c)
  }

  ghost predicate Exists(s: State, g: nat, c: nat) {
    g < |s.groups| && c < |s.groups[g].consumers|
  }

  ghost function Position(s: State, g: nat, c: nat): map<nat, nat>
    requires Exists(s, g, c)
  {
    s.groups[g].consumers[c].position
  }

  /** Every partition of after was there before, and the offset is not lower. */
  predicate Ahead(before: map<nat, nat>, after: map<nat, nat>) {
    forall p | p in after :: p in before && before[p] <= after[p]
  }

  lemma WorkAdvances(logs: Logs, compacted: set<Place>, k: Group, w: Work, c: nat)
    requires Enabled(logs, compacted, k, w) && c < |k.consumers|
    requires w.Reassign? && w.c == c ==> w.parts == {}
    ensures var k' := Do(logs, compacted, k, w);
            c < |k'.consumers| && Ahead(k.consumers[c].position, k'.consumers[c].position)
  {
  }

  lemma MoveAdvances(k: Config, l: Label, g: nat, c: nat)
    requires ConfigInv(k) && Legal(k, l) && KeepsAssignment(l, g, c) && Exists(k.s, g, c)
    ensures Exists(Moved(k, l).s, g, c) && Ahead(Position(k.s, g, c), Position(Moved(k, l).s, g, c))
  {
    LegalIsAllowed(k, l);
    if l.Continue? {
      ActionsAreOrdered(l.c, k.tasks[(l.g, l.c)].d, k.tasks[(l.g, l.c)].did);
    }
    var t := StepOf(k, l);
    if t.Act? && t.g == g {
      WorkAdvances(k.s.logs, k.s.compacted, k.s.groups[g], t.w, c);
    }
  }

  lemma {:induction false} InterleavingAdvances(k: Config, ls: seq<Label>, g: nat, c: nat)
    requires ConfigInv(k) && IsInterleaving(k, ls) && AllKeepAssignment(ls, g, c) && Exists(k.s, g, c)
    ensures Exists(ConfigAfter(k, ls).s, g, c)
    ensures Ahead(Position(k.s, g, c), Position(ConfigAfter(k, ls).s, g, c))
    decreases |ls|
  {
    hide Legal, Moved, ConfigInv, KeepsAssignment, Exists;
    if ls != [] {
      assert KeepsAssignment(ls[0], g, c);
      MoveKeepsConfig(k, ls[0]);
      MoveAdvances(k, ls[0], g, c);
      assert AllKeepAssignment(ls[1..], g, c);
      InterleavingAdvances(Moved(k, ls[0]), ls[1..], g, c);
    }
  }

  lemma {:induction false} ContinuesKeep(g: nat, c: nat, n: nat)
    ensures AllKeepAssignment(Continues(g, c, n), g, c)
  {
    if n > 0 {
      ContinuesKeep(g, c, n - 1);
    }
  }

  lemma BeginAdvances(k: Config, g: nat, c: nat, d: Delivery)
    requires Legal(k, Begin(g, c, d))
    ensures Exists(k.s, g, c) && Exists(Moved(k, Begin(g, c, d)).s, g, c)
    ensures var pl, before, after := d.msg.place, Position(k.s, g, c), Position(Moved(k, Begin(g, c, d)).s, g, c);
            pl.p in before && before[pl.p] == pl.o && after == before[pl.p := pl.o + 1]
  {
  }

  /** A turn moves its own partition beyond the message. */
  lemma HandlingAdvances(k: Config, g: nat, c: nat, d: Delivery)
    requires ConfigInv(k) && Legal(k, Begin(g, c, d))
    ensures IsInterleaving(k, Handling(g, c, d))
    ensures Exists(k.s, g, c) && Exists(ConfigAfter(k, Handling(g, c, d)).s, g, c)
    ensures var pl := d.msg.place;
            && pl.p in Position(k.s, g, c) && Position(k.s, g, c)[pl.p] == pl.o
            && Ahead(Position(k.s, g, c)[pl.p := pl.o + 1], Position(ConfigAfter(k, Handling(g, c, d)).s, g, c))
  {
    hide Legal, Moved, ConfigInv, Actions, Exists, AllKeepAssignment;
    var l, rest := Begin(g, c, d), Continues(g, c, |Actions(c, d)|);
    var w := World(map[], map[], []);
    BeginTask(k, g, c, d);
    BeginAdvances(k, g, c, d);
    FinishTask(Moved(k, l), g, c, d, 0, w);
    BeginFirst(k, l, rest, g, w);
    ContinuesKeep(g, c, |Actions(c, d)|);
    InterleavingAdvances(Moved(k, l), rest, g, c);
  }

  predicate KeepsPartitions(turns: seq<Turn>, g: nat, c: nat) {
    forall i | 0 <= i < |turns| :: AllKeepAssignment(turns[i].others, g, c)
  }

  /** Delivery d is at or after the position. */
  predicate AtOrAfter(position: map<nat, nat>, d: Delivery) {
    d.msg.place.p in position && position[d.msg.place.p] <= d.msg.place.o
  }

  lemma {:induction false} TurnsAscend(k: Config, g: nat, c: nat, turns: seq<Turn>)
    requires ConfigInv(k) && Exists(k.s, g, c) && Served(k, g, c, turns) && KeepsPartitions(turns, g, c)
    ensures forall j | 0 <= j < |turns| :: AtOrAfter(Position(k.s, g, c), turns[j].d)
    ensures forall i, j | 0 <= i < j < |turns| && turns[i].d.msg.place.p == turns[j].d.msg.place.p ::
              turns[i].d.msg.place.o < turns[j].d.msg.place.o
    decreases |turns|
  {
    hide Legal, ConfigInv, Handling, IsInterleaving, ConfigAfter, Exists, AllKeepAssignment;
    if turns != [] {
      var t, rest := turns[0], turns[1..];
      var k1 := ConfigAfter(k, t.others);
      var k2 := ConfigAfter(k1, Handling(g, c, t.d));
      assert AllKeepAssignment(t.others, g, c);
      InterleavingIsARun(k, t.others);
      InterleavingAdvances(k, t.others, g, c);
      HandlingAdvances(k1, g, c, t.d);
      InterleavingIsARun(k1, Handling(g, c, t.d));
      TurnsAscend(k2, g, c, rest);
      forall j | 0 < j < |turns|
        ensures AtOrAfter(Position(k1.s, g, c)[t.d.msg.place.p := t.d.msg.place.o + 1], turns[j].d)
      {
        assert rest[j - 1] == turns[j];
      }
      forall i, j | 0 < i < j < |turns| && turns[i].d.msg.place.p == turns[j].d.msg.place.p
        ensures turns[i].d.msg.place.o < turns[j].d.msg.place.o
      {
        assert rest[i - 1] == turns[i] && rest[j - 1] == turns[j];
      }
    }
  }

  /** A loop that starts where its partitions are committed and is not rebalanced is
      handed ascending offsets, whatever others do between its messages. So by
      MergingMakesNoDifference its commits need no merging. */
  lemma ServedIsAscending(k: Config, g: nat, c: nat, turns: seq<Turn>, w: World, p: nat)
    requires ConfigInv(k) && Exists(k.s, g, c) && Served(k, g, c, turns) && KeepsPartitions(turns, g, c)
    requires forall q | q in Position(k.s, g, c) :: CommittedAt(w.committed, q) <= Position(k.s, g, c)[q]
    ensures Ascending(w, DeliveriesOf(turns), p)
  {
    TurnsAscend(k, g, c, turns);
    forall j | 0 <= j < |turns|
      ensures CommittedAt(w.committed, turns[j].d.msg.place.p) <= turns[j].d.msg.place.o
    {
      assert AtOrAfter(Position(k.s, g, c), turns[j].d);
    }
  }

  /** From any moment of any interleaving on, and whatever others do, a loop leaves
      only users of the table in its view and commits nothing beyond the log. */
  lemma LoopIsSafe(s0: State, before: seq<Label>, g: nat, c: nat, turns: seq<Turn>, w: World)
    requires Init(s0) && g < |s0.groups| && IsInterleaving(Config(s0, map[]), before)
    requires var k := ConfigAfter(Config(s0, map[]), before);
             g < |k.s.groups| && Shows(k.s.groups[g], w) && Served(k, g, c, turns)
    ensures var k := ConfigAfter(Config(s0, map[]), before);
            var w', s := LoopWorld(k, g, c, turns, w), ConfigAfter(k, Script(g, c, turns)).s;
            && Submap(w'.users, Image(s.source))
            && forall p | 0 <= p < |s.logs| :: CommittedAt(w'.committed, p) <= |s.logs[p]|
  {
    var k0 := Config(s0, map[]);
    var k := ConfigAfter(k0, before);
    InterleavingIsARun(k0, before);
    LoopIsARun(k, g, c, turns, w);
    InterleavingConcat(k0, before, Script(g, c, turns), g, w);
    InterleavingIsSafe(s0, before + Script(g, c, turns), g);
  }

  lemma {:induction false} HandleFirst(w: World, ds: seq<Delivery>)
    requires ds != []
    ensures HandleAll(w, ds) == HandleAll(Handle(w, ds[0]), ds[1..])
  {
    var n := |ds| - 1;
    if n == 0 {
      assert HandleAll(w, ds[..0]) == w;
    } else {
      HandleFirst(w, ds[..n]);
      assert ds[..n][1..] == ds[1..][..n - 1];
    }
  }
}
