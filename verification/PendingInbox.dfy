/**
 The inbox entry of one held call. Two hooks hold a call: the gate before it runs, and the
 filesystem watch after it failed for want of access. Each looks at the entry first, writes it
 later and announces the new record after that. Resolving, aborting the turn and deleting the
 session remove the entry through one gate: a swap with null, whose prior value decides who
 announces the removal, then a delete of the null, then the announcement. The watch uses the
 same gate, without announcing, on an entry of another failure. All these steps interleave
 freely, and any of them may never come, because its process stopped.
 */
module PendingInbox {
  import opened Options

  datatype Kind = Function | Filesystem

  /** What an entry says: its kind, the turn's call it is for, and the access asked for. */
  datatype Content = Content(kind: Kind, call: string, request: string)

  /** Records are numbered as they are written. */
  datatype Cell = Absent | Null | Held(record: nat, content: Content)

  /**
   What is under way: a hook about to write or to clear a stale entry, a gate's delete with the
   record its swap took out, and the announcements.
   */
  datatype Task =
    | GatePut(call: string)
    | WatchSwap(call: string, request: string)
    | WatchDelete(call: string, request: string)
    | WatchPut(call: string, request: string)
    | GateDelete(taken: Option<nat>)
    | Resolved(record: nat)
    | Created(record: nat)

  /**
   The creation of a record is `arriving` while its announcement is to come, then `arrived`, or
   `missed` if it never comes. A record that was taken out is `leaving` while its announcement
   is to come, then `announced`, or `unsaid` if it never comes. Otherwise a follow-up approval
   `replaced` it, the watch cleared it as `stale`, or a late delete `lost` it.
   */
  datatype State = State(
    cell: Cell, created: nat, tasks: multiset<Task>,
    arriving: multiset<nat>, arrived: seq<nat>, missed: seq<nat>,
    leaving: multiset<nat>, announced: seq<nat>, unsaid: seq<nat>,
    replaced: seq<nat>, stale: seq<nat>, lost: seq<nat>)

  const START := State(Absent, 0, multiset{}, multiset{}, [], [], multiset{}, [], [], [], [], [])

  /** A delete that fails leaves the null and goes on; a task that gives up goes no further. */
  datatype Step =
    | GateLooks(call: string)
    | WatchLooks(call: string, request: string)
    | Swap
    | Runs(task: Task)
    | Fails(task: Task)
    | GivesUp(task: Task)

  /** What the watch does next, from the entry it sees. */
  function WatchTask(cell: Cell, call: string, request: string): multiset<Task> {
    if !cell.Held? then multiset{WatchPut(call, request)}
    else if cell.content.kind.Filesystem? && cell.content.request == request then multiset{}
    else if cell.content.kind.Function? && cell.content.call == call then multiset{WatchPut(call, request)}
    else multiset{WatchSwap(call, request)}
  }

  /** A follow-up filesystem approval written over a plain one is announced as new. */
  predicate Replaces(cell: Cell, kind: Kind) {
    cell.Held? && cell.content.kind.Function? && kind.Filesystem?
  }

  /** A new record in the cell, its announcement to come. */
  function Enter(s: State, content: Content): State {
    s.(cell := Held(s.created, content), created := s.created + 1,
       tasks := s.tasks + multiset{Created(s.created)}, arriving := s.arriving + multiset{s.created})
  }

  /** Writing the entry. A write over an entry is announced as new only if it replaces it. */
  function Put(s: State, content: Content): State {
    if !s.cell.Held? then Enter(s, content)
    else if Replaces(s.cell, content.kind) then Enter(s, content).(replaced := s.replaced + [s.cell.record])
    else s.(cell := Held(s.cell.record, content))
  }

  /** The late half of a gate: whatever is in the cell goes. */
  function Clear(s: State): State {
    s.(cell := Absent, lost := if s.cell.Held? then s.lost + [s.cell.record] else s.lost)
  }

  /** What follows a gate's delete, whether it succeeded or not. */
  function Then(task: Task): multiset<Task> {
    match task
    case GateDelete(Some(r)) => multiset{Resolved(r)}
    case WatchDelete(call, request) => multiset{WatchPut(call, request)}
    case _ => multiset{}
  }

  predicate Deletes(task: Task) { task.GateDelete? || task.WatchDelete? }

  /** The task is done with, and what follows it is to come. */
  function Done(s: State, task: Task): State {
    s.(tasks := s.tasks - multiset{task} + Then(task))
  }

  function Effect(s: State, task: Task): State {
    match task
    case GatePut(call) => Put(s, Content(Function, call, ""))
    case WatchPut(call, request) => Put(s, Content(Filesystem, call, request))
    case WatchSwap(call, request) => SwapStale(s, call, request)
    case WatchDelete(_, _) => Clear(s)
    case GateDelete(_) => Clear(s)
    case Resolved(r) => SayResolved(s, r)
    case Created(r) => SayCreated(s, r)
  }

  function RunTask(s: State, task: Task): State {
    Effect(Done(s, task), task)
  }

  function SwapStale(s: State, call: string, request: string): State {
    s.(cell := Null, tasks := s.tasks + multiset{WatchDelete(call, request)},
       stale := if s.cell.Held? then s.stale + [s.cell.record] else s.stale)
  }

  function SayResolved(s: State, r: nat): State {
    s.(leaving := s.leaving - multiset{r}, announced := s.announced + [r])
  }

  function SayCreated(s: State, r: nat): State {
    s.(arriving := s.arriving - multiset{r}, arrived := s.arrived + [r])
  }

  /** The record whose removal a task is to announce. */
  function Owes(task: Task): Option<nat> {
    match task
    case GateDelete(taken) => taken
    case Resolved(r) => Some(r)
    case _ => None
  }

  function StopTask(s: State, task: Task): State {
    var rest := s.(tasks := s.tasks - multiset{task});
    if Owes(task).Some? then
      rest.(leaving := s.leaving - multiset{Owes(task).value}, unsaid := s.unsaid + [Owes(task).value])
    else if task.Created? then
      rest.(arriving := s.arriving - multiset{task.record}, missed := s.missed + [task.record])
    else rest
  }

  function SwapOut(s: State): State {
    if s.cell.Held? then
      s.(cell := Null, tasks := s.tasks + multiset{GateDelete(Some(s.cell.record))},
         leaving := s.leaving + multiset{s.cell.record})
    else s.(cell := Null, tasks := s.tasks + multiset{GateDelete(None)})
  }

  function Next(s: State, step: Step): State {
    match step
    case GateLooks(call) => if s.cell.Held? then s else s.(tasks := s.tasks + multiset{GatePut(call)})
    case WatchLooks(call, request) => s.(tasks := s.tasks + WatchTask(s.cell, call, request))
    case Swap => SwapOut(s)
    case Runs(task) => if task in s.tasks then RunTask(s, task) else s
    case Fails(task) =>
      if task in s.tasks && Deletes(task) then Done(s, task) else s
    case GivesUp(task) => if task in s.tasks then StopTask(s, task) else s
  }

  function Run(steps: seq<Step>): State {
    if steps == [] then START else Next(Run(steps[..|steps| - 1]), steps[|steps| - 1])
  }

  // ------------------------------------------------------------ every record has one fate

  function Pending(s: State): nat { if s.cell.Held? then 1 else 0 }

  /** How often a record shows up among the announced, unsaid, replaced, stale, lost, leaving and pending ones. */
  function Fates(s: State, r: nat): nat {
    multiset(s.announced)[r] + multiset(s.unsaid)[r] + multiset(s.replaced)[r] + multiset(s.stale)[r]
    + multiset(s.lost)[r] + s.leaving[r] + (if s.cell.Held? && s.cell.record == r then 1 else 0)
  }

  /** How often its creation is announced, given up or to be announced. */
  function Births(s: State, r: nat): nat {
    multiset(s.arrived)[r] + multiset(s.missed)[r] + s.arriving[r]
  }

  lemma Counted(s: seq<nat>, x: nat, r: nat)
    ensures multiset(s + [x])[r] == multiset(s)[r] + (if x == r then 1 else 0)
  {
  }

  /** Removals to be announced are counted by the tasks that owe them; the record has one fate once written. */
  ghost predicate OneOut(s: State, r: nat) {
    && (s.cell.Held? ==> s.cell.record < s.created)
    && s.leaving[r] == s.tasks[GateDelete(Some(r))] + s.tasks[Resolved(r)]
    && Fates(s, r) == if r < s.created then 1 else 0
  }

  /** The same for its creation. */
  ghost predicate OneIn(s: State, r: nat) {
    && s.arriving[r] == s.tasks[Created(r)]
    && Births(s, r) == if r < s.created then 1 else 0
  }

  lemma EnterOut(s: State, content: Content, r: nat)
    requires OneOut(s, r) && !s.cell.Held?
    ensures OneOut(Enter(s, content), r)
  {
  }

  lemma ReplaceOut(s: State, content: Content, r: nat)
    requires OneOut(s, r) && s.cell.Held?
    ensures OneOut(Enter(s, content).(replaced := s.replaced + [s.cell.record]), r)
  {
    Counted(s.replaced, s.cell.record, r);
  }

  lemma PutOut(s: State, content: Content, r: nat)
    requires OneOut(s, r)
    ensures OneOut(Put(s, content), r)
  {
    if !s.cell.Held? { EnterOut(s, content, r); } else { ReplaceOut(s, content, r); }
  }

  lemma ClearOut(s: State, r: nat)
    requires OneOut(s, r)
    ensures OneOut(Clear(s), r)
  {
    if s.cell.Held? { Counted(s.lost, s.cell.record, r); }
  }

  /** A task done with, and what follows it in its place. */
  lemma ThenOut(s: State, task: Task, r: nat)
    requires OneOut(s, r) && task in s.tasks && !task.Resolved?
    ensures OneOut(Done(s, task), r)
  {
    FewerTasks(s.tasks, task, GateDelete(Some(r)));
    FewerTasks(s.tasks, task, Resolved(r));
    var left := s.tasks - multiset{task};
    assert Done(s, task).tasks[GateDelete(Some(r))] == left[GateDelete(Some(r))];
    assert Done(s, task).tasks[Resolved(r)] == left[Resolved(r)] + (if task == GateDelete(Some(r)) then 1 else 0);
  }

  /** Less of one, the others as before. */
  lemma FewerTasks(tasks: multiset<Task>, x: Task, y: Task)
    requires x in tasks
    ensures (tasks - multiset{x})[y] == tasks[y] - (if x == y then 1 else 0)
  {
  }

  lemma SaidFates(s: State, x: nat, r: nat)
    requires x == r ==> x in s.leaving
    ensures Fates(SayResolved(s, x), r) == Fates(s, r)
    ensures SayResolved(s, x).leaving[r] == s.leaving[r] - (if x == r then 1 else 0)
  {
    Counted(s.announced, x, r);
  }

  lemma ResolvedOut(s: State, x: nat, r: nat)
    requires OneOut(s, r) && Resolved(x) in s.tasks
    ensures OneOut(RunTask(s, Resolved(x)), r)
  {
    FewerTasks(s.tasks, Resolved(x), Resolved(r));
    FewerTasks(s.tasks, Resolved(x), GateDelete(Some(r)));
    SaidFates(Done(s, Resolved(x)), x, r);
  }

  lemma CreatedOut(s: State, x: nat, r: nat)
    requires OneOut(s, r)
    ensures OneOut(SayCreated(s, x), r)
  {
  }

  lemma SwappedOut(s: State, call: string, request: string, r: nat)
    requires OneOut(s, r)
    ensures OneOut(SwapStale(s, call, request), r)
  {
    if s.cell.Held? { Counted(s.stale, s.cell.record, r); }
  }

  lemma EffectOut(s: State, task: Task, r: nat)
    requires OneOut(s, r) && !task.Resolved?
    ensures OneOut(Effect(s, task), r)
  {
    match task
    case GatePut(call) => PutOut(s, Content(Function, call, ""), r);
    case WatchPut(call, request) => PutOut(s, Content(Filesystem, call, request), r);
    case WatchSwap(call, request) => SwappedOut(s, call, request, r);
    case WatchDelete(_, _) => ClearOut(s, r);
    case GateDelete(_) => ClearOut(s, r);
    case Created(x) => CreatedOut(s, x, r);
  }

  lemma TaskOut(s: State, task: Task, r: nat)
    requires OneOut(s, r) && task in s.tasks
    ensures OneOut(RunTask(s, task), r)
  {
    if task.Resolved? {
      ResolvedOut(s, task.record, r);
    } else {
      ThenOut(s, task, r);
      EffectOut(Done(s, task), task, r);
    }
  }

  lemma StopOut(s: State, task: Task, r: nat)
    requires OneOut(s, r) && task in s.tasks
    ensures OneOut(StopTask(s, task), r)
  {
    if Owes(task).Some? { Counted(s.unsaid, Owes(task).value, r); }
  }

  lemma LookOut(s: State, step: Step, r: nat)
    requires OneOut(s, r) && (step.GateLooks? || step.WatchLooks? || step.Swap?)
    ensures OneOut(Next(s, step), r)
  {
  }

  lemma NextOut(s: State, step: Step, r: nat)
    requires OneOut(s, r)
    ensures OneOut(Next(s, step), r)
  {
    match step
    case Runs(task) => if task in s.tasks { TaskOut(s, task, r); }
    case GivesUp(task) => if task in s.tasks { StopOut(s, task, r); }
    case Fails(task) => if task in s.tasks && Deletes(task) { ThenOut(s, task, r); }
    case _ => LookOut(s, step, r);
  }

  lemma PutIn(s: State, content: Content, r: nat)
    requires OneIn(s, r)
    ensures OneIn(Put(s, content), r)
  {
  }

  lemma CreatedIn(s: State, x: nat, r: nat)
    requires OneIn(s, r) && Created(x) in s.tasks
    ensures OneIn(RunTask(s, Created(x)), r)
  {
    Counted(s.arrived, x, r);
    var t := RunTask(s, Created(x));
    assert t.tasks[Created(r)] == s.tasks[Created(r)] - (if x == r then 1 else 0);
    assert t.arriving[r] == s.arriving[r] - (if x == r then 1 else 0);
  }

  lemma MissedIn(s: State, x: nat, r: nat)
    requires OneIn(s, r) && Created(x) in s.tasks
    ensures OneIn(StopTask(s, Created(x)), r)
  {
    Counted(s.missed, x, r);
    var t := StopTask(s, Created(x));
    assert t.tasks[Created(r)] == s.tasks[Created(r)] - (if x == r then 1 else 0);
    assert t.arriving[r] == s.arriving[r] - (if x == r then 1 else 0);
  }

  /** Whoever leaves these alone leaves the creation's announcement alone. */
  lemma SameIn(s: State, t: State, r: nat)
    requires OneIn(s, r) && t.created == s.created && t.tasks[Created(r)] == s.tasks[Created(r)]
    requires t.arriving == s.arriving && t.arrived == s.arrived && t.missed == s.missed
    ensures OneIn(t, r)
  {
  }

  lemma EffectIn(s: State, task: Task, r: nat)
    requires OneIn(s, r) && !task.Created?
    ensures OneIn(Effect(s, task), r)
  {
    match task
    case GatePut(call) => PutIn(s, Content(Function, call, ""), r);
    case WatchPut(call, request) => PutIn(s, Content(Filesystem, call, request), r);
    case _ => SameIn(s, Effect(s, task), r);
  }

  lemma TaskIn(s: State, task: Task, r: nat)
    requires OneIn(s, r) && task in s.tasks && !task.Created?
    ensures OneIn(RunTask(s, task), r)
  {
    SameIn(s, Done(s, task), r);
    EffectIn(Done(s, task), task, r);
  }

  lemma StopIn(s: State, task: Task, r: nat)
    requires OneIn(s, r) && task in s.tasks
    ensures OneIn(StopTask(s, task), r)
  {
    if task.Created? { MissedIn(s, task.record, r); } else { SameIn(s, StopTask(s, task), r); }
  }

  lemma NextIn(s: State, step: Step, r: nat)
    requires OneIn(s, r)
    ensures OneIn(Next(s, step), r)
  {
    match step
    case Runs(task) =>
      if task in s.tasks {
        if task.Created? { CreatedIn(s, task.record, r); } else { TaskIn(s, task, r); }
      }
    case GivesUp(task) => if task in s.tasks { StopIn(s, task, r); }
    case Fails(task) => FailsIn(s, task, r);
    case _ => LooksIn(s, step, r);
  }

  lemma FailsIn(s: State, task: Task, r: nat)
    requires OneIn(s, r)
    ensures OneIn(Next(s, Fails(task)), r)
  {
    SameIn(s, Next(s, Fails(task)), r);
  }

  lemma LooksIn(s: State, step: Step, r: nat)
    requires OneIn(s, r) && (step.GateLooks? || step.WatchLooks? || step.Swap?)
    ensures OneIn(Next(s, step), r)
  {
    SameIn(s, Next(s, step), r);
  }

  lemma {:induction false} RunKeeps(steps: seq<Step>, r: nat)
    ensures OneOut(Run(steps), r) && OneIn(Run(steps), r)
  {
    if steps != [] {
      RunKeeps(steps[..|steps| - 1], r);
      NextOut(Run(steps[..|steps| - 1]), steps[|steps| - 1], r);
      NextIn(Run(steps[..|steps| - 1]), steps[|steps| - 1], r);
    }
  }

  /**
   Whoever races and whoever stops, every record written has exactly one fate: its removal is
   announced once, or about to be, or its announcer stopped; a follow-up took its place, the
   watch cleared it, a late delete lost it, or it is still pending. And its creation is announced
   once, or about to be, or its announcer stopped.
   */
  lemma OneFate(steps: seq<Step>, r: nat)
    requires r < Run(steps).created
    ensures Fates(Run(steps), r) == 1 && Births(Run(steps), r) == 1
  {
    RunKeeps(steps, r);
  }

  // ------------------------------------------------------------ the numbers

  ghost predicate AddsUp(s: State) {
    && s.created == |s.announced| + |s.unsaid| + |s.replaced| + |s.stale| + |s.lost| + |s.leaving| + Pending(s)
    && s.created == |s.arrived| + |s.missed| + |s.arriving|
  }

  lemma PutAddsUp(s: State, content: Content)
    requires AddsUp(s)
    ensures AddsUp(Put(s, content))
  {
  }

  lemma SaidAddsUp(s: State, x: nat)
    requires AddsUp(s)
    ensures x in s.leaving ==> AddsUp(SayResolved(s, x))
    ensures x in s.arriving ==> AddsUp(SayCreated(s, x))
  {
  }

  lemma ClearAddsUp(s: State, call: string, request: string)
    requires AddsUp(s)
    ensures AddsUp(Clear(s)) && AddsUp(SwapStale(s, call, request))
  {
  }

  lemma EffectAddsUp(s: State, task: Task)
    requires AddsUp(s)
    requires task.Resolved? ==> task.record in s.leaving
    requires task.Created? ==> task.record in s.arriving
    ensures AddsUp(Effect(s, task))
  {
    match task
    case GatePut(call) => PutAddsUp(s, Content(Function, call, ""));
    case WatchPut(call, request) => PutAddsUp(s, Content(Filesystem, call, request));
    case WatchSwap(call, request) => ClearAddsUp(s, call, request);
    case WatchDelete(call, request) => ClearAddsUp(s, call, request);
    case GateDelete(_) => ClearAddsUp(s, "", "");
    case Resolved(x) => SaidAddsUp(s, x);
    case Created(x) => SaidAddsUp(s, x);
  }

  lemma StopAddsUp(s: State, task: Task)
    requires AddsUp(s) && task in s.tasks
    requires Owes(task).Some? ==> Owes(task).value in s.leaving
    requires task.Created? ==> task.record in s.arriving
    ensures AddsUp(StopTask(s, task))
  {
  }

  lemma NextAddsUp(s: State, step: Step)
    requires AddsUp(s)
    requires forall t :: t in s.tasks && Owes(t).Some? ==> Owes(t).value in s.leaving
    requires forall t :: t in s.tasks && t.Created? ==> t.record in s.arriving
    ensures AddsUp(Next(s, step))
  {
    match step
    case Runs(task) => if task in s.tasks { EffectAddsUp(Done(s, task), task); }
    case GivesUp(task) => if task in s.tasks { StopAddsUp(s, task); }
    case _ =>
  }

  /** And so the numbers add up. */
  lemma {:induction false} Conserved(steps: seq<Step>)
    ensures AddsUp(Run(steps))
  {
    if steps != [] {
      var init := steps[..|steps| - 1];
      Conserved(init);
      var s := Run(init);
      forall t | t in s.tasks && Owes(t).Some? ensures Owes(t).value in s.leaving { RunKeeps(init, Owes(t).value); }
      forall t | t in s.tasks && t.Created? ensures t.record in s.arriving { RunKeeps(init, t.record); }
      NextAddsUp(Run(init), steps[|steps| - 1]);
    }
  }

  // ------------------------------------------------------------ when an event never comes

  /**
   How an event never comes: a record goes by a late delete, under a follow-up or cleared as
   stale, or whoever was to announce its removal or its creation stops first.
   */
  datatype Silence = LateDelete | FollowUp | Cleared | Unsaid | Missed

  function Gone(s: State, how: Silence): seq<nat> {
    match how
    case LateDelete => s.lost
    case FollowUp => s.replaced
    case Cleared => s.stale
    case Unsaid => s.unsaid
    case Missed => s.missed
  }

  /** The step does that: it comes to an entry that is held, or a task that owes an event gives up. */
  predicate Silences(s: State, step: Step, how: Silence) {
    (step.Runs? || step.GivesUp?) && step.task in s.tasks &&
    match how
    case LateDelete => step.Runs? && s.cell.Held? && Deletes(step.task)
    case FollowUp => step.Runs? && Replaces(s.cell, Filesystem) && step.task.WatchPut?
    case Cleared => step.Runs? && s.cell.Held? && step.task.WatchSwap?
    case Unsaid => step.GivesUp? && Owes(step.task).Some?
    case Missed => step.GivesUp? && step.task.Created?
  }

  lemma PutSilence(s: State, content: Content, how: Silence)
    ensures |Gone(Put(s, content), how)| ==
      |Gone(s, how)| + (if how.FollowUp? && Replaces(s.cell, content.kind) then 1 else 0)
  {
  }

  lemma ClearSilence(s: State, call: string, request: string, how: Silence)
    ensures |Gone(Clear(s), how)| == |Gone(s, how)| + (if how.LateDelete? && s.cell.Held? then 1 else 0)
    ensures |Gone(SwapStale(s, call, request), how)| ==
      |Gone(s, how)| + (if how.Cleared? && s.cell.Held? then 1 else 0)
  {
  }

  lemma SaidSilence(s: State, x: nat, how: Silence)
    ensures Gone(SayResolved(s, x), how) == Gone(s, how) == Gone(SayCreated(s, x), how)
  {
  }

  /** What a task's effect does that way, at the entry it comes to. */
  lemma EffectSilence(s: State, task: Task, how: Silence)
    ensures |Gone(Effect(s, task), how)| == |Gone(s, how)| +
      (if || (how.LateDelete? && s.cell.Held? && Deletes(task))
          || (how.FollowUp? && Replaces(s.cell, Filesystem) && task.WatchPut?)
          || (how.Cleared? && s.cell.Held? && task.WatchSwap?) then 1 else 0)
  {
    match task
    case GatePut(call) => PutSilence(s, Content(Function, call, ""), how);
    case WatchPut(call, request) => PutSilence(s, Content(Filesystem, call, request), how);
    case WatchSwap(call, request) => ClearSilence(s, call, request, how);
    case WatchDelete(call, request) => ClearSilence(s, call, request, how);
    case GateDelete(_) => ClearSilence(s, "", "", how);
    case Resolved(x) => SaidSilence(s, x, how);
    case Created(x) => SaidSilence(s, x, how);
  }

  lemma StopSilence(s: State, task: Task, how: Silence)
    requires task in s.tasks
    ensures |Gone(StopTask(s, task), how)| == |Gone(s, how)| + (if Silences(s, GivesUp(task), how) then 1 else 0)
  {
  }

  lemma NextSilence(s: State, step: Step, how: Silence)
    ensures |Gone(Next(s, step), how)| == |Gone(s, how)| + (if Silences(s, step, how) then 1 else 0)
  {
    match step
    case Runs(task) => if task in s.tasks { EffectSilence(Done(s, task), task, how); }
    case GivesUp(task) => if task in s.tasks { StopSilence(s, task, how); }
    case _ => OtherSilence(s, step, how);
  }

  lemma OtherSilence(s: State, step: Step, how: Silence)
    requires !step.Runs? && !step.GivesUp?
    ensures Gone(Next(s, step), how) == Gone(s, how)
  {
  }

  /** Some step of the run does that. */
  predicate EverSilences(steps: seq<Step>, how: Silence) {
    steps != [] &&
    (EverSilences(steps[..|steps| - 1], how) || Silences(Run(steps[..|steps| - 1]), steps[|steps| - 1], how))
  }

  /** A record went that way exactly when a step of that kind occurred. */
  lemma {:induction false} SilentExactly(steps: seq<Step>, how: Silence)
    ensures Gone(Run(steps), how) != [] <==> EverSilences(steps, how)
  {
    if steps != [] {
      var init := steps[..|steps| - 1];
      SilentExactly(init, how);
      NextSilence(Run(init), steps[|steps| - 1], how);
    }
  }

  /** The events tell the inbox: each record's creation, and the removal of each that is not pending. */
  predicate Told(s: State) {
    s.created == |s.arrived| + |s.arriving| && s.created == |s.announced| + |s.leaving| + Pending(s)
  }

  /**
   The inbox's promise, exactly: every record is announced as created, and as resolved unless it
   is pending, by an event that came or is on its way, if and only if no delete came late, no
   follow-up was written over a plain approval, no stale entry was cleared and nobody stopped who
   still had an event to send.
   */
  lemma AnnouncedExactly(steps: seq<Step>)
    ensures Told(Run(steps)) <==> forall how :: !EverSilences(steps, how)
  {
    var s := Run(steps);
    Conserved(steps);
    AllTold(s);
    SilentExactly(steps, LateDelete);
    SilentExactly(steps, FollowUp);
    SilentExactly(steps, Cleared);
    SilentExactly(steps, Unsaid);
    SilentExactly(steps, Missed);
    forall how | EverSilences(steps, how) ensures !Told(s) {
      SilentExactly(steps, how);
      OneOfFive(s, how);
    }
  }

  lemma OneOfFive(s: State, how: Silence)
    requires Gone(s, how) != []
    ensures Gone(s, LateDelete) != [] || Gone(s, FollowUp) != [] || Gone(s, Cleared) != [] ||
      Gone(s, Unsaid) != [] || Gone(s, Missed) != []
  {
    match how
    case LateDelete =>
    case FollowUp =>
    case Cleared =>
    case Unsaid =>
    case Missed =>
  }

  lemma AllTold(s: State)
    requires AddsUp(s)
    ensures Told(s) <==>
      Gone(s, LateDelete) == [] && Gone(s, FollowUp) == [] && Gone(s, Cleared) == [] &&
      Gone(s, Unsaid) == [] && Gone(s, Missed) == []
  {
  }

  // ------------------------------------------------------------ against late deletes

  predicate Deleting(s: State) {
    exists t :: t in s.tasks && Deletes(t)
  }

  predicate Writes(step: Step) {
    step.Runs? && (step.task.GatePut? || step.task.WatchPut?)
  }

  /** A step that leaves a delete to come, without one before, has just swapped. */
  lemma LooksDelete(s: State, step: Step, t: Task)
    requires step.GateLooks? || step.WatchLooks? || step.Swap?
    requires t in Next(s, step).tasks && Deletes(t)
    ensures t in s.tasks || Next(s, step).cell.Null?
  {
  }

  lemma PutDelete(s: State, content: Content, t: Task)
    requires t in Put(s, content).tasks && Deletes(t)
    ensures t in s.tasks
  {
  }

  lemma EffectDelete(s: State, task: Task, t: Task)
    requires t in Effect(s, task).tasks && Deletes(t)
    ensures t in s.tasks || Effect(s, task).cell.Null?
  {
    match task
    case GatePut(call) => PutDelete(s, Content(Function, call, ""), t);
    case WatchPut(call, request) => PutDelete(s, Content(Filesystem, call, request), t);
    case _ =>
  }

  lemma DoneDelete(s: State, task: Task, t: Task)
    requires t in Done(s, task).tasks && Deletes(t)
    ensures t in s.tasks
  {
  }

  /** A delete to come is one that was to come, or follows a swap just made. */
  lemma DeletesFollowSwaps(s: State, step: Step)
    requires Deleting(Next(s, step))
    ensures Deleting(s) || Next(s, step).cell.Null?
  {
    var t :| t in Next(s, step).tasks && Deletes(t);
    match step
    case Runs(task) =>
      if task in s.tasks {
        EffectDelete(Done(s, task), task, t);
        if t in Done(s, task).tasks { DoneDelete(s, task, t); }
      }
    case GivesUp(task) => assert t in s.tasks;
    case Fails(task) => if task in s.tasks && Deletes(task) { DoneDelete(s, task, t); }
    case _ => LooksDelete(s, step, t);
  }

  /** Only a write makes an entry held. */
  lemma WritesHold(s: State, step: Step)
    requires !s.cell.Held? && Next(s, step).cell.Held?
    ensures Writes(step)
  {
  }

  lemma QuietStep(s: State, step: Step)
    requires s.lost == [] && (Deleting(s) ==> !s.cell.Held?) && (Writes(step) ==> !Deleting(s))
    ensures Next(s, step).lost == [] && (Deleting(Next(s, step)) ==> !Next(s, step).cell.Held?)
  {
    NextSilence(s, step, LateDelete);
    if step.Runs? && step.task in s.tasks && Deletes(step.task) { assert Deleting(s); }
    if Deleting(Next(s, step)) && Next(s, step).cell.Held? {
      DeletesFollowSwaps(s, step);
      WritesHold(s, step);
    }
  }

  /** Enough against late deletes: no entry is written while a delete is still to come. */
  lemma {:induction false} QuietHoldsLoseNothing(steps: seq<Step>)
    requires forall i :: 0 <= i < |steps| && Writes(steps[i]) ==> !Deleting(Run(steps[..i]))
    ensures Run(steps).lost == [] && (Deleting(Run(steps)) ==> !Run(steps).cell.Held?)
  {
    if steps != [] {
      var init := steps[..|steps| - 1];
      forall i | 0 <= i < |init| && Writes(init[i]) ensures !Deleting(Run(init[..i])) {
        assert init[..i] == steps[..i];
      }
      QuietHoldsLoseNothing(init);
      QuietStep(Run(init), steps[|steps| - 1]);
    }
  }

  // ------------------------------------------------------------ each of them occurs

  lemma RunMore(steps: seq<Step>, step: Step)
    ensures Run(steps + [step]) == Next(Run(steps), step)
  {
    assert (steps + [step])[..|steps|] == steps;
  }

  lemma RunTwo(steps: seq<Step>, one: Step, two: Step)
    ensures Run(steps + [one, two]) == Next(Next(Run(steps), one), two)
  {
    RunMore(steps, one);
    RunMore(steps + [one], two);
    assert steps + [one, two] == steps + [one] + [two];
  }

  /** One record held, its creation announced. */
  function OneHeld(content: Content): State {
    START.(cell := Held(0, content), created := 1, arrived := [0])
  }

  lemma FirstLook(step: Step, task: Task)
    requires Next(START, step) == START.(tasks := multiset{task})
    ensures Run([step, Runs(task)]) == RunTask(START.(tasks := multiset{task}), task)
  {
    var steps := [step, Runs(task)];
    assert steps[..1] == [step] && [step][..0] == [] && Run([]) == START;
    assert Run([step]) == START.(tasks := multiset{task});
    assert task in multiset{task};
  }

  lemma CreatedRuns(content: Content)
    ensures Next(Enter(START, content), Runs(Created(0))) == OneHeld(content)
  {
  }

  lemma GateWrites(call: string) returns (steps: seq<Step>)
    ensures Run(steps) == Enter(START, Content(Function, call, ""))
  {
    steps := [GateLooks(call), Runs(GatePut(call))];
    FirstLook(GateLooks(call), GatePut(call));
  }

  lemma WatchWrites(call: string, request: string) returns (steps: seq<Step>)
    ensures Run(steps) == Enter(START, Content(Filesystem, call, request))
  {
    steps := [WatchLooks(call, request), Runs(WatchPut(call, request))];
    FirstLook(WatchLooks(call, request), WatchPut(call, request));
  }

  /** A call is held: the gate looks, writes and announces. */
  lemma GateHolds(call: string) returns (steps: seq<Step>)
    ensures Run(steps) == OneHeld(Content(Function, call, ""))
  {
    steps := GateWrites(call);
    RunMore(steps, Runs(Created(0)));
    CreatedRuns(Content(Function, call, ""));
    steps := steps + [Runs(Created(0))];
  }

  /** A failing call that has its request held. */
  lemma WatchHolds(call: string, request: string) returns (steps: seq<Step>)
    ensures Run(steps) == OneHeld(Content(Filesystem, call, request))
  {
    steps := WatchWrites(call, request);
    RunMore(steps, Runs(Created(0)));
    CreatedRuns(Content(Filesystem, call, request));
    steps := steps + [Runs(Created(0))];
  }

  /** A held call taken out by a swap. */
  lemma TakenOut(call: string) returns (steps: seq<Step>)
    ensures Run(steps) == LeavingOne(OneHeld(Content(Function, call, "")), Null, GateDelete(Some(0)))
  {
    steps := GateHolds(call);
    RunMore(steps, Swap);
    steps := steps + [Swap];
  }

  /** A removal whose process stops before the delete: the record is gone and nobody is told. */
  lemma StopIsUnsaid(call: string) returns (steps: seq<Step>)
    ensures var s := Run(steps);
      && s.created == 1 && s.arrived == [0] && s.announced == [] && s.unsaid == [0]
      && s.cell.Null? && s.tasks == multiset{}
  {
    steps := TakenOut(call);
    RunMore(steps, GivesUp(GateDelete(Some(0))));
    SilentOut(OneHeld(Content(Function, call, "")), Null, GateDelete(Some(0)));
    steps := steps + [GivesUp(GateDelete(Some(0)))];
  }

  /** And the same when it stops after the delete. */
  lemma LateStopIsUnsaid(call: string) returns (steps: seq<Step>)
    ensures var s := Run(steps);
      && s.created == 1 && s.arrived == [0] && s.announced == [] && s.unsaid == [0]
      && s.cell.Absent? && s.tasks == multiset{}
  {
    steps := TakenOut(call);
    RunMore(steps, Runs(GateDelete(Some(0))));
    DeletedOut(OneHeld(Content(Function, call, "")));
    steps := steps + [Runs(GateDelete(Some(0)))];
    RunMore(steps, GivesUp(Resolved(0)));
    SilentOut(OneHeld(Content(Function, call, "")), Absent, Resolved(0));
    steps := steps + [GivesUp(Resolved(0))];
  }

  function LeavingOne(s: State, cell: Cell, task: Task): State {
    s.(cell := cell, tasks := multiset{task}, leaving := multiset{0})
  }

  lemma DeletedOut(s: State)
    ensures Next(LeavingOne(s, Null, GateDelete(Some(0))), Runs(GateDelete(Some(0)))) ==
      LeavingOne(s, Absent, Resolved(0))
  {
  }

  lemma SilentOut(s: State, cell: Cell, task: Task)
    requires Owes(task) == Some(0)
    ensures Next(LeavingOne(s, cell, task), GivesUp(task)) ==
      s.(cell := cell, tasks := multiset{}, leaving := multiset{}, unsaid := s.unsaid + [0])
  {
  }

  /** A hold whose announcement never comes: pending, and nobody was told. */
  lemma StopIsMissed(call: string) returns (steps: seq<Step>)
    ensures var s := Run(steps);
      s.created == 1 && s.arrived == [] && s.missed == [0] && s.cell.Held? && s.tasks == multiset{}
  {
    steps := GateWrites(call);
    RunMore(steps, GivesUp(Created(0)));
    MissedRuns(Content(Function, call, ""));
    steps := steps + [GivesUp(Created(0))];
  }

  lemma MissedRuns(content: Content)
    ensures Next(Enter(START, content), GivesUp(Created(0))) ==
      START.(cell := Held(0, content), created := 1, missed := [0])
  {
  }

  /** A call held between the swap and the delete disappears unannounced. */
  lemma HeldBetweenIsLost(call: string) returns (steps: seq<Step>)
    ensures var s := Run(steps); s.created == 2 && s.cell.Absent? && s.leaving == multiset{0} && s.lost == [1]
  {
    steps := HeldBetween(call);
    RunMore(steps, Runs(GateDelete(Some(0))));
    steps := steps + [Runs(GateDelete(Some(0)))];
  }

  lemma HeldBetween(call: string) returns (steps: seq<Step>)
    ensures var s := Run(steps);
      && s.created == 2 && s.cell == Held(1, Content(Function, call, "")) && s.lost == [] && s.leaving == multiset{0}
      && GateDelete(Some(0)) in s.tasks
  {
    steps := TakenOut(call);
    RunMore(steps, GateLooks(call));
    steps := steps + [GateLooks(call)];
    assert Run(steps).tasks == multiset{GateDelete(Some(0)), GatePut(call)};
    RunMore(steps, Runs(GatePut(call)));
    steps := steps + [Runs(GatePut(call))];
  }

  /** The approved call asks for filesystem access next: the plain approval is never announced as resolved. */
  lemma FollowUpIsSilent(call: string, request: string) returns (steps: seq<Step>)
    ensures var s := Run(steps);
      && s.created == 2 && s.announced == [] && s.leaving == multiset{} && s.replaced == [0]
      && s.cell == Held(1, Content(Filesystem, call, request))
  {
    steps := GateHolds(call);
    RunMore(steps, WatchLooks(call, request));
    steps := steps + [WatchLooks(call, request)];
    assert Run(steps) == OneHeld(Content(Function, call, "")).(tasks := multiset{WatchPut(call, request)});
    RunMore(steps, Runs(WatchPut(call, request)));
    steps := steps + [Runs(WatchPut(call, request))];
  }

  /** The same call fails on another root: the first request is cleared without a word. */
  lemma StaleIsSilent(call: string, first: string, second: string) returns (steps: seq<Step>)
    requires first != second
    ensures var s := Run(steps);
      && s.created == 2 && s.announced == [] && s.leaving == multiset{} && s.stale == [0]
      && s.cell == Held(1, Content(Filesystem, call, second))
  {
    steps := StaleCleared(call, first, second);
    RunMore(steps, Runs(WatchDelete(call, second)));
    steps := steps + [Runs(WatchDelete(call, second))];
    assert Run(steps) == OneHeld(Content(Filesystem, call, first)).(
      cell := Absent, stale := [0], tasks := multiset{WatchPut(call, second)});
    RunMore(steps, Runs(WatchPut(call, second)));
    steps := steps + [Runs(WatchPut(call, second))];
  }

  lemma StaleCleared(call: string, first: string, second: string) returns (steps: seq<Step>)
    requires first != second
    ensures Run(steps) == OneHeld(Content(Filesystem, call, first)).(
      cell := Null, stale := [0], tasks := multiset{WatchDelete(call, second)})
  {
    steps := WatchHolds(call, first);
    RunMore(steps, WatchLooks(call, second));
    steps := steps + [WatchLooks(call, second)];
    assert Run(steps) == OneHeld(Content(Filesystem, call, first)).(tasks := multiset{WatchSwap(call, second)});
    RunMore(steps, Runs(WatchSwap(call, second)));
    steps := steps + [Runs(WatchSwap(call, second))];
  }

  // ------------------------------------------------------------ what each step does to the entry

  /** The record a write leaves in the cell: the one there, unless there is none or an access request follows a hold. */
  function RecordOf(s: State, kind: Kind): nat {
    if s.cell.Held? && (kind == Function || s.cell.content.kind == Filesystem) then s.cell.record else s.created
  }

  /** The entry once a task has run. */
  ghost predicate Leaves(s: State, task: Task, now: Cell) {
    match task
    case GatePut(call) => now == Held(RecordOf(s, Function), Content(Function, call, ""))
    case WatchPut(call, request) => now == Held(RecordOf(s, Filesystem), Content(Filesystem, call, request))
    case WatchSwap(_, _) => now == Null
    case WatchDelete(_, _) => now == Absent
    case GateDelete(_) => now == Absent
    case _ => now == s.cell
  }

  lemma PutLeaves(s: State, content: Content)
    requires s.cell.Held? ==> s.cell.record < s.created
    ensures var now := Put(s, content);
      && now.cell == Held(RecordOf(s, content.kind), content)
      && now.created == s.created + (if now.cell.record == s.created then 1 else 0)
  {
  }

  lemma TaskLeaves(s: State, task: Task)
    requires task in s.tasks && (s.cell.Held? ==> s.cell.record < s.created)
    ensures var now := Next(s, Runs(task));
      && Leaves(s, task, now.cell)
      && now.created == s.created + (if now.cell.Held? && now.cell.record == s.created then 1 else 0)
  {
    var left := Done(s, task);
    assert left.cell == s.cell && left.created == s.created;
    if task.GatePut? || task.WatchPut? {
      var content :=
        if task.GatePut? then Content(Function, task.call, "") else Content(Filesystem, task.call, task.request);
      PutLeaves(left, content);
      assert Next(s, Runs(task)) == Put(left, content);
    } else {
      OtherLeaves(s, task);
    }
  }

  lemma OtherLeaves(s: State, task: Task)
    requires task in s.tasks && !task.GatePut? && !task.WatchPut?
    ensures Leaves(s, task, Next(s, Runs(task)).cell) && Next(s, Runs(task)).created == s.created
    ensures Next(s, Runs(task)).cell == s.cell || !Next(s, Runs(task)).cell.Held?
  {
  }

  /** The entry after each step; records are numbered as they are made. */
  lemma EntryExactly(s: State, step: Step)
    requires s.cell.Held? ==> s.cell.record < s.created
    ensures var now := Next(s, step);
      && (step.Swap? ==> now.cell == Null)
      && (step.Runs? && step.task in s.tasks ==> Leaves(s, step.task, now.cell))
      && (!step.Swap? && !(step.Runs? && step.task in s.tasks) ==> now.cell == s.cell)
      && now.created == s.created + (if now.cell.Held? && now.cell.record == s.created then 1 else 0)
  {
    if step.Runs? && step.task in s.tasks { TaskLeaves(s, step.task); }
  }

  /** What a step leaves to be done, beside what was. */
  function Follows(s: State, step: Step): multiset<Task> {
    match step
    case GateLooks(call) => if s.cell.Held? then multiset{} else multiset{GatePut(call)}
    case WatchLooks(call, request) =>
      if !s.cell.Held? || s.cell.content == Content(Function, call, s.cell.content.request)
      then multiset{WatchPut(call, request)}
      else if s.cell.content == Content(Filesystem, s.cell.content.call, request) then multiset{}
      else multiset{WatchSwap(call, request)}
    case Swap => multiset{GateDelete(if s.cell.Held? then Some(s.cell.record) else None)}
    case GivesUp(_) => multiset{}
    case Fails(task) => if Deletes(task) then Continues(task) else multiset{}
    case Runs(task) =>
      if task.WatchSwap? then multiset{WatchDelete(task.call, task.request)}
      else if (task.GatePut? && RecordOf(s, Function) == s.created) ||
              (task.WatchPut? && RecordOf(s, Filesystem) == s.created) then multiset{Created(s.created)}
      else Continues(task)
  }

  /** A delete is followed by the announcement of what its swap took out, or by the watch's write. */
  function Continues(task: Task): multiset<Task> {
    if task.WatchDelete? then multiset{WatchPut(task.call, task.request)}
    else if task.GateDelete? && task.taken.Some? then multiset{Resolved(task.taken.value)}
    else multiset{}
  }

  /** The task a step uses up. */
  function Uses(s: State, step: Step): multiset<Task> {
    if (step.Runs? || step.GivesUp? || (step.Fails? && (step.task.GateDelete? || step.task.WatchDelete?)))
       && step.task in s.tasks
    then multiset{step.task} else multiset{}
  }

  /** A write puts one announcement under way if it makes a record, and nothing else. */
  lemma PutFollows(s: State, content: Content, x: Task)
    requires s.cell.Held? ==> s.cell.record < s.created
    ensures Put(s, content).tasks[x] == s.tasks[x] +
      (if RecordOf(s, content.kind) == s.created then multiset{Created(s.created)} else multiset{})[x]
  {
  }

  lemma PutTasks(s: State, task: Task, x: Task)
    requires (s.cell.Held? ==> s.cell.record < s.created) && task in s.tasks && (task.GatePut? || task.WatchPut?)
    ensures Next(s, Runs(task)).tasks[x] == s.tasks[x] - multiset{task}[x] + Follows(s, Runs(task))[x]
  {
    var content :=
      if task.GatePut? then Content(Function, task.call, "") else Content(Filesystem, task.call, task.request);
    var left := Done(s, task);
    assert Then(task) == multiset{};
    assert left.tasks[x] == s.tasks[x] - multiset{task}[x];
    assert RecordOf(left, content.kind) == RecordOf(s, content.kind);
    PutFollows(left, content, x);
    assert Next(s, Runs(task)) == Put(left, content);
  }

  lemma OtherTasks(s: State, task: Task, x: Task)
    requires task in s.tasks && !task.GatePut? && !task.WatchPut?
    ensures Next(s, Runs(task)).tasks[x] == s.tasks[x] - multiset{task}[x] + Follows(s, Runs(task))[x]
  {
    assert Done(s, task).tasks[x] == s.tasks[x] - multiset{task}[x] + Then(task)[x];
    assert !task.WatchSwap? ==> Then(task) == Continues(task);
  }

  lemma FailedTasks(s: State, task: Task, x: Task)
    requires task in s.tasks
    ensures Next(s, Fails(task)).tasks[x] == s.tasks[x] - Uses(s, Fails(task))[x] + Follows(s, Fails(task))[x]
  {
    if Deletes(task) {
      assert Then(task) == Continues(task);
      assert Next(s, Fails(task)) == Done(s, task);
    }
  }

  lemma GivenUpTasks(s: State, task: Task, x: Task)
    requires task in s.tasks
    ensures Next(s, GivesUp(task)).tasks[x] == s.tasks[x] - Uses(s, GivesUp(task))[x] + Follows(s, GivesUp(task))[x]
  {
    assert Next(s, GivesUp(task)) == StopTask(s, task);
    assert StopTask(s, task).tasks == s.tasks - multiset{task};
  }

  /** How often each task is under way after each step; one that is not under way does nothing. */
  lemma TasksExactly(s: State, step: Step, x: Task)
    requires s.cell.Held? ==> s.cell.record < s.created
    ensures (step.Runs? || step.Fails? || step.GivesUp?) && step.task !in s.tasks ==> Next(s, step) == s
    ensures !((step.Runs? || step.Fails? || step.GivesUp?) && step.task !in s.tasks) ==>
      Next(s, step).tasks[x] == s.tasks[x] - Uses(s, step)[x] + Follows(s, step)[x]
  {
    if step.Runs? || step.Fails? || step.GivesUp? {
      if step.task in s.tasks {
        if step.Fails? { FailedTasks(s, step.task, x); }
        else if step.GivesUp? { GivenUpTasks(s, step.task, x); }
        else if step.task.GatePut? || step.task.WatchPut? { PutTasks(s, step.task, x); }
        else { OtherTasks(s, step.task, x); }
      }
    } else {
      LookTasks(s, step, x);
    }
  }

  lemma LookTasks(s: State, step: Step, x: Task)
    requires step.GateLooks? || step.WatchLooks? || step.Swap?
    ensures Next(s, step).tasks[x] == s.tasks[x] + Follows(s, step)[x]
  {
  }
}
