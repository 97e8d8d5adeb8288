/**
 Who may send a prompt to the Cursor CLI. Worker processes share one durable session record and
 change it only by compare-and-set, so each change is one atomic step on the record as it
 is. A turn gets a fresh send key when it is claimed; the owner of the claim marks the turn
 started and only then dispatches the prompt. Processes may stop for ever at any point, and
 a claim may be taken for stale at any time.
 */
module CursorClaims {
  import opened Options

  type Process = nat
  type Key = nat
  type RunId = nat

  datatype Status = Idle | Working | RecoveryRequired

  /** The durable record: the pending send, the run it became, and who owns the claim. */
  datatype Record = Record(
    status: Status, key: Option<Key>, run: Option<RunId>, started: bool, claim: Option<Process>)

  /** What a process knows: nothing, a claimed turn, a turn it marked started, a prompt it has sent. */
  datatype Phase = Fresh | Claimed(key: Key) | Started(key: Key, run: RunId) | Dispatched(key: Key, run: RunId)

  /** `counter` numbers keys and runs; `sent` logs the keys whose prompt was dispatched. */
  datatype State = State(
    record: Record, phases: map<Process, Phase>, saw: map<Process, bool>, counter: nat, sent: seq<Key>)

  const START := State(Record(Idle, None, None, false, None), map[], map[], 0, [])

  datatype Step =
    | Claim(p: Process, stale: bool)
    | Mark(p: Process, cancel: bool)
    | CancelMarked(p: Process)
    | Dispatch(p: Process)
    | Finish(p: Process)
    | FailLoad(p: Process)
    | FailUpdate(p: Process, ambiguous: bool, conflict: bool)
    | StopPending(stale: bool)
    | StopLost(stale: bool)
    | Shutdown(p: Process)

  /** The turn is over, or was never sent. */
  const CLEARED := Record(Idle, None, None, false, None)

  function Recovery(r: Record): Record {
    r.(status := RecoveryRequired, claim := None)
  }

  function PhaseOf(s: State, p: Process): Phase {
    if p in s.phases then s.phases[p] else Fresh
  }

  function Enter(s: State, p: Process, phase: Phase): State {
    s.(phases := s.phases[p := phase])
  }

  /** Claiming a turn: a new one, a pending one nobody has started, or refused. */
  function ClaimTurn(s: State, p: Process, stale: bool): State {
    var r := s.record;
    if r.run.Some? then
      if r.claim == Some(p) || (r.claim.Some? && !stale) then s else s.(record := Recovery(r))
    else if r.status == RecoveryRequired then s
    else if r.key.Some? then
      if r.claim == Some(p) then Enter(s, p, Claimed(r.key.value))
      else if r.started && r.claim.Some? && !stale then s
      else if r.started then s.(record := Recovery(r))
      else Enter(s.(record := r.(status := Working, claim := Some(p))), p, Claimed(r.key.value))
    else
      Enter(s.(record := Record(Working, Some(s.counter), None, false, Some(p)), counter := s.counter + 1), p,
        Claimed(s.counter))
  }

  /** The owner marks the turn started, unless it is asked to cancel first. */
  function MarkStarted(s: State, p: Process, cancel: bool): State {
    var r := s.record;
    var phase := PhaseOf(s, p);
    if !phase.Claimed? then s
    else if r.claim != Some(p) || r.key != Some(phase.key) || r.run.Some? then Enter(s, p, Fresh)
    else if cancel then Enter(s.(record := CLEARED), p, Fresh)
    else Enter(s.(record := r.(run := Some(s.counter), started := true), counter := s.counter + 1), p,
      Started(phase.key, s.counter))
  }

  /** What a failed run does to the record, from what it saw of it before. */
  function FailedRun(s: State, p: Process, ambiguous: bool, conflict: bool): State {
    var r := s.record;
    var mine := r.claim.None? || r.claim == Some(p);
    var sawStarted := p in s.saw && s.saw[p];
    var next :=
      if ambiguous || sawStarted then (if mine then Recovery(r) else r)
      else if conflict || r.run.Some? || !mine then r
      else if !r.started then CLEARED
      else Recovery(r);
    Enter(s.(record := next, saw := s.saw - {p}), p, Fresh)
  }

  function Next(s: State, step: Step): State {
    var r := s.record;
    match step
    case Claim(p, stale) => if PhaseOf(s, p).Fresh? then ClaimTurn(s, p, stale) else s
    case Mark(p, cancel) => MarkStarted(s, p, cancel)
    case CancelMarked(p) =>
      var phase := PhaseOf(s, p);
      if phase.Started? && r.run == Some(phase.run) && r.claim == Some(p) then Enter(s.(record := CLEARED), p, Fresh)
        else s
    case Dispatch(p) =>
      var phase := PhaseOf(s, p);
      if phase.Started? then Enter(s.(sent := s.sent + [phase.key]), p, Dispatched(phase.key, phase.run)) else s
    case Finish(p) =>
      var phase := PhaseOf(s, p);
      if phase.Dispatched? && r.run == Some(phase.run) && r.claim == Some(p)
        then Enter(s.(record := CLEARED), p, Fresh) else s
    case FailLoad(p) => s.(saw := s.saw[p := r.started])
    case FailUpdate(p, ambiguous, conflict) => if p in s.saw then FailedRun(s, p, ambiguous, conflict) else s
    case StopPending(stale) =>
      if r.status == Working && r.run.None? && !r.started && r.key.Some? && (r.claim.None? || stale)
        then s.(record := CLEARED) else s
    case StopLost(stale) =>
      if r.status == Working && (r.run.Some? || r.started) && (r.claim.None? || stale) then s.(record := Recovery(r))
        else s
    case Shutdown(p) =>
      if r.status != Working || r.claim != Some(p) then s
      else if r.run.Some? || r.started then s.(record := Recovery(r))
      else s.(record := CLEARED)
  }

  function Run(steps: seq<Step>): State {
    if steps == [] then START else Next(Run(steps[..|steps| - 1]), steps[|steps| - 1])
  }

  // ------------------------------------------------------------ each prompt at most once

  /** The turn this process has marked started, sent or not. */
  function Began(s: State, p: Process): Option<Key> {
    match PhaseOf(s, p)
    case Started(k, _) => Some(k)
    case Dispatched(k, _) => Some(k)
    case _ => None
  }

  /** `begun` are the keys ever marked started. */
  ghost predicate Inv(s: State, begun: set<Key>) {
    && (forall k :: k in begun ==> k < s.counter)
    && (s.record.key.Some? ==> s.record.key.value < s.counter)
    && (s.record.run.Some? <==> s.record.key.Some? && s.record.key.value in begun)
    && (s.record.run.Some? <==> s.record.started)
    && (forall p :: Began(s, p).Some? ==> Began(s, p).value in begun)
    && (forall p, q :: Began(s, p).Some? && Began(s, p) == Began(s, q) ==> p == q)
    && (forall p :: PhaseOf(s, p).Claimed? ==> PhaseOf(s, p).key < s.counter)
    && (forall p :: PhaseOf(s, p).Started? ==> PhaseOf(s, p).key !in s.sent)
    && (forall k :: k in s.sent ==> k in begun)
    && (forall i, j :: 0 <= i < j < |s.sent| ==> s.sent[i] != s.sent[j])
  }

  /** Only marking begins a key. */
  function Begins(s: State, step: Step): set<Key> {
    if step.Mark? && PhaseOf(s, step.p).Claimed? && PhaseOf(Next(s, step), step.p).Started?
    then {PhaseOf(s, step.p).key} else {}
  }

  lemma RecordKeeps(s: State, begun: set<Key>, r: Record)
    requires Inv(s, begun)
    requires r == CLEARED || r == Recovery(s.record) || r == s.record
    ensures Inv(s.(record := r), begun)
  {
    assert forall p :: PhaseOf(s.(record := r), p) == PhaseOf(s, p);
    assert forall p :: Began(s.(record := r), p) == Began(s, p);
  }

  lemma RestKeeps(s: State, begun: set<Key>, p: Process)
    requires Inv(s, begun)
    ensures Inv(Enter(s, p, Fresh), begun)
  {
    var s' := Enter(s, p, Fresh);
    assert forall q :: PhaseOf(s', q) == if q == p then Fresh else PhaseOf(s, q);
    assert forall q :: Began(s', q) == if q == p then None else Began(s, q);
  }

  lemma ClaimKeeps(s: State, begun: set<Key>, p: Process, stale: bool)
    requires Inv(s, begun) && PhaseOf(s, p).Fresh?
    ensures Inv(ClaimTurn(s, p, stale), begun)
  {
    var s' := ClaimTurn(s, p, stale);
    assert forall q :: q != p ==> PhaseOf(s', q) == PhaseOf(s, q);
    assert forall q :: Began(s', q) == if q == p then None else Began(s, q);
  }

  lemma MarkKeeps(s: State, begun: set<Key>, p: Process, cancel: bool)
    requires Inv(s, begun)
    ensures Inv(MarkStarted(s, p, cancel), begun + Begins(s, Mark(p, cancel)))
  {
    var s' := MarkStarted(s, p, cancel);
    assert Next(s, Mark(p, cancel)) == s';
    var phase := PhaseOf(s, p);
    if !phase.Claimed? || PhaseOf(s', p).Fresh? {
      RestKeeps(s, begun, p);
      RecordKeeps(Enter(s, p, Fresh), begun, s'.record);
      assert begun + {} == begun;
    } else {
      MarkedKeeps(s, begun, p, phase.key);
    }
  }

  lemma MarkedKeeps(s: State, begun: set<Key>, p: Process, k: Key)
    requires Inv(s, begun) && PhaseOf(s, p) == Claimed(k) && s.record.key == Some(k) && s.record.run.None?
    ensures
      var next := s.(record := s.record.(run := Some(s.counter), started := true), counter := s.counter + 1);
      Inv(Enter(next, p, Started(k, s.counter)), begun + {k})
  {
    var s' := Enter(s.(record := s.record.(run := Some(s.counter), started := true), counter := s.counter + 1), p,
      Started(k, s.counter));
    assert k !in begun;
    assert forall q :: q != p ==> PhaseOf(s', q) == PhaseOf(s, q) && Began(s', q) == Began(s, q);
    assert Began(s', p) == Some(k);
  }

  lemma DispatchKeeps(s: State, begun: set<Key>, p: Process)
    requires Inv(s, begun) && PhaseOf(s, p).Started?
    ensures Inv(Next(s, Dispatch(p)), begun)
  {
    var s' := Next(s, Dispatch(p));
    var k := PhaseOf(s, p).key;
    assert Began(s, p) == Some(k);
    forall q ensures Began(s', q) == Began(s, q) && (q != p ==> PhaseOf(s', q) == PhaseOf(s, q)) { }
    forall q | PhaseOf(s', q).Started? ensures PhaseOf(s', q).key !in s'.sent {
      assert q != p;
      assert Began(s, q) == Some(PhaseOf(s, q).key);
    }
  }

  lemma NextKeeps(s: State, begun: set<Key>, step: Step)
    requires Inv(s, begun)
    ensures Inv(Next(s, step), begun + Begins(s, step))
  {
    var s' := Next(s, step);
    assert begun + {} == begun;
    match step
    case Claim(p, stale) => if PhaseOf(s, p).Fresh? { ClaimKeeps(s, begun, p, stale); }
    case Mark(p, cancel) => MarkKeeps(s, begun, p, cancel);
    case Dispatch(p) => if PhaseOf(s, p).Started? { DispatchKeeps(s, begun, p); }
    case CancelMarked(p) => RestKeeps(s, begun, p); RecordKeeps(Enter(s, p, Fresh), begun, s'.record);
    case Finish(p) => RestKeeps(s, begun, p); RecordKeeps(Enter(s, p, Fresh), begun, s'.record);
    case FailUpdate(p, _, _) =>
      RestKeeps(s, begun, p);
      RecordKeeps(Enter(s, p, Fresh), begun, s'.record);
      SawKeeps(Enter(s, p, Fresh).(record := s'.record), begun, s'.saw);
    case FailLoad(p) => SawKeeps(s, begun, s'.saw);
    case StopPending(_) => RecordKeeps(s, begun, s'.record);
    case StopLost(_) => RecordKeeps(s, begun, s'.record);
    case Shutdown(_) => RecordKeeps(s, begun, s'.record);
  }

  lemma SawKeeps(s: State, begun: set<Key>, saw: map<Process, bool>)
    requires Inv(s, begun)
    ensures Inv(s.(saw := saw), begun)
  {
    assert forall p :: PhaseOf(s.(saw := saw), p) == PhaseOf(s, p) && Began(s.(saw := saw), p) == Began(s, p);
  }

  lemma {:induction false} RunKeeps(steps: seq<Step>) returns (begun: set<Key>)
    ensures Inv(Run(steps), begun)
  {
    if steps == [] {
      begun := {};
    } else {
      var before := RunKeeps(steps[..|steps| - 1]);
      var s := Run(steps[..|steps| - 1]);
      NextKeeps(s, before, steps[|steps| - 1]);
      begun := before + Begins(s, steps[|steps| - 1]);
    }
  }

  /** However many processes race and whichever stop, no turn's prompt is dispatched twice. */
  lemma DispatchedOnce(steps: seq<Step>, i: nat, j: nat)
    requires i < j < |Run(steps).sent|
    ensures Run(steps).sent[i] != Run(steps).sent[j]
  {
    var begun := RunKeeps(steps);
  }

  // ------------------------------------------------------------ after a lost dispatch

  /** A turn was started and nobody owns it any more. */
  predicate Abandoned(s: State) {
    s.record.run.Some? && s.record.claim.None?
  }

  lemma StaysAbandoned(s: State, step: Step)
    requires Abandoned(s)
    ensures Abandoned(Next(s, step))
    ensures Next(s, step).record.run == s.record.run && Next(s, step).record.key == s.record.key
  {
  }

  /** A process that marks a turn started owns the record's key while the run is on it. */
  ghost predicate Open(s: State, k: Key) {
    exists p :: PhaseOf(s, p).Started? && PhaseOf(s, p).key == k
  }

  /** What can still be sent: prompts of turns marked started before. */
  lemma AbandonedSends(s: State, step: Step, k: Key)
    requires Abandoned(s) && k in Next(s, step).sent && k !in s.sent
    ensures Open(s, k)
  {
    assert step.Dispatch? && PhaseOf(s, step.p).Started?;
  }

  lemma AbandonedOpens(s: State, step: Step, k: Key)
    requires Abandoned(s) && Open(Next(s, step), k)
    ensures Open(s, k)
  {
    var p :| PhaseOf(Next(s, step), p).Started? && PhaseOf(Next(s, step), p).key == k;
    assert PhaseOf(s, p) == PhaseOf(Next(s, step), p);
  }

  /**
   Once a started turn has lost its owner, the session never starts another one: whatever
   happens later, the record keeps that turn, and the only prompts that can still go out
   belong to turns that some process had already marked started.
   */
  lemma {:induction false} NeverReplayed(steps: seq<Step>, more: seq<Step>, k: Key)
    requires Abandoned(Run(steps))
    ensures Abandoned(Run(steps + more)) && Run(steps + more).record.run == Run(steps).record.run
    ensures k in Run(steps + more).sent && k !in Run(steps).sent ==> Open(Run(steps), k)
    ensures Open(Run(steps + more), k) ==> Open(Run(steps), k)
  {
    if more == [] {
      assert steps + more == steps;
    } else {
      var init, last := more[..|more| - 1], more[|more| - 1];
      NeverReplayed(steps, init, k);
      assert steps + more == (steps + init) + [last];
      RunMore(steps + init, last);
      AbandonedStep(Run(steps + init), last, k);
    }
  }

  lemma AbandonedStep(s: State, step: Step, k: Key)
    requires Abandoned(s)
    ensures Abandoned(Next(s, step)) && Next(s, step).record.run == s.record.run
    ensures k in Next(s, step).sent && k !in s.sent ==> Open(s, k)
    ensures Open(Next(s, step), k) ==> Open(s, k)
  {
    StaysAbandoned(s, step);
    if k in Next(s, step).sent && k !in s.sent { AbandonedSends(s, step, k); }
    if Open(Next(s, step), k) { AbandonedOpens(s, step, k); }
  }

  // ------------------------------------------------------------ after the owner is lost

  predicate StepOf(step: Step, q: Process) {
    !step.StopPending? && !step.StopLost? && step.p == q
  }

  /** Somebody comes upon the claim and takes it for stale: to claim the turn or to stop the session. */
  predicate Discovers(s: State, step: Step) {
    (step.Claim? && step.stale && PhaseOf(s, step.p).Fresh?) || step == StopLost(true)
  }

  /** Some step after `steps` does. */
  predicate Discovered(steps: seq<Step>, more: seq<Step>) {
    more != [] &&
    (Discovered(steps, more[..|more| - 1]) || Discovers(Run(steps + more[..|more| - 1]), more[|more| - 1]))
  }

  /** A started turn whose owner is `q`, or that was found to have lost it. */
  predicate LeftBy(s: State, q: Process, found: bool) {
    s.record.run.Some? &&
    if found then s.record.status == RecoveryRequired && s.record.claim.None?
    else s.record.status == Working && s.record.claim == Some(q)
  }

  lemma LeftStep(s: State, q: Process, found: bool, step: Step, k: Key)
    requires LeftBy(s, q, found) && !StepOf(step, q)
    ensures LeftBy(Next(s, step), q, found || Discovers(s, step))
    ensures Next(s, step).record.run == s.record.run && Next(s, step).record.key == s.record.key
    ensures k in Next(s, step).sent && k !in s.sent ==> Open(s, k)
    ensures Open(Next(s, step), k) ==> Open(s, k)
  {
    if k in Next(s, step).sent && k !in s.sent { assert step.Dispatch? && PhaseOf(s, step.p).Started?; }
    if Open(Next(s, step), k) {
      var p :| PhaseOf(Next(s, step), p).Started? && PhaseOf(Next(s, step), p).key == k;
      assert PhaseOf(s, p) == PhaseOf(Next(s, step), p);
    }
  }

  /**
   A session that lost its process after the turn was started, the claim still on the record:
   whatever the others do, it keeps the turn, no prompt goes out or is begun but those already
   begun, and it is in need of recovery exactly if somebody has come upon the stale claim.
   */
  lemma {:induction false} LostBecomesRecovery(steps: seq<Step>, q: Process, more: seq<Step>, k: Key)
    requires var r := Run(steps).record; r.run.Some? && r.status == Working && r.claim == Some(q)
    requires forall i :: 0 <= i < |more| ==> !StepOf(more[i], q)
    ensures var s, t := Run(steps), Run(steps + more);
      && t.record.run == s.record.run && t.record.key == s.record.key
      && (t.record.status == RecoveryRequired <==> Discovered(steps, more))
      && LeftBy(t, q, Discovered(steps, more))
      && (k in t.sent && k !in s.sent ==> Open(s, k))
      && (Open(t, k) ==> Open(s, k))
  {
    if more == [] {
      assert steps + more == steps;
    } else {
      var init, last := more[..|more| - 1], more[|more| - 1];
      LostBecomesRecovery(steps, q, init, k);
      assert steps + more == (steps + init) + [last];
      RunMore(steps + init, last);
      LeftStep(Run(steps + init), q, Discovered(steps, init), last, k);
    }
  }

  // ------------------------------------------------------------ when recovery is reported

  /**
   A session enters recovery with nothing outstanding exactly when a failing run, having seen a
   started turn or an ambiguous send, finds the record free or its own after the turn is over.
   */
  lemma NeedlessRecovery(s: State, begun: set<Key>, step: Step)
    requires Inv(s, begun) && s.record.status != RecoveryRequired
    ensures Next(s, step).record.status == RecoveryRequired && Next(s, step).record.run.None? <==>
      && step.FailUpdate? && step.p in s.saw && (step.ambiguous || s.saw[step.p])
      && s.record.run.None? && (s.record.claim.None? || s.record.claim == Some(step.p))
  {
  }

  lemma RunMore(steps: seq<Step>, step: Step)
    ensures Run(steps + [step]) == Next(Run(steps), step)
  {
    assert (steps + [step])[..|steps|] == steps;
  }

  /** And it does: a call that fails while the turn runs reports recovery after the turn has finished. */
  lemma FinishedYetRecovery() returns (steps: seq<Step>)
    ensures Run(steps).record == Record(RecoveryRequired, None, None, false, None) && Run(steps).sent == [0]
  {
    steps := [];
    RunMore(steps, Claim(0, false)); steps := steps + [Claim(0, false)];
    RunMore(steps, Mark(0, false)); steps := steps + [Mark(0, false)];
    RunMore(steps, Dispatch(0)); steps := steps + [Dispatch(0)];
    assert Run(steps).record == Record(Working, Some(0), Some(1), true, Some(0)) && Run(steps).sent == [0];
    assert Run(steps).phases == map[0 := Dispatched(0, 1)];
    RunMore(steps, FailLoad(1)); steps := steps + [FailLoad(1)];
    RunMore(steps, Finish(0)); steps := steps + [Finish(0)];
    assert Run(steps).record == Record(Idle, None, None, false, None) && Run(steps).saw == map[1 := true];
    RunMore(steps, FailUpdate(1, false, false)); steps := steps + [FailUpdate(1, false, false)];
  }

  // ------------------------------------------------------------ what moves the record

  /** A run names one turn: whoever began it knows the key it has on the record. */
  ghost predicate RunsNamed(s: State) {
    && (s.record.run.Some? ==> s.record.run.value < s.counter)
    && (s.record.status == RecoveryRequired ==> s.record.claim.None?)
    && forall p :: Began(s, p).Some? ==>
         && PhaseOf(s, p).run < s.counter
         && (s.record.run == Some(PhaseOf(s, p).run) ==> s.record.key == Began(s, p))
  }

  lemma NextNames(s: State, begun: set<Key>, step: Step)
    requires Inv(s, begun) && RunsNamed(s)
    ensures RunsNamed(Next(s, step))
  {
    var s' := Next(s, step);
    forall p | Began(s', p).Some?
      ensures PhaseOf(s', p).run < s'.counter
      ensures s'.record.run == Some(PhaseOf(s', p).run) ==> s'.record.key == Began(s', p)
    {
      assert Began(s, p) == Began(s', p) || (step.Mark? && step.p == p);
    }
  }

  lemma {:induction false} RunNames(steps: seq<Step>) returns (begun: set<Key>)
    ensures Inv(Run(steps), begun) && RunsNamed(Run(steps))
  {
    if steps == [] {
      begun := {};
    } else {
      var init, last := steps[..|steps| - 1], steps[|steps| - 1];
      var before := RunNames(init);
      NextKeeps(Run(init), before, last);
      NextNames(Run(init), before, last);
      begun := before + Begins(Run(init), last);
    }
  }

  /** The process that holds the claim ends the turn it has started. */
  predicate EndsTurn(s: State, step: Step) {
    && (step.Finish? || step.CancelMarked?)
    && (if step.Finish? then PhaseOf(s, step.p).Dispatched? else PhaseOf(s, step.p).Started?)
    && s.record.run == Some(PhaseOf(s, step.p).run) && s.record.claim == Some(step.p)
  }

  /** A run leaves the record exactly when its owner ends the turn, before sending it or after. */
  lemma RunLeavesExactly(s: State, step: Step)
    requires s.record.run.Some?
    ensures Next(s, step).record.run != s.record.run <==> EndsTurn(s, step)
    ensures EndsTurn(s, step) ==> Next(s, step).record == Record(Idle, None, None, false, None)
    ensures !EndsTurn(s, step) ==>
      Next(s, step).record.key == s.record.key && Next(s, step).record.started == s.record.started
  {
  }

  /** A run comes on the record exactly when the owner of the claim marks its pending turn started. */
  lemma RunComesExactly(s: State, step: Step)
    requires s.record.run.None?
    ensures Next(s, step).record.run.Some? <==>
      && step.Mark? && !step.cancel
      && s.record.claim == Some(step.p) && s.record.key.Some? && PhaseOf(s, step.p) == Claimed(s.record.key.value)
    ensures Next(s, step).record.run.Some? ==>
      && Next(s, step).record == s.record.(run := Some(s.counter), started := true)
      && PhaseOf(Next(s, step), step.p) == Started(s.record.key.value, s.counter)
  {
  }

  /** A pending turn that was never started leaves the record in four ways, all of which free the session. */
  lemma PendingLeavesExactly(s: State, step: Step)
    requires s.record.key.Some? && s.record.run.None? && !s.record.started
    requires s.record.status == RecoveryRequired ==> s.record.claim.None?
    ensures Next(s, step).record.key != s.record.key <==>
      var free := s.record.claim.None?;
      match step
      case Mark(p, cancel) => cancel && s.record.claim == Some(p) && PhaseOf(s, p) == Claimed(s.record.key.value)
      case FailUpdate(p, ambiguous, conflict) =>
        p in s.saw && !s.saw[p] && !ambiguous && !conflict && (free || s.record.claim == Some(p))
      case StopPending(stale) => s.record.status == Working && (free || stale)
      case Shutdown(p) => s.record.status == Working && s.record.claim == Some(p)
      case _ => false
    ensures Next(s, step).record.key != s.record.key ==>
      Next(s, step).record == Record(Idle, None, None, false, None)
  {
  }

  /** A turn under way, known by its run or by its mark alone, leaves by none of these. */
  lemma StartedStays(s: State, step: Step)
    requires s.record.key.Some? && s.record.started && s.record.run.None?
    requires !(step.Mark? && step.cancel)
    ensures Next(s, step).record.key == s.record.key && Next(s, step).record.started
  {
  }

  /**
   A claim is taken exactly when a free process asks for a session that needs no recovery and
   has no started turn: it gets a key nobody had, or the pending turn under the key it has.
   */
  lemma ClaimTakenExactly(s: State, step: Step, p: Process)
    requires s.record.claim != Some(p)
    ensures Next(s, step).record.claim == Some(p) <==>
      && step.Claim? && step.p == p && PhaseOf(s, p).Fresh?
      && s.record.status != RecoveryRequired && s.record.run.None? && (s.record.key.Some? ==> !s.record.started)
    ensures Next(s, step).record.claim == Some(p) ==>
      var key := if s.record.key.Some? then s.record.key.value else s.counter;
      && Next(s, step).record == Record(Working, Some(key), None, false, Some(p))
      && PhaseOf(Next(s, step), p) == Claimed(key)
      && Next(s, step).counter == (if s.record.key.Some? then s.counter else s.counter + 1)
  {
  }

  /** A key given to a new turn was never used before. */
  lemma NewKeyIsNew(steps: seq<Step>, p: Process, stale: bool)
    requires var r := Run(steps).record; r.key.None? && r.run.None? && r.status != RecoveryRequired
    requires PhaseOf(Run(steps), p).Fresh?
    ensures var s, t := Run(steps), Run(steps + [Claim(p, stale)]);
      t.record.key.Some? && t.record.key.value !in s.sent && forall q :: Began(s, q) != t.record.key
  {
    var begun := RunKeeps(steps);
    RunMore(steps, Claim(p, stale));
  }

  /** A session comes to need recovery in four ways; it keeps its turn and loses its owner. */
  lemma RecoveryEnteredExactly(s: State, step: Step)
    requires s.record.status != RecoveryRequired
    ensures Next(s, step).record.status == RecoveryRequired <==>
      var r := s.record;
      var lost := r.claim.None?;
      match step
      case Claim(p, stale) =>
        && (r.run.Some? || (r.key.Some? && r.started))
        && PhaseOf(s, p).Fresh? && r.claim != Some(p) && (lost || stale)
      case FailUpdate(p, ambiguous, conflict) =>
        && p in s.saw && (lost || r.claim == Some(p))
        && (ambiguous || s.saw[p] || (!conflict && r.started && r.run.None?))
      case StopLost(stale) => r.status == Working && (r.run.Some? || r.started) && (lost || stale)
      case Shutdown(p) => r.status == Working && (r.run.Some? || r.started) && r.claim == Some(p)
      case _ => false
    ensures Next(s, step).record.status == RecoveryRequired ==>
      Next(s, step).record == Record(RecoveryRequired, s.record.key, s.record.run, s.record.started, None)
  {
  }

  /** A failing call goes by what it saw of the record when it loaded it, and is then done with it. */
  lemma SawExactly(s: State, step: Step, p: Process)
    ensures p in Next(s, step).saw <==>
      step == FailLoad(p) || (p in s.saw && !(step.FailUpdate? && step.p == p))
    ensures p in Next(s, step).saw ==>
      Next(s, step).saw[p] == if step == FailLoad(p) then s.record.started else s.saw[p]
  {
  }

  /** A prompt goes out exactly when the process that marked the turn started dispatches it. */
  lemma SentExactly(s: State, step: Step, k: Key)
    ensures Next(s, step).sent == s.sent + [k] <==>
      step.Dispatch? && PhaseOf(s, step.p).Started? && PhaseOf(s, step.p).key == k
    ensures Next(s, step).sent == s.sent || exists sent :: Next(s, step).sent == s.sent + [sent]
    ensures Next(s, step).sent != s.sent ==> Next(s, step).record == s.record
  {
    if Next(s, step).sent == s.sent + [k] { assert (s.sent + [k])[|s.sent|] == k; }
  }

  /** A worker that shuts down with its turn started leaves the turn, and the need to recover it, on the record. */
  lemma ShutdownLeavesTurn(s: State, begun: set<Key>, p: Process)
    requires Inv(s, begun) && s.record.status == Working && s.record.claim == Some(p)
    ensures var r := Next(s, Shutdown(p)).record;
      if s.record.run.Some? then
        r.status == RecoveryRequired && r.key == s.record.key && r.run == s.record.run && r.claim.None?
      else r == Record(Idle, None, None, false, None)
  {
  }

  /** The owner's successful end of the turn `k`, after its prompt went out. */
  predicate FinishesKey(s: State, step: Step, k: Key) {
    && step.Finish? && s.record.claim == Some(step.p) && s.record.key == Some(k)
    && PhaseOf(s, step.p).Dispatched? && PhaseOf(s, step.p).key == k && s.record.run == Some(PhaseOf(s, step.p).run)
  }

  lemma SentKeyStep(s: State, begun: set<Key>, step: Step, k: Key)
    requires Inv(s, begun) && RunsNamed(s) && k in s.sent
    ensures k in Next(s, step).sent
    ensures Next(s, step).record.key == Some(k) <==> s.record.key == Some(k) && !FinishesKey(s, step, k)
  {
    if s.record.key == Some(k) {
      RunLeavesExactly(s, step);
      if EndsTurn(s, step) {
        assert Began(s, step.p) == s.record.key;
        assert FinishesKey(s, step, k);
      }
    }
  }

  lemma LastApart(steps: seq<Step>, more: seq<Step>)
    requires more != []
    ensures steps + more == (steps + more[..|more| - 1]) + [more[|more| - 1]]
  {
  }

  lemma SentKeyMore(all: seq<Step>, before: seq<Step>, step: Step, k: Key)
    requires all == before + [step] && k in Run(before).sent
    ensures k in Run(all).sent
    ensures Run(all).record.key == Some(k) <==> Run(before).record.key == Some(k) && !FinishesKey(Run(before), step, k)
  {
    RunMore(before, step);
    var begun := RunNames(before);
    SentKeyStep(Run(before), begun, step, k);
  }

  /** One of `more` finishes the turn `k`. */
  ghost predicate Finished(steps: seq<Step>, more: seq<Step>, k: Key) {
    exists j :: 0 <= j < |more| && FinishedAt(steps, more, j, k)
  }

  ghost predicate FinishedAt(steps: seq<Step>, more: seq<Step>, j: nat, k: Key)
    requires j < |more|
  {
    FinishesKey(Run(steps + more[..j]), more[j], k)
  }

  lemma FinishedExtends(steps: seq<Step>, more: seq<Step>, k: Key)
    requires more != []
    ensures var init := more[..|more| - 1];
      Finished(steps, more, k) <==>
        Finished(steps, init, k) || FinishesKey(Run(steps + init), more[|more| - 1], k)
  {
    var n := |more| - 1;
    var init := more[..n];
    forall j: nat | j < n ensures FinishedAt(steps, more, j, k) <==> FinishedAt(steps, init, j, k) {
      assert init[..j] == more[..j];
    }
    assert FinishedAt(steps, more, n, k) <==> FinishesKey(Run(steps + init), more[n], k);
    if Finished(steps, init, k) {
      var j :| 0 <= j < |init| && FinishedAt(steps, init, j, k);
      assert FinishedAt(steps, more, j, k);
    }
  }

  /**
   A turn whose prompt went out stays on the record, through crashes, shutdowns, failures and
   other workers' claims, until its owner finishes it, and then never comes back.
   */
  lemma {:induction false} DispatchedStays(steps: seq<Step>, more: seq<Step>, k: Key)
    requires k in Run(steps).sent && Run(steps).record.key == Some(k)
    ensures k in Run(steps + more).sent
    ensures Run(steps + more).record.key == Some(k) <==> !Finished(steps, more, k)
  {
    if more == [] {
      assert steps + more == steps;
    } else {
      var init, last := more[..|more| - 1], more[|more| - 1];
      DispatchedStays(steps, init, k);
      FinishedExtends(steps, more, k);
      LastApart(steps, more);
      SentKeyMore(steps + more, steps + init, last, k);
    }
  }
}
