/**
 Row events of an interactive transaction. Statements find the transaction's connection in
 the registry and then wait for it; commit, rollback and the timeout watcher race to take
 the entry out of the registry, and the winner waits for the connection too. A statement's
 write is staged while it holds the connection. A commit drains what is staged and announces
 it; a rollback drops it.
 */
module TxEvents {
  import opened Options

  type Write = string

  datatype Ending = ByCommit | ByRollback | ByTimeout

  datatype Phase =
    | Open                  // in the registry
    | Taken(how: Ending)     // out of the registry, COMMIT or ROLLBACK still to run
    | Committed             // COMMIT has run, the staged events are still to be drained
    | Announcing            // drained
    | RolledBack

  /**
   `waiting` are statements that have looked the connection up and not yet locked it. Writes
   are uncommitted, durable or undone; events are staged, owed (drained) or announced.
   */
  datatype Tx = Tx(
    phase: Phase, waiting: seq<Write>,
    uncommitted: seq<Write>, durable: seq<Write>, undone: seq<Write>,
    staged: seq<Write>, owed: seq<Write>, announced: seq<Write>,
    endings: nat)
  {
    predicate InTransaction() { phase.Open? || phase.Taken? }
    predicate Closed() { phase.Announcing? || phase.RolledBack? }
  }

  const BEGUN := Tx(Open, [], [], [], [], [], [], [], 0)

  datatype Step =
    | Lookup(w: Write)      // a statement finds the connection
    | Execute(i: nat)       // a waiting statement locks it, runs and is staged
    | Take(how: Ending)      // a finaliser removes the registry entry
    | Finish(ok: bool)      // it locks the connection and runs COMMIT or ROLLBACK
    | Drain                 // a successful commit takes the staged events
    | Announce              // one event goes out

  predicate Enabled(s: Tx, step: Step) {
    match step
    case Lookup(_) => s.phase.Open?
    case Execute(i) => i < |s.waiting|
    case Take(_) => s.phase.Open?
    case Finish(_) => s.phase.Taken?
    case Drain => s.phase.Committed?
    case Announce => s.phase.Announcing? && s.owed != []
  }

  /** A step that is not enabled is refused and changes nothing. */
  function Next(s: Tx, step: Step): Tx {
    if !Enabled(s, step) then s
    else
      match step
      case Lookup(w) => s.(waiting := s.waiting + [w])
      case Execute(i) =>
        var w := s.waiting[i];
        var ran := s.(waiting := s.waiting[..i] + s.waiting[i + 1..], staged := s.staged + [w]);
        // Outside a transaction the connection commits each statement by itself.
        if s.InTransaction() then ran.(uncommitted := s.uncommitted + [w]) else ran.(durable := s.durable + [w])
      case Take(how) => s.(phase := Taken(how), endings := s.endings + 1)
      case Finish(ok) =>
        if s.phase.how == ByCommit && ok then
          s.(phase := Committed, durable := s.durable + s.uncommitted, uncommitted := [])
        else
          s.(phase := RolledBack, undone := s.uncommitted, uncommitted := [], staged := [])
      case Drain => s.(phase := Announcing, owed := s.staged, staged := [])
      case Announce => s.(owed := s.owed[1..], announced := s.announced + [s.owed[0]])
  }

  function Run(steps: seq<Step>): Tx {
    if steps == [] then BEGUN else Next(Run(steps[..|steps| - 1]), steps[|steps| - 1])
  }

  // ------------------------------------------------------------ every interleaving

  ghost predicate Inv(s: Tx) {
    && s.endings == (if s.phase.Open? then 0 else 1)
    && (s.InTransaction() ==>
          s.durable == s.undone == s.owed == s.announced == [] && s.staged == s.uncommitted)
    && (!s.InTransaction() ==> s.uncommitted == [])
    && (s.phase.Committed? ==> s.undone == s.owed == s.announced == [] && s.staged == s.durable)
    && (s.phase.Announcing? ==> s.undone == [] && s.durable == s.announced + s.owed + s.staged)
    && (s.phase.RolledBack? ==> s.owed == s.announced == [] && s.durable == s.staged)
  }

  lemma NextKeeps(s: Tx, step: Step)
    requires Inv(s)
    ensures Inv(Next(s, step))
  {
    if Enabled(s, step) {
      match step
      case Announce => assert s.owed == [s.owed[0]] + s.owed[1..];
      case Execute(i) =>
        if s.phase.Announcing? {
          assert s.announced + s.owed + (s.staged + [s.waiting[i]]) == s.announced + s.owed + s.staged + [s.waiting[i]];
        }
      case Drain => assert [] + s.staged + [] == s.staged;
      case Finish(_) =>
        assert [] + s.uncommitted == s.uncommitted;
      case _ =>
    }
  }

  lemma {:induction false} RunKeeps(steps: seq<Step>)
    ensures Inv(Run(steps))
  {
    if steps != [] {
      RunKeeps(steps[..|steps| - 1]);
      NextKeeps(Run(steps[..|steps| - 1]), steps[|steps| - 1]);
    }
  }

  /**
   Whatever races: the transaction is finalised at most once; the events announced are a
   prefix, in statement order, of writes that are durable; and when any write of it was
   undone, none is announced or will be.
   */
  lemma AnnouncedAreDurable(steps: seq<Step>)
    ensures var s := Run(steps);
      && s.endings <= 1
      && s.announced <= s.durable
      && (s.undone != [] ==> s.phase.RolledBack?)
      && (s.phase.RolledBack? ==> s.announced == [] && s.owed == [])
      && (s.InTransaction() ==> s.announced == [] && s.durable == [])
  {
    RunKeeps(steps);
    var s := Run(steps);
    if s.phase.Announcing? { assert s.durable == s.announced + (s.owed + s.staged); }
  }

  /** Once rolled back, for ever rolled back: later steps announce nothing. */
  lemma {:induction false} RolledBackStays(steps: seq<Step>, more: seq<Step>)
    requires Run(steps).phase.RolledBack?
    ensures var s := Run(steps + more); s.phase.RolledBack? && s.announced == []
  {
    if more == [] {
      assert steps + more == steps;
      RunKeeps(steps);
    } else {
      var init := more[..|more| - 1];
      RolledBackStays(steps, init);
      assert (steps + more)[..|steps + more| - 1] == steps + init;
      RunKeeps(steps + init);
    }
  }

  // ------------------------------------------------------------ is every durable write announced?

  /** Some statement ran after the events were drained or dropped. */
  ghost predicate RanLate(steps: seq<Step>) {
    exists j :: 0 <= j < |steps| && LateAt(steps, j)
  }

  ghost predicate LateAt(steps: seq<Step>, j: nat)
    requires j < |steps|
  {
    Run(steps[..j]).Closed() && steps[j].Execute? && Enabled(Run(steps[..j]), steps[j])
  }

  /** After the close, what is staged is what ran late. */
  lemma {:induction false} StagedIsLate(steps: seq<Step>)
    requires Run(steps).Closed()
    ensures Run(steps).staged != [] <==> RanLate(steps)
  {
    var n := |steps| - 1;
    assert steps != [] by { assert Run([]) == BEGUN; }
    var init := steps[..n];
    var s := Run(init);
    RunKeeps(init);
    if s.Closed() {
      StagedIsLate(init);
      LateExtends(steps);
    } else {
      assert Run(steps).staged == [];
      forall j | 0 <= j < |steps| ensures !LateAt(steps, j) {
        if j < n { OpenBefore(steps, j); }
      }
    }
  }

  lemma LateExtends(steps: seq<Step>)
    requires steps != []
    ensures RanLate(steps) <==> RanLate(steps[..|steps| - 1]) || LateAt(steps, |steps| - 1)
  {
    var n := |steps| - 1;
    var init := steps[..n];
    forall j: nat | j < n ensures LateAt(steps, j) <==> LateAt(init, j) {
      assert init[..j] == steps[..j];
    }
    if RanLate(init) {
      var j :| 0 <= j < |init| && LateAt(init, j);
      assert LateAt(steps, j);
    }
    if RanLate(steps) {
      var j :| 0 <= j < |steps| && LateAt(steps, j);
      assert j < n ==> LateAt(init, j);
    }
  }

  /** A transaction not yet closed was not closed earlier. */
  lemma {:induction false} OpenBefore(steps: seq<Step>, j: nat)
    requires j < |steps| && !Run(steps[..|steps| - 1]).Closed()
    ensures !Run(steps[..j]).Closed()
    decreases |steps| - j
  {
    if j < |steps| - 1 {
      OpenBefore(steps, j + 1);
      assert steps[..j + 1][..j] == steps[..j];
    }
  }

  /**
   Completeness, exactly. When the transaction is over and nothing is owed, every durable
   write has been announced if and only if no statement ran after the close.
   */
  lemma CompleteUnlessLate(steps: seq<Step>)
    requires Run(steps).Closed() && Run(steps).owed == []
    ensures Run(steps).announced == Run(steps).durable <==> !RanLate(steps)
  {
    RunKeeps(steps);
    StagedIsLate(steps);
    var s := Run(steps);
    assert s.durable == s.announced + s.staged;
    if s.staged != [] { assert |s.durable| > |s.announced|; }
  }

  /** A rolled-back transaction left nothing behind, exactly under the same condition. */
  lemma RollbackClean(steps: seq<Step>)
    requires Run(steps).phase.RolledBack?
    ensures Run(steps).durable == [] <==> !RanLate(steps)
  {
    RunKeeps(steps);
    StagedIsLate(steps);
  }

  /** Enough for a caller: no statement is waiting when the transaction is taken. */
  lemma QuietTakeIsComplete(steps: seq<Step>, i: nat)
    requires i < |steps| && steps[i].Take? && Run(steps[..i]).phase.Open? && Run(steps[..i]).waiting == []
    ensures !RanLate(steps)
  {
    assert steps[..i + 1][..i] == steps[..i];
    forall j | 0 <= j < |steps| ensures !LateAt(steps, j) {
      if j <= i {
        StillOpen(steps, i, j);
      } else {
        NobodyComes(steps, i + 1, j);
      }
    }
  }

  lemma {:induction false} StillOpen(steps: seq<Step>, i: nat, j: nat)
    requires j <= i < |steps| && Run(steps[..i]).phase.Open?
    ensures Run(steps[..j]).phase.Open?
    decreases i - j
  {
    if j < i {
      StillOpen(steps, i, j + 1);
      assert steps[..j + 1][..j] == steps[..j];
    }
  }

  lemma {:induction false} NobodyComes(steps: seq<Step>, i: nat, j: nat)
    requires i <= j < |steps| && !Run(steps[..i]).phase.Open? && Run(steps[..i]).waiting == []
    ensures !Run(steps[..j]).phase.Open? && Run(steps[..j]).waiting == []
    decreases j
  {
    if i < j {
      NobodyComes(steps, i, j - 1);
      assert steps[..j][..j - 1] == steps[..j - 1];
    }
  }

  /**
   The race is real: a statement that looked the connection up before a rollback commits its write
   after it, unannounced.
   */
  lemma LateWriteSurvivesRollback(w: Write)
    ensures var s := Run([Lookup(w), Take(ByRollback), Finish(true), Execute(0)]);
      s.phase.RolledBack? && s.durable == [w] && s.announced == []
  {
    var s1 := Next(BEGUN, Lookup(w));
    var s2 := Next(s1, Take(ByRollback));
    var s3 := Next(s2, Finish(true));
    assert s1.waiting == [w] && s3.waiting == [w];
    var steps := [Lookup(w), Take(ByRollback), Finish(true), Execute(0)];
    assert Run([]) == BEGUN;
    assert steps[..1] == [Lookup(w)] && [Lookup(w)][..0] == [];
    assert steps[..2][..1] == steps[..1];
    assert steps[..3][..2] == steps[..2];
    assert steps[..3] == steps[..|steps| - 1];
    assert Run(steps[..1]) == s1;
    assert Run(steps[..2]) == s2;
    assert Run(steps[..3]) == s3;
  }

  // ------------------------------------------------------------ a run told by its steps alone

  predicate IsTake(step: Step) { step.Take? }
  predicate IsFinish(step: Step) { step.Finish? }
  predicate IsDrain(step: Step) { step.Drain? }

  /** The first such step from `from` on, or the end. */
  function First(steps: seq<Step>, from: nat, such: Step -> bool): (i: nat)
    requires from <= |steps|
    ensures from <= i <= |steps| && (i < |steps| ==> such(steps[i]))
    ensures forall j :: from <= j < i ==> !such(steps[j])
    decreases |steps| - from
  {
    if from == |steps| || such(steps[from]) then from else First(steps, from + 1, such)
  }

  /** The step that takes the entry: the first to ask for it. */
  function Taking(steps: seq<Step>): (i: nat)
    ensures i <= |steps|
  {
    First(steps, 0, IsTake)
  }

  /** The step that runs COMMIT or ROLLBACK. */
  function Finishing(steps: seq<Step>): (i: nat)
    ensures i <= |steps|
  {
    if Taking(steps) == |steps| then |steps| else First(steps, Taking(steps) + 1, IsFinish)
  }

  /** The first drain after it. */
  function Draining(steps: seq<Step>): (i: nat)
    ensures i <= |steps|
  {
    if Finishing(steps) == |steps| then |steps| else First(steps, Finishing(steps) + 1, IsDrain)
  }

  /** The entry was taken to commit, and COMMIT succeeded. */
  predicate Commits(steps: seq<Step>)
    requires Finishing(steps) < |steps|
  {
    steps[Taking(steps)] == Take(ByCommit) && steps[Finishing(steps)] == Finish(true)
  }

  /** The statements that found the connection, which nobody does once the entry is taken, and have not run. */
  function Queue(steps: seq<Step>): seq<Write> {
    if steps == [] then []
    else
      var init, last := steps[..|steps| - 1], steps[|steps| - 1];
      var q := Queue(init);
      if last.Lookup? && Taking(init) == |init| then q + [last.w]
      else if last.Execute? && last.i < |q| then q[..last.i] + q[last.i + 1..]
      else q
  }

  /** The writes of the statements that ran, in their order. */
  function Written(steps: seq<Step>): seq<Write> {
    if steps == [] then []
    else
      var init, last := steps[..|steps| - 1], steps[|steps| - 1];
      if last.Execute? && last.i < |Queue(init)| then Written(init) + [Queue(init)[last.i]] else Written(init)
  }

  function Announcements(steps: seq<Step>, from: nat): nat {
    if |steps| <= from then 0
    else Announcements(steps[..|steps| - 1], from) + (if steps[|steps| - 1].Announce? then 1 else 0)
  }

  /** The whole state of a transaction, by the steps that took, finished and drained it. */
  ghost predicate Told(steps: seq<Step>, s: Tx) {
    && s.waiting == Queue(steps)
    && (Taking(steps) == |steps| <==> s.phase.Open?)
    && (Finishing(steps) == |steps| ==> BeforeFinish(steps, s))
    && (Finishing(steps) < |steps| && Commits(steps) ==> AfterCommit(steps, s))
    && (Finishing(steps) < |steps| && !Commits(steps) ==> AfterRollback(steps, s))
  }

  ghost predicate BeforeFinish(steps: seq<Step>, s: Tx) {
    && (Taking(steps) < |steps| ==> s.phase == Taken(steps[Taking(steps)].how))
    && s.uncommitted == s.staged == Written(steps)
    && s.durable == s.undone == s.owed == s.announced == []
  }

  ghost predicate AfterCommit(steps: seq<Step>, s: Tx) {
    var d := Draining(steps);
    && s.durable == Written(steps) && s.undone == s.uncommitted == []
    && if d < |steps| then Drained(s, Written(steps[..d]), Announcements(steps, d + 1))
       else s.phase == Committed && s.staged == Written(steps) && s.owed == s.announced == []
  }

  /** What was drained is announced in its order, one event a step, and what ran later is not. */
  ghost predicate Drained(s: Tx, before: seq<Write>, announcements: nat) {
    && s.phase == Announcing
    && s.announced + s.owed == before && before + s.staged == s.durable
    && |s.announced| <= announcements && (s.owed != [] ==> |s.announced| == announcements)
  }

  ghost predicate AfterRollback(steps: seq<Step>, s: Tx) {
    && s.phase == RolledBack
    && s.undone == Written(steps[..Finishing(steps)])
    && s.durable == s.staged && s.undone + s.durable == Written(steps)
    && s.uncommitted == s.owed == s.announced == []
  }

  lemma {:induction false} FirstExtends(steps: seq<Step>, from: nat, such: Step -> bool)
    requires from < |steps|
    ensures var n := |steps| - 1;
      First(steps, from, such) ==
        if First(steps[..n], from, such) < n then First(steps[..n], from, such) else if such(steps[n]) then n else n + 1
    decreases |steps| - from
  {
    if from + 1 < |steps| && !such(steps[from]) { FirstExtends(steps, from + 1, such); }
  }

  /** One more step moves the three places only if it is the step they wait for. */
  lemma PlacesExtend(steps: seq<Step>)
    requires steps != []
    ensures var n := |steps| - 1; var init, last := steps[..n], steps[n];
      && Taking(steps) == (if Taking(init) < n then Taking(init) else if last.Take? then n else n + 1)
      && Finishing(steps) ==
           (if Finishing(init) < n then Finishing(init) else if Taking(init) < n && last.Finish? then n else n + 1)
      && Draining(steps) ==
           (if Draining(init) < n then Draining(init) else if Finishing(init) < n && last.Drain? then n else n + 1)
  {
    var n := |steps| - 1;
    var init := steps[..n];
    FirstExtends(steps, 0, IsTake);
    if Taking(init) < n { FirstExtends(steps, Taking(init) + 1, IsFinish); }
    if Finishing(init) < n { FirstExtends(steps, Finishing(init) + 1, IsDrain); }
  }

  lemma FinishingTells(steps: seq<Step>, s: Tx)
    requires steps != []
    requires var init := steps[..|steps| - 1]; Told(init, s) && Finishing(init) == |init|
    ensures Told(steps, Next(s, steps[|steps| - 1]))
  {
    PlacesExtend(steps);
    var n := |steps| - 1;
    assert steps[..Finishing(steps)] == if Finishing(steps) == n then steps[..n] else steps;
    if Finishing(steps) == n {
      assert Written(steps) == Written(steps[..n]);
      assert [] + s.uncommitted == s.uncommitted;
    }
  }

  lemma RollbackTells(steps: seq<Step>, s: Tx)
    requires steps != []
    requires var init := steps[..|steps| - 1]; Told(init, s) && Finishing(init) < |init| && !Commits(init)
    ensures Told(steps, Next(s, steps[|steps| - 1]))
  {
    PlacesExtend(steps);
    var f := Finishing(steps);
    assert steps[..|steps| - 1][..f] == steps[..f];
    assert Told(steps[..|steps| - 1], s);
    if Written(steps) != Written(steps[..|steps| - 1]) {
      assert s.undone + Next(s, steps[|steps| - 1]).durable == Written(steps);
    }
  }

  lemma UndrainedTells(steps: seq<Step>, s: Tx)
    requires steps != []
    requires var init := steps[..|steps| - 1];
      Told(init, s) && Finishing(init) < |init| && Commits(init) && Draining(init) == |init|
    ensures Told(steps, Next(s, steps[|steps| - 1]))
  {
    PlacesExtend(steps);
    var n := |steps| - 1;
    if Draining(steps) == n {
      assert [] + s.staged == s.staged;
      assert Written(steps) == Written(steps[..n]) == Written(steps[..n]) + [];
    }
  }

  /** After the end a statement commits by itself, and nothing else touches the writes. */
  ghost predicate RunsAlone(s: Tx, step: Step, t: Tx) {
    && t.undone == s.undone && t.uncommitted == s.uncommitted
    && if step.Execute? && step.i < |s.waiting| then
         && t.waiting == s.waiting[..step.i] + s.waiting[step.i + 1..]
         && t.durable == s.durable + [s.waiting[step.i]]
       else t.waiting == s.waiting && t.durable == s.durable
  }

  lemma DrainedStep(s: Tx, step: Step, before: seq<Write>, announcements: nat)
    requires Drained(s, before, announcements)
    ensures Drained(Next(s, step), before, announcements + (if step.Announce? then 1 else 0))
    ensures RunsAlone(s, step, Next(s, step))
  {
    var t := Next(s, step);
    if step.Announce? && s.owed != [] { assert s.announced + s.owed == t.announced + t.owed; }
    if step.Execute? && step.i < |s.waiting| {
      assert before + (s.staged + [s.waiting[step.i]]) == (before + s.staged) + [s.waiting[step.i]];
    }
  }

  lemma WrittenExtends(steps: seq<Step>)
    requires steps != []
    ensures var init, last := steps[..|steps| - 1], steps[|steps| - 1];
      if last.Execute? && last.i < |Queue(init)| then
        && Queue(steps) == Queue(init)[..last.i] + Queue(init)[last.i + 1..]
        && Written(steps) == Written(init) + [Queue(init)[last.i]]
      else
        && Written(steps) == Written(init)
        && (Taking(init) < |init| || !last.Lookup? ==> Queue(steps) == Queue(init))
  {
  }

  lemma AnnouncementsExtend(steps: seq<Step>, from: nat)
    requires from < |steps|
    ensures Announcements(steps, from) ==
      Announcements(steps[..|steps| - 1], from) + (if steps[|steps| - 1].Announce? then 1 else 0)
  {
  }

  lemma DrainedAfter(steps: seq<Step>, s: Tx, t: Tx, d: nat)
    requires steps != [] && RunsAlone(s, steps[|steps| - 1], t)
    requires var init := steps[..|steps| - 1];
      && d == Draining(steps) < |init| && Taking(init) < |init|
      && s.waiting == Queue(init) && s.durable == Written(init) && s.undone == s.uncommitted == []
    requires Drained(t, Written(steps[..d]), Announcements(steps, d + 1))
    ensures t.waiting == Queue(steps) && AfterCommit(steps, t)
  {
    WrittenExtends(steps);
  }

  lemma DrainedTells(steps: seq<Step>, s: Tx)
    requires steps != []
    requires var init := steps[..|steps| - 1];
      Told(init, s) && Finishing(init) < |init| && Commits(init) && Draining(init) < |init|
    ensures Told(steps, Next(s, steps[|steps| - 1]))
  {
    PlacesExtend(steps);
    var n, d := |steps| - 1, Draining(steps);
    assert steps[..n][..d] == steps[..d];
    DrainedStep(s, steps[n], Written(steps[..d]), Announcements(steps[..n], d + 1));
    AnnouncementsExtend(steps, d + 1);
    DrainedAfter(steps, s, Next(s, steps[n]), d);
  }

  /** Every run's state follows from its steps. */
  lemma {:induction false} RunIsTold(steps: seq<Step>)
    ensures Told(steps, Run(steps))
  {
    if steps != [] {
      var init := steps[..|steps| - 1];
      RunIsTold(init);
      if Finishing(init) == |init| { FinishingTells(steps, Run(init)); }
      else if !Commits(init) { RollbackTells(steps, Run(init)); }
      else if Draining(init) == |init| { UndrainedTells(steps, Run(init)); }
      else { DrainedTells(steps, Run(init)); }
    }
  }

  lemma {:induction false} FirstWithin(steps: seq<Step>, n: nat, from: nat, such: Step -> bool)
    requires from <= n <= |steps|
    ensures First(steps[..n], from, such) == if First(steps, from, such) < n then First(steps, from, such) else n
    decreases n - from
  {
    if from < n && !such(steps[from]) { FirstWithin(steps, n, from + 1, such); }
  }

  /** The transaction is open up to the step that takes the entry, and taken up to the one that finishes. */
  lemma PlacesAre(steps: seq<Step>, i: nat)
    requires i < |steps|
    ensures i == Taking(steps) <==> Run(steps[..i]).phase.Open? && steps[i].Take?
    ensures i == Finishing(steps) <==> Run(steps[..i]).phase.Taken? && steps[i].Finish?
  {
    RunIsTold(steps[..i]);
    FirstWithin(steps, i, 0, IsTake);
    if Taking(steps) < i { FirstWithin(steps, i, Taking(steps) + 1, IsFinish); }
  }

  /**
   A transaction's writes are committed and its events announced only if a commit call took the
   entry while the transaction was open and its COMMIT succeeded.
   */
  lemma OnlyCommitCommits(steps: seq<Step>)
    ensures Run(steps).phase.Committed? || Run(steps).phase.Announcing? <==>
      exists i, j ::
        && 0 <= i < j < |steps| && steps[i] == Take(ByCommit) && steps[j] == Finish(true)
        && Run(steps[..i]).phase.Open? && Run(steps[..j]).phase.Taken?
    ensures Run(steps).announced != [] ==> Run(steps).phase.Announcing?
  {
    RunIsTold(steps);
    var i, j := Taking(steps), Finishing(steps);
    if j < |steps| && Commits(steps) {
      PlacesAre(steps, i);
      PlacesAre(steps, j);
    }
    forall i', j' | 0 <= i' < j' < |steps| && steps[i'] == Take(ByCommit) && steps[j'] == Finish(true)
      && Run(steps[..i']).phase.Open? && Run(steps[..j']).phase.Taken?
      ensures j < |steps| && Commits(steps)
    {
      PlacesAre(steps, i');
      PlacesAre(steps, j');
    }
  }

  /**
   If a rollback or the timeout takes the entry, or the COMMIT fails, then whatever happens later
   everything written until then is undone and no event is ever announced.
   */
  lemma OtherwiseUndone(steps: seq<Step>, i: nat, j: nat)
    requires i < j < |steps|
    requires steps[i].Take? && Run(steps[..i]).phase.Open? && steps[j].Finish? && Run(steps[..j]).phase.Taken?
    requires steps[i].how == ByRollback || steps[i].how == ByTimeout || !steps[j].ok
    ensures var s := Run(steps);
      && s.phase.RolledBack? && s.undone == Run(steps[..j]).uncommitted == Written(steps[..j])
      && s.announced == s.owed == [] && s.undone + s.durable == Written(steps)
  {
    RunIsTold(steps);
    RunIsTold(steps[..j]);
    PlacesAre(steps, i);
    PlacesAre(steps, j);
    FirstWithin(steps, j, 0, IsTake);
    FirstWithin(steps, j, i + 1, IsFinish);
  }

  // ------------------------------------------------------------ statements that run in the meantime

  /** The writes of the waiting statements that run, one after the other, by their place in the queue. */
  function Ran(waiting: seq<Write>, order: seq<nat>): seq<Write> {
    if order == [] then []
    else if order[0] >= |waiting| then Ran(waiting, order[1..])
    else [waiting[order[0]]] + Ran(waiting[..order[0]] + waiting[order[0] + 1..], order[1..])
  }

  function Rest(waiting: seq<Write>, order: seq<nat>): seq<Write> {
    if order == [] then waiting
    else if order[0] >= |waiting| then Rest(waiting, order[1..])
    else Rest(waiting[..order[0]] + waiting[order[0] + 1..], order[1..])
  }

  lemma Regroup(before: seq<Write>, w: Write, after: seq<Write>)
    ensures before + ([w] + after) == (before + [w]) + after
  {
  }

  // ------------------------------------------------------------ the buffer in place

  /** The staging buffer of one transaction and its registry entry. */
  class Transaction {
    var state: Tx

    constructor ()
      ensures state == BEGUN
    {
      state := BEGUN;
    }

    /** `take`: whoever is first gets the entry; everybody else is told it is not there. */
    method TakeEntry(how: Ending) returns (taken: bool)
      modifies this
      ensures taken == old(state.phase.Open?)
      ensures state == Next(old(state), Take(how))
    {
      taken := state.phase.Open?;
      if taken { state := state.(phase := Taken(how), endings := state.endings + 1); }
    }

    /**
     A whole commit call. Whoever else took the entry first decides; otherwise the transaction
     ends here, once, and what is announced is what was written before the drain.
     */
    method CommitTransaction(ok: bool, between: seq<nat>, late: seq<nat>) returns (found: bool)
      requires Inv(state)
      modifies this
      ensures Inv(state) && found == old(state.phase.Open?)
      ensures !found ==> state == old(state)
      ensures found ==> state.endings == 1 && state.announced <= state.durable
      ensures found && ok ==>
        && state.announced == old(state.uncommitted) + Ran(old(state.waiting), between)
        && state.durable == state.announced + Ran(Rest(old(state.waiting), between), late)
      ensures found && !ok ==> state.announced == state.durable == [] && state.undone == old(state.uncommitted)
    {
      NextKeeps(state, Take(ByCommit));
      found := TakeEntry(ByCommit);
      if found { var committed := Commit(ok, between, late); }
    }

    /** Statements that had looked the connection up run while the handler does not hold it. */
    method RunWaiting(order: seq<nat>)
      requires Inv(state) && !state.InTransaction()
      modifies this
      ensures Inv(state)
      ensures var ran := Ran(old(state.waiting), order);
        state == old(state).(waiting := Rest(old(state.waiting), order), durable := old(state.durable) + ran,
                             staged := old(state.staged) + ran)
    {
      var k := 0;
      ghost var waiting, durable, staged := state.waiting, state.durable, state.staged;
      assert order[0..] == order;
      while k < |order|
        invariant k <= |order| && Inv(state) && !state.InTransaction()
        invariant state ==
          old(state).(waiting := state.waiting, durable := state.durable, staged := state.staged)
        invariant state.durable + Ran(state.waiting, order[k..]) == durable + Ran(waiting, order)
        invariant state.staged + Ran(state.waiting, order[k..]) == staged + Ran(waiting, order)
        invariant Rest(state.waiting, order[k..]) == Rest(waiting, order)
      {
        var i := order[k];
        assert order[k..][0] == i && order[k..][1..] == order[k + 1..];
        NextKeeps(state, Execute(i));
        if i < |state.waiting| {
          var w := state.waiting[i];
          var left := state.waiting[..i] + state.waiting[i + 1..];
          Regroup(state.durable, w, Ran(left, order[k + 1..]));
          Regroup(state.staged, w, Ran(left, order[k + 1..]));
          state := state.(waiting := left, durable := state.durable + [w], staged := state.staged + [w]);
        }
        k := k + 1;
      }
      assert order[k..] == [];
      assert state.durable + [] == state.durable && state.staged + [] == state.staged;
    }

    /**
     The commit handler after `take`: COMMIT, then the staged events in statement order.
     `between` are the statements that run between COMMIT and the drain, `late` those that run
     after it. The first are announced with the transaction's writes; the others never are.
     */
    method Commit(ok: bool, between: seq<nat>, late: seq<nat>) returns (committed: bool)
      requires state.phase == Taken(ByCommit) && Inv(state)
      modifies this
      ensures Inv(state) && committed == ok
      ensures ok ==>
        && state.phase.Announcing? && state.owed == []
        && state.announced == old(state.uncommitted) + Ran(old(state.waiting), between)
        && state.durable == state.announced + Ran(Rest(old(state.waiting), between), late)
      ensures !ok ==>
        state.phase.RolledBack? && state.announced == state.durable == [] && state.undone == old(state.uncommitted)
    {
      NextKeeps(state, Finish(ok));
      state := Next(state, Finish(ok));
      committed := ok;
      if !ok { return; }
      assert [] + state.durable == state.durable;
      RunWaiting(between);
      NextKeeps(state, Drain);
      state := Next(state, Drain);
      RunWaiting(late);
      AnnounceAll();
    }

    /** The announcements, one by one. */
    method AnnounceAll()
      requires Inv(state) && state.phase.Announcing? && state.announced == []
      modifies this
      ensures Inv(state) && state == old(state).(owed := [], announced := old(state.owed))
    {
      while state.owed != []
        invariant Inv(state) && state.phase.Announcing? && state.announced + state.owed == old(state.owed)
        invariant state == old(state).(owed := state.owed, announced := state.announced)
        decreases |state.owed|
      {
        NextKeeps(state, Announce);
        var e, rest := state.owed[0], state.owed[1..];
        assert state.owed == [e] + rest;
        assert state.announced + ([e] + rest) == (state.announced + [e]) + rest;
        state := state.(owed := rest, announced := state.announced + [e]);
      }
      assert state.announced + [] == state.announced;
    }
  }
}
