/**
 Carrying out a kit plan: files one at a time, journaled in the plan record, and `kits.lock`
 last. The order is the code's: the file is written first; the journal is saved after every tenth
 file, after the last one and once more before the lock; and a save that fails is only logged. An
 attempt can be cut at any point, by a crash or by an error, whose way out tries to save the
 journal once more. It is then retried: an attempt first checks that every planned file is as the
 plan found it or as the saved journal says an earlier attempt left it.
 */
module KitApply {
  import opened Options

  type Path = string
  /** A file body, identified with its hash. */
  type Sha = string

  const JOURNAL_EVERY: nat := 10

  datatype Action = Write(sha: Sha) | Delete | Leave

  /** A planned file: what was on disk when the plan was made, and what to do with it. */
  datatype PlanFile = PlanFile(path: Path, ours: Option<Sha>, action: Action) {
    /** What the path holds once the action is carried out. */
    function Target(): Option<Sha> {
      match action
      case Write(sha) => Some(sha)
      case Delete => None
      case Leave => ours
    }

    /** Carrying the action out makes a difference. */
    predicate Moves() { Target() != ours }
  }

  datatype LockState = Before | After

  type Disk = map<Path, Sha>
  type Journal = map<Path, Option<Sha>>

  /** What survives a crash. */
  datatype Durable = Durable(disk: Disk, journal: Journal, lock: LockState)

  function At<T>(m: map<Path, T>, p: Path): Option<T> {
    if p in m then Some(m[p]) else None
  }

  function Put(disk: Disk, p: Path, body: Option<Sha>): Disk {
    if body.Some? then disk[p := body.value] else disk - {p}
  }

  /** The plan names each path once. */
  ghost predicate Distinct(plan: seq<PlanFile>) {
    forall i, j :: 0 <= i < j < |plan| ==> plan[i].path != plan[j].path
  }

  /** The plan was made of the files in `disk`. */
  ghost predicate PlanOf(plan: seq<PlanFile>, disk: Disk) {
    Distinct(plan) && forall i :: 0 <= i < |plan| ==> plan[i].ours == At(disk, plan[i].path)
  }

  /** A planned file is as the plan found it, or as the journal says it was left. */
  predicate Passes(f: PlanFile, d: Durable) {
    At(d.disk, f.path) == f.ours || At(d.journal, f.path) == Some(At(d.disk, f.path))
  }

  /** Step 1 of an apply: the lock is as planned, and so is every planned file. */
  predicate Revalidates(plan: seq<PlanFile>, d: Durable) {
    d.lock == Before && forall i :: 0 <= i < |plan| ==> Passes(plan[i], d)
  }

  // ------------------------------------------------------------ how far an attempt gets

  datatype Ending = Crash | Error(saved: bool)

  /**
   How an attempt ends: after `budget` operations, each a file, a journal save or the lock.
   `failed` are the numbers of the saves that fail. An attempt that is not cut has budget to spare.
   */
  datatype Cut = Cut(budget: nat, failed: set<nat>, ending: Ending)

  function Min(a: nat, b: nat): nat { if a < b then a else b }

  /** Saves made among `n` files; one more follows them. */
  function Saves(n: nat): nat { (n + JOURNAL_EVERY - 1) / JOURNAL_EVERY }

  /** How many files save `j` covers. */
  function Upto(n: nat, j: nat): nat { Min(JOURNAL_EVERY * (j + 1), n) }

  /** The lock is written: all files and saves come before it. */
  predicate Locks(n: nat, cut: Cut) { n + Saves(n) + 1 < cut.budget }

  /** How many files are carried out: ten in every eleven operations. */
  function Done(n: nat, budget: nat): nat {
    Min(n, JOURNAL_EVERY * (budget / (JOURNAL_EVERY + 1)) + Min(budget % (JOURNAL_EVERY + 1), JOURNAL_EVERY))
  }

  /** Save `j` is reached and succeeds. */
  predicate Saved(n: nat, j: nat, cut: Cut) { Upto(n, j) + j < cut.budget && j !in cut.failed }

  /** How many files the last successful one of the first `j` saves covers. */
  function LastSaved(n: nat, j: nat, cut: Cut): nat {
    if j == 0 then 0 else if Saved(n, j - 1, cut) then Upto(n, j - 1) else LastSaved(n, j - 1, cut)
  }

  /** How many files the saved journal knows of after the attempt. */
  function Known(n: nat, cut: Cut): nat {
    if cut.ending == Error(true) && !Locks(n, cut) then Done(n, cut.budget)
    else LastSaved(n, Saves(n) + 1, cut)
  }

  /** The disk with the first `n` actions carried out. */
  function Applied(plan: seq<PlanFile>, disk: Disk, n: nat): Disk
    requires n <= |plan|
  {
    if n == 0 then disk
    else if plan[n - 1].action.Leave? then Applied(plan, disk, n - 1)
    else Put(Applied(plan, disk, n - 1), plan[n - 1].path, plan[n - 1].Target())
  }

  /** The journal with the first `n` actions noted. */
  function Noted(plan: seq<PlanFile>, journal: Journal, n: nat): Journal
    requires n <= |plan|
  {
    if n == 0 then journal
    else if plan[n - 1].action.Leave? then Noted(plan, journal, n - 1)
    else Noted(plan, journal, n - 1)[plan[n - 1].path := plan[n - 1].Target()]
  }

  lemma DoneBound(n: nat, cut: Cut)
    ensures Done(n, cut.budget) <= n && Known(n, cut) <= Done(n, cut.budget)
  {
    SavedBound(n, Saves(n) + 1, cut);
  }

  /** One `kits::apply`: refused when the plan is stale, else carried out up to the cut. */
  function Attempt(plan: seq<PlanFile>, d: Durable, cut: Cut): Durable {
    if !Revalidates(plan, d) then d
    else
      DoneBound(|plan|, cut);
      Durable(
        Applied(plan, d.disk, Done(|plan|, cut.budget)),
        Noted(plan, d.journal, Known(|plan|, cut)),
        if Locks(|plan|, cut) then After else Before)
  }

  function Attempts(plan: seq<PlanFile>, d: Durable, cuts: seq<Cut>): Durable {
    if cuts == [] then d
    else Attempt(plan, Attempts(plan, d, cuts[..|cuts| - 1]), cuts[|cuts| - 1])
  }

  // ------------------------------------------------------------ counting operations

  /** File `i` is carried out exactly when its operation, after `i` files and their saves, is reached. */
  lemma DoneIs(n: nat, budget: nat, i: nat)
    ensures i < Done(n, budget) <==> i < n && i + i / JOURNAL_EVERY < budget
  {
  }

  /** A save covers files that were carried out. */
  lemma {:induction false} SavedBound(n: nat, j: nat, cut: Cut)
    ensures LastSaved(n, j, cut) <= Done(n, cut.budget)
  {
    if j > 0 {
      SavedBound(n, j - 1, cut);
      if Saved(n, j - 1, cut) && Upto(n, j - 1) > 0 {
        DoneIs(n, cut.budget, Upto(n, j - 1) - 1);
      }
    }
  }

  /** With the lock written, or nothing cut, every file was carried out. */
  lemma LocksAll(n: nat, cut: Cut)
    requires Locks(n, cut)
    ensures Done(n, cut.budget) == n
  {
    if n > 0 { DoneIs(n, cut.budget, n - 1); }
  }

  // ------------------------------------------------------------ files and journal, path by path

  lemma {:induction false} AppliedAt(plan: seq<PlanFile>, disk: Disk, n: nat, q: Path)
    requires Distinct(plan) && n <= |plan|
    ensures forall i :: 0 <= i < n && plan[i].path == q && !plan[i].action.Leave? ==>
      At(Applied(plan, disk, n), q) == plan[i].Target()
    ensures (forall i :: 0 <= i < n && plan[i].path == q ==> plan[i].action.Leave?) ==>
      At(Applied(plan, disk, n), q) == At(disk, q)
  {
    if n > 0 { AppliedAt(plan, disk, n - 1, q); }
  }

  lemma {:induction false} NotedAt(plan: seq<PlanFile>, journal: Journal, n: nat, i: nat)
    requires Distinct(plan) && n <= |plan| && i < |plan|
    ensures At(Noted(plan, journal, n), plan[i].path) ==
      if i < n && !plan[i].action.Leave? then Some(plan[i].Target()) else At(journal, plan[i].path)
  {
    if n > 0 { NotedAt(plan, journal, n - 1, i); }
  }

  /** What a planned path holds after the first `n` actions. */
  lemma AppliedFile(plan: seq<PlanFile>, disk: Disk, n: nat, i: nat)
    requires Distinct(plan) && n <= |plan| && i < |plan|
    ensures At(Applied(plan, disk, n), plan[i].path) ==
      if i < n && !plan[i].action.Leave? then plan[i].Target() else At(disk, plan[i].path)
  {
    AppliedAt(plan, disk, n, plan[i].path);
  }

  // ------------------------------------------------------------ every run of attempts

  ghost predicate Planned(plan: seq<PlanFile>, q: Path) {
    exists i :: 0 <= i < |plan| && plan[i].path == q
  }

  /** Each planned path holds what it held or what it is to hold; no other path changed. */
  ghost predicate Between(plan: seq<PlanFile>, disk0: Disk, disk: Disk) {
    && (forall i :: 0 <= i < |plan| ==>
          At(disk, plan[i].path) == plan[i].ours || At(disk, plan[i].path) == plan[i].Target())
    && (forall q :: !Planned(plan, q) ==> At(disk, q) == At(disk0, q))
  }

  /** A journal speaks truly of planned files. */
  ghost predicate Honest(plan: seq<PlanFile>, disk: Disk, journal: Journal) {
    forall i :: 0 <= i < |plan| && plan[i].path in journal ==>
      journal[plan[i].path] == plan[i].Target() == At(disk, plan[i].path)
  }

  ghost predicate Settled(plan: seq<PlanFile>, disk: Disk) {
    forall i :: 0 <= i < |plan| ==> At(disk, plan[i].path) == plan[i].Target()
  }

  ghost predicate Inv(plan: seq<PlanFile>, disk0: Disk, d: Durable) {
    && Between(plan, disk0, d.disk)
    && Honest(plan, d.disk, d.journal)
    && (d.lock == After ==> Settled(plan, d.disk))
  }

  lemma AppliedBetween(plan: seq<PlanFile>, disk0: Disk, disk: Disk, n: nat)
    requires PlanOf(plan, disk0) && Between(plan, disk0, disk) && n <= |plan|
    ensures Between(plan, disk0, Applied(plan, disk, n))
  {
    var after := Applied(plan, disk, n);
    forall i | 0 <= i < |plan|
      ensures At(after, plan[i].path) == plan[i].ours || At(after, plan[i].path) == plan[i].Target()
    {
      AppliedFile(plan, disk, n, i);
    }
    forall q | !Planned(plan, q) ensures At(after, q) == At(disk0, q) { AppliedAt(plan, disk, n, q); }
  }

  lemma NotedHonest(plan: seq<PlanFile>, disk: Disk, journal: Journal, n: nat, k: nat)
    requires Distinct(plan) && Honest(plan, disk, journal) && k <= n <= |plan|
    ensures Honest(plan, Applied(plan, disk, n), Noted(plan, journal, k))
  {
    var after, noted := Applied(plan, disk, n), Noted(plan, journal, k);
    forall i | 0 <= i < |plan| && plan[i].path in noted
      ensures noted[plan[i].path] == plan[i].Target() == At(after, plan[i].path)
    {
      AppliedFile(plan, disk, n, i);
      NotedAt(plan, journal, k, i);
    }
  }

  lemma AppliedSettles(plan: seq<PlanFile>, disk0: Disk, disk: Disk)
    requires PlanOf(plan, disk0) && Between(plan, disk0, disk)
    ensures Settled(plan, Applied(plan, disk, |plan|))
  {
    forall i | 0 <= i < |plan|
      ensures At(Applied(plan, disk, |plan|), plan[i].path) == plan[i].Target()
    {
      AppliedFile(plan, disk, |plan|, i);
    }
  }

  lemma AttemptKeeps(plan: seq<PlanFile>, disk0: Disk, d: Durable, cut: Cut)
    requires PlanOf(plan, disk0) && Inv(plan, disk0, d)
    ensures Inv(plan, disk0, Attempt(plan, d, cut))
  {
    if Revalidates(plan, d) {
      DoneBound(|plan|, cut);
      AppliedBetween(plan, disk0, d.disk, Done(|plan|, cut.budget));
      NotedHonest(plan, d.disk, d.journal, Done(|plan|, cut.budget), Known(|plan|, cut));
      if Locks(|plan|, cut) {
        LocksAll(|plan|, cut);
        AppliedSettles(plan, disk0, d.disk);
      }
    }
  }

  /** The project when the plan is made. */
  function Fresh(disk: Disk): Durable { Durable(disk, map[], Before) }

  lemma {:induction false} AttemptsKeep(plan: seq<PlanFile>, disk0: Disk, cuts: seq<Cut>)
    requires PlanOf(plan, disk0)
    ensures Inv(plan, disk0, Attempts(plan, Fresh(disk0), cuts))
  {
    if cuts != [] {
      AttemptsKeep(plan, disk0, cuts[..|cuts| - 1]);
      AttemptKeeps(plan, disk0, Attempts(plan, Fresh(disk0), cuts[..|cuts| - 1]), cuts[|cuts| - 1]);
    }
  }

  lemma SameAt(a: Disk, b: Disk)
    requires forall q :: At(a, q) == At(b, q)
    ensures a == b
  {
    forall q ensures q in a <==> q in b { assert At(a, q) == At(b, q); }
    forall q | q in a ensures a[q] == b[q] { assert At(a, q) == At(b, q); }
  }

  /** Files in place everywhere is the disk of an uninterrupted apply. */
  lemma SettledIsApplied(plan: seq<PlanFile>, disk0: Disk, disk: Disk)
    requires PlanOf(plan, disk0) && Between(plan, disk0, disk) && Settled(plan, disk)
    ensures disk == Applied(plan, disk0, |plan|)
  {
    var all := Applied(plan, disk0, |plan|);
    forall q ensures At(disk, q) == At(all, q) {
      AppliedAt(plan, disk0, |plan|, q);
      if i :| 0 <= i < |plan| && plan[i].path == q {
        AppliedFile(plan, disk0, |plan|, i);
        assert At(disk, plan[i].path) == plan[i].Target();
      } else {
        assert !Planned(plan, q);
      }
    }
    SameAt(disk, all);
  }

  /**
   The lock last: whatever the cuts and the failing saves, `kits.lock` names the new version only
   when every planned write and delete is in place, and then the files are those of an
   uninterrupted apply.
   */
  lemma LockLast(plan: seq<PlanFile>, disk0: Disk, cuts: seq<Cut>)
    requires PlanOf(plan, disk0)
    ensures var d := Attempts(plan, Fresh(disk0), cuts);
      d.lock == After ==> d.disk == Applied(plan, disk0, |plan|)
  {
    AttemptsKeep(plan, disk0, cuts);
    var d := Attempts(plan, Fresh(disk0), cuts);
    if d.lock == After { SettledIsApplied(plan, disk0, d.disk); }
  }

  // ------------------------------------------------------------ what the files and the journal hold

  /** What an action leaves at its path, `was` being the disk before: the body written, nothing, or what was there. */
  ghost predicate Carried(f: PlanFile, was: Disk, now: Disk) {
    match f.action
    case Write(sha) => f.path in now && now[f.path] == sha
    case Delete => f.path !in now
    case Leave => (f.path in now <==> f.path in was) && (f.path in now ==> now[f.path] == was[f.path])
  }

  /** Paths the plan does not name are as they were. */
  ghost predicate OthersKept(plan: seq<PlanFile>, was: Disk, now: Disk) {
    forall q :: !Planned(plan, q) ==> (q in now <==> q in was) && (q in now ==> now[q] == was[q])
  }

  ghost predicate InPlace(plan: seq<PlanFile>, was: Disk, now: Disk) {
    OthersKept(plan, was, now) && forall i :: 0 <= i < |plan| ==> Carried(plan[i], was, now)
  }

  lemma CarriedAt(f: PlanFile, was: Disk, now: Disk)
    requires f.ours == At(was, f.path) && At(now, f.path) == f.Target()
    ensures Carried(f, was, now)
  {
  }

  lemma KeptAt(was: Disk, now: Disk, q: Path)
    requires At(now, q) == At(was, q)
    ensures (q in now <==> q in was) && (q in now ==> now[q] == was[q])
  {
  }

  lemma BetweenKeeps(plan: seq<PlanFile>, disk0: Disk, disk: Disk)
    requires Between(plan, disk0, disk)
    ensures OthersKept(plan, disk0, disk)
  {
    forall q | !Planned(plan, q) ensures (q in disk <==> q in disk0) && (q in disk ==> disk[q] == disk0[q]) {
      KeptAt(disk0, disk, q);
    }
  }

  /**
   Once the lock names the new version, every body planned is written, every file to delete is
   gone, and every other path is as it was before the first attempt.
   */
  lemma LockedFiles(plan: seq<PlanFile>, disk0: Disk, cuts: seq<Cut>)
    requires PlanOf(plan, disk0)
    ensures var d := Attempts(plan, Fresh(disk0), cuts); d.lock == After ==> InPlace(plan, disk0, d.disk)
  {
    AttemptsKeep(plan, disk0, cuts);
    var d := Attempts(plan, Fresh(disk0), cuts);
    BetweenKeeps(plan, disk0, d.disk);
    if d.lock == After {
      forall i | 0 <= i < |plan| ensures Carried(plan[i], disk0, d.disk) { CarriedAt(plan[i], disk0, d.disk); }
    }
  }

  /** Until then, each planned path is as it was or as its action leaves it, and every other path is as it was. */
  lemma HalfwayFiles(plan: seq<PlanFile>, disk0: Disk, cuts: seq<Cut>, i: nat)
    requires PlanOf(plan, disk0) && i < |plan|
    ensures var d := Attempts(plan, Fresh(disk0), cuts);
      && OthersKept(plan, disk0, d.disk)
      && (Carried(plan[i], disk0, d.disk) || Carried(plan[i].(action := Leave), disk0, d.disk))
  {
    AttemptsKeep(plan, disk0, cuts);
    var d := Attempts(plan, Fresh(disk0), cuts);
    BetweenKeeps(plan, disk0, d.disk);
    if At(d.disk, plan[i].path) == plan[i].Target() {
      CarriedAt(plan[i], disk0, d.disk);
    } else {
      CarriedAt(plan[i].(action := Leave), disk0, d.disk);
    }
  }

  /** An uninterrupted apply leaves just that. */
  lemma AppliedInPlace(plan: seq<PlanFile>, disk0: Disk)
    requires PlanOf(plan, disk0)
    ensures InPlace(plan, disk0, Applied(plan, disk0, |plan|))
  {
    var all := Applied(plan, disk0, |plan|);
    forall i | 0 <= i < |plan| ensures Carried(plan[i], disk0, all) {
      AppliedFile(plan, disk0, |plan|, i);
      CarriedAt(plan[i], disk0, all);
    }
    forall q | !Planned(plan, q) ensures (q in all <==> q in disk0) && (q in all ==> all[q] == disk0[q]) {
      AppliedAt(plan, disk0, |plan|, q);
      KeptAt(disk0, all, q);
    }
  }

  /** A journal entry for a path: the body written there, or that the file was deleted; never for a file left alone. */
  ghost predicate NotesAction(plan: seq<PlanFile>, journal: Journal, q: Path) {
    exists i :: 0 <= i < |plan| && plan[i].path == q && Notes(plan[i], journal)
  }

  ghost predicate Notes(f: PlanFile, journal: Journal) {
    f.path in journal &&
    match f.action
    case Write(sha) => journal[f.path] == Some(sha)
    case Delete => journal[f.path] == None
    case Leave => false
  }

  lemma {:induction false} NotedNotes(plan: seq<PlanFile>, journal: Journal, n: nat, q: Path)
    requires Distinct(plan) && n <= |plan| && (q in journal ==> NotesAction(plan, journal, q))
    ensures q in Noted(plan, journal, n) ==> NotesAction(plan, Noted(plan, journal, n), q)
  {
    if n > 0 {
      NotedNotes(plan, journal, n - 1, q);
      var before, after := Noted(plan, journal, n - 1), Noted(plan, journal, n);
      if plan[n - 1].path == q {
        if !plan[n - 1].action.Leave? { assert Notes(plan[n - 1], after); }
      } else if q in after {
        var i :| 0 <= i < |plan| && plan[i].path == q && Notes(plan[i], before);
        assert Notes(plan[i], after);
      }
    }
  }

  /** Whatever the attempts, the saved journal speaks of what the plan writes and deletes, and says which. */
  lemma {:induction false} JournalNotes(plan: seq<PlanFile>, d: Durable, cuts: seq<Cut>, q: Path)
    requires Distinct(plan) && (q in d.journal ==> NotesAction(plan, d.journal, q))
    ensures var j := Attempts(plan, d, cuts).journal; q in j ==> NotesAction(plan, j, q)
  {
    if cuts != [] {
      var init, cut := cuts[..|cuts| - 1], cuts[|cuts| - 1];
      JournalNotes(plan, d, init, q);
      DoneBound(|plan|, cut);
      NotedNotes(plan, Attempts(plan, d, init).journal, Known(|plan|, cut), q);
    }
  }

  /** And an accepted attempt whose journal covers a written or deleted file has noted it. */
  lemma SavedNotes(plan: seq<PlanFile>, d: Durable, cut: Cut, i: nat)
    requires Distinct(plan) && Revalidates(plan, d) && i < Known(|plan|, cut) && i < |plan|
    requires !plan[i].action.Leave?
    ensures Notes(plan[i], Attempt(plan, d, cut).journal)
  {
    DoneBound(|plan|, cut);
    NotedAt(plan, d.journal, Known(|plan|, cut), i);
  }

  /** The first saves, each after ten more files. */
  lemma {:induction false} FullSaves(n: nat, j: nat, budget: nat)
    requires 10 * j <= n
    ensures LastSaved(n, j, Cut(budget, {}, Crash)) == 10 * Min(j, budget / 11)
  {
    if j > 0 { FullSaves(n, j - 1, budget); }
  }

  /**
   The journal is saved after every tenth file and after the last: of eleven operations ten are
   files, and a crash loses what was carried out since the last full ten.
   */
  lemma EveryTenth(n: nat, budget: nat)
    ensures var through := n + (n + 9) / 10 <= budget;
      && Done(n, budget) == (if through then n else budget - budget / 11)
      && Known(n, Cut(budget, {}, Crash)) == (if through then n else 10 * (budget / 11))
  {
    var cut := Cut(budget, {}, Crash);
    FullSaves(n, n / 10, budget);
    assert Known(n, cut) == LastSaved(n, Saves(n) + 1, cut);
    if n % 10 != 0 { assert Saves(n) == n / 10 + 1; }
  }

  // ------------------------------------------------------------ when a retry is accepted

  lemma PassesAfter(plan: seq<PlanFile>, disk0: Disk, d: Durable, cut: Cut, i: nat)
    requires PlanOf(plan, disk0) && Inv(plan, disk0, d) && Revalidates(plan, d) && i < |plan|
    ensures Passes(plan[i], Attempt(plan, d, cut)) <==>
      (i < Done(|plan|, cut.budget) && plan[i].Moves() ==> plan[i].path in d.journal || i < Known(|plan|, cut))
  {
    DoneBound(|plan|, cut);
    AppliedFile(plan, d.disk, Done(|plan|, cut.budget), i);
    NotedAt(plan, d.journal, Known(|plan|, cut), i);
    assert Passes(plan[i], d);
  }

  /**
   One attempt, exactly: it is accepted again if and only if the lock is not reached and each
   file it carried out that makes a difference is in the journal it began with or in what it
   saved. All of it is a matter of the budget, the number of files, the failing saves and the
   ending.
   */
  lemma AttemptRetriable(plan: seq<PlanFile>, disk0: Disk, d: Durable, cut: Cut)
    requires PlanOf(plan, disk0) && Inv(plan, disk0, d) && Revalidates(plan, d)
    ensures Revalidates(plan, Attempt(plan, d, cut)) <==>
      && !Locks(|plan|, cut)
      && forall i :: 0 <= i < |plan| && i < Done(|plan|, cut.budget) && plan[i].Moves() ==>
           plan[i].path in d.journal || i < Known(|plan|, cut)
  {
    var after := Attempt(plan, d, cut);
    forall i | 0 <= i < |plan|
      ensures Passes(plan[i], after) <==>
        (i < Done(|plan|, cut.budget) && plan[i].Moves() ==> plan[i].path in d.journal || i < Known(|plan|, cut))
    {
      PassesAfter(plan, disk0, d, cut, i);
    }
    if forall i :: 0 <= i < |plan| && i < Done(|plan|, cut.budget) && plan[i].Moves() ==>
         plan[i].path in d.journal || i < Known(|plan|, cut)
    {
      assert forall i :: 0 <= i < |plan| ==> Passes(plan[i], after);
    }
  }

  /** An attempt ended by an error whose last save succeeds can always be retried. */
  lemma ErrorRetriable(plan: seq<PlanFile>, disk0: Disk, d: Durable, cut: Cut)
    requires PlanOf(plan, disk0) && Inv(plan, disk0, d) && Revalidates(plan, d) && cut.ending == Error(true)
    ensures Revalidates(plan, Attempt(plan, d, cut)) <==> !Locks(|plan|, cut)
  {
    AttemptRetriable(plan, disk0, d, cut);
  }

  /** A plan refused once is refused for ever: nothing is written again. */
  lemma {:induction false} StaleForever(plan: seq<PlanFile>, d: Durable, cuts: seq<Cut>)
    requires !Revalidates(plan, d)
    ensures Attempts(plan, d, cuts) == d
  {
    if cuts != [] { StaleForever(plan, d, cuts[..|cuts| - 1]); }
  }

  // ------------------------------------------------------------ whole runs, from the cuts alone

  /** The attempt's saved journal names file `i`. */
  predicate SavedIn(plan: seq<PlanFile>, cut: Cut, i: nat)
    requires i < |plan|
  {
    i < Known(|plan|, cut) && !plan[i].action.Leave?
  }

  /** Some attempt up to number `k` saved file `i`. */
  ghost predicate SavedBy(plan: seq<PlanFile>, cuts: seq<Cut>, k: nat, i: nat)
    requires i < |plan|
  {
    exists m :: 0 <= m <= k && m < |cuts| && SavedIn(plan, cuts[m], i)
  }

  /**
   Attempt `k` strands the plan: it does not reach the lock, and carries out a file that makes a
   difference and that no attempt so far has saved.
   */
  ghost predicate Strands(plan: seq<PlanFile>, cuts: seq<Cut>, k: nat)
    requires k < |cuts|
  {
    && !Locks(|plan|, cuts[k])
    && exists i :: 0 <= i < |plan| && i < Done(|plan|, cuts[k].budget) && plan[i].Moves() && !SavedBy(plan, cuts, k, i)
  }

  /** Some attempt before number `k` reached the lock. */
  ghost predicate EndedBefore(plan: seq<PlanFile>, cuts: seq<Cut>, k: nat) {
    exists m :: 0 <= m < k && m < |cuts| && Locks(|plan|, cuts[m])
  }

  /** No attempt among the first `n` stranded the plan, unless it was finished before. */
  ghost predicate NeverStranded(plan: seq<PlanFile>, cuts: seq<Cut>, n: nat) {
    forall k :: 0 <= k < n && k < |cuts| && Strands(plan, cuts, k) ==> EndedBefore(plan, cuts, k)
  }

  /** The journal after attempts none of which was refused or finished. */
  ghost predicate JournalOf(plan: seq<PlanFile>, cuts: seq<Cut>, journal: Journal) {
    forall i :: 0 <= i < |plan| ==>
      (plan[i].path in journal <==> exists m :: 0 <= m < |cuts| && SavedIn(plan, cuts[m], i))
  }

  lemma SavedByPrefix(plan: seq<PlanFile>, cuts: seq<Cut>, n: nat, i: nat)
    requires n < |cuts| && i < |plan|
    ensures SavedBy(plan, cuts, n, i) <==>
      (exists m :: 0 <= m < n && SavedIn(plan, cuts[..n][m], i)) || SavedIn(plan, cuts[n], i)
  {
    var init := cuts[..n];
    if m :| 0 <= m <= n && SavedIn(plan, cuts[m], i) { assert m < n ==> init[m] == cuts[m]; }
    if m :| 0 <= m < n && SavedIn(plan, init[m], i) { assert init[m] == cuts[m]; }
  }

  lemma JournalStep(plan: seq<PlanFile>, disk0: Disk, cuts: seq<Cut>, d: Durable)
    requires cuts != [] && PlanOf(plan, disk0) && Revalidates(plan, d)
    requires JournalOf(plan, cuts[..|cuts| - 1], d.journal)
    ensures JournalOf(plan, cuts, Attempt(plan, d, cuts[|cuts| - 1]).journal)
  {
    var n := |cuts| - 1;
    DoneBound(|plan|, cuts[n]);
    forall i | 0 <= i < |plan|
      ensures plan[i].path in Attempt(plan, d, cuts[n]).journal <==>
        exists m :: 0 <= m < |cuts| && SavedIn(plan, cuts[m], i)
    {
      NotedAt(plan, d.journal, Known(|plan|, cuts[n]), i);
      SavedByPrefix(plan, cuts, n, i);
    }
  }

  /** The last attempt strands the plan exactly when it leaves it unfinished and refused. */
  lemma StrandsLast(plan: seq<PlanFile>, disk0: Disk, cuts: seq<Cut>, d: Durable)
    requires cuts != [] && PlanOf(plan, disk0) && Inv(plan, disk0, d) && Revalidates(plan, d)
    requires JournalOf(plan, cuts[..|cuts| - 1], d.journal)
    ensures var n := |cuts| - 1;
      var after := Attempt(plan, d, cuts[n]);
      && (after.lock == After <==> Locks(|plan|, cuts[n]))
      && (Revalidates(plan, after) <==> !Locks(|plan|, cuts[n]) && !Strands(plan, cuts, n))
  {
    var n := |cuts| - 1;
    AttemptRetriable(plan, disk0, d, cuts[n]);
    forall i | 0 <= i < |plan| && plan[i].Moves()
      ensures SavedBy(plan, cuts, n, i) <==> plan[i].path in d.journal || i < Known(|plan|, cuts[n])
    {
      SavedByPrefix(plan, cuts, n, i);
    }
  }

  /** Where a run of attempts stands: stranded, finished, or open for another attempt. */
  ghost predicate Standing(plan: seq<PlanFile>, cuts: seq<Cut>, d: Durable) {
    && (d.lock == After || Revalidates(plan, d) <==> NeverStranded(plan, cuts, |cuts|))
    && (Revalidates(plan, d) ==> !EndedBefore(plan, cuts, |cuts|) && JournalOf(plan, cuts, d.journal))
    && (d.lock == After ==> EndedBefore(plan, cuts, |cuts|))
  }

  lemma NeverStrandedSnoc(plan: seq<PlanFile>, cuts: seq<Cut>)
    requires cuts != []
    ensures var n := |cuts| - 1;
      && (NeverStranded(plan, cuts, n + 1) <==>
            NeverStranded(plan, cuts[..n], n) && (Strands(plan, cuts, n) ==> EndedBefore(plan, cuts[..n], n)))
      && (EndedBefore(plan, cuts, n + 1) <==> EndedBefore(plan, cuts[..n], n) || Locks(|plan|, cuts[n]))
  {
    var n := |cuts| - 1;
    var init := cuts[..n];
    forall k | 0 <= k <= n ensures EndedBefore(plan, cuts, k) <==> EndedBefore(plan, init, k) {
      if m :| 0 <= m < k && Locks(|plan|, cuts[m]) { assert init[m] == cuts[m]; }
      if m :| 0 <= m < k && m < |init| && Locks(|plan|, init[m]) { assert init[m] == cuts[m]; }
    }
    forall k | 0 <= k < n ensures Strands(plan, cuts, k) <==> Strands(plan, init, k) { StrandsPrefix(plan, cuts, k); }
    if EndedBefore(plan, cuts, n + 1) && !Locks(|plan|, cuts[n]) {
      var m :| 0 <= m < n + 1 && Locks(|plan|, cuts[m]);
      assert EndedBefore(plan, cuts, n);
    }
  }

  lemma StrandsPrefix(plan: seq<PlanFile>, cuts: seq<Cut>, k: nat)
    requires k < |cuts| - 1
    ensures Strands(plan, cuts, k) <==> Strands(plan, cuts[..|cuts| - 1], k)
  {
    var init := cuts[..|cuts| - 1];
    forall i | 0 <= i < |plan| ensures SavedBy(plan, cuts, k, i) <==> SavedBy(plan, init, k, i) {
      if m :| 0 <= m <= k && SavedIn(plan, cuts[m], i) { assert init[m] == cuts[m]; }
      if m :| 0 <= m <= k && m < |init| && SavedIn(plan, init[m], i) { assert init[m] == cuts[m]; }
    }
  }

  lemma {:induction false} RunStands(plan: seq<PlanFile>, disk0: Disk, cuts: seq<Cut>)
    requires PlanOf(plan, disk0)
    ensures Standing(plan, cuts, Attempts(plan, Fresh(disk0), cuts))
  {
    if cuts != [] {
      var n := |cuts| - 1;
      var init := cuts[..n];
      var d := Attempts(plan, Fresh(disk0), init);
      RunStands(plan, disk0, init);
      AttemptsKeep(plan, disk0, init);
      NeverStrandedSnoc(plan, cuts);
      if Revalidates(plan, d) {
        StrandsLast(plan, disk0, cuts, d);
        JournalStep(plan, disk0, cuts, d);
      }
    }
  }

  /**
   Whole runs, exactly: after any attempts, cut by crashes and errors with any saves failing, the
   plan is finished or can still be retried if and only if no attempt stranded it first. The
   condition is on the plan and the cuts alone.
   */
  lemma RetriableExactly(plan: seq<PlanFile>, disk0: Disk, cuts: seq<Cut>)
    requires PlanOf(plan, disk0)
    ensures var d := Attempts(plan, Fresh(disk0), cuts);
      d.lock == After || Revalidates(plan, d) <==> NeverStranded(plan, cuts, |cuts|)
  {
    RunStands(plan, disk0, cuts);
  }

  /** Errors whose last save succeeds never strand a plan, whatever other saves fail. */
  lemma ErrorsOnlyRetriable(plan: seq<PlanFile>, disk0: Disk, cuts: seq<Cut>)
    requires PlanOf(plan, disk0) && forall k :: 0 <= k < |cuts| ==> cuts[k].ending == Error(true)
    ensures var d := Attempts(plan, Fresh(disk0), cuts); d.lock == After || Revalidates(plan, d)
  {
    RetriableExactly(plan, disk0, cuts);
    forall k | 0 <= k < |cuts| ensures !Strands(plan, cuts, k) {
      if !Locks(|plan|, cuts[k]) {
        forall i | 0 <= i < |plan| && i < Done(|plan|, cuts[k].budget) && plan[i].Moves()
          ensures SavedBy(plan, cuts, k, i)
        {
          assert SavedIn(plan, cuts[k], i);
        }
      }
    }
  }

  /**
   Whatever the earlier attempts left, one accepted attempt that is not cut ends with the new
   lock and the very files of an apply that was never interrupted.
   */
  lemma RetryCompletes(plan: seq<PlanFile>, disk0: Disk, cuts: seq<Cut>, last: Cut)
    requires PlanOf(plan, disk0) && Locks(|plan|, last)
    requires Revalidates(plan, Attempts(plan, Fresh(disk0), cuts))
    ensures var d := Attempts(plan, Fresh(disk0), cuts + [last]);
      d.lock == After && d.disk == Applied(plan, disk0, |plan|)
  {
    assert (cuts + [last])[..|cuts|] == cuts;
    LockLast(plan, disk0, cuts + [last]);
  }

  // ------------------------------------------------------------ other decisions on a retry

  /** The same files, whatever is decided about them. */
  ghost predicate SameFiles(plan: seq<PlanFile>, other: seq<PlanFile>) {
    |other| == |plan| && forall i :: 0 <= i < |plan| ==>
      other[i].path == plan[i].path && other[i].ours == plan[i].ours
  }

  /** Attempts each with decisions of their own. */
  function Decided(plans: seq<seq<PlanFile>>, d: Durable, cuts: seq<Cut>): Durable
    requires |plans| == |cuts|
  {
    if cuts == [] then d
    else Attempt(plans[|cuts| - 1], Decided(plans[..|cuts| - 1], d, cuts[..|cuts| - 1]), cuts[|cuts| - 1])
  }

  ghost predicate OnlyPlanned(plan: seq<PlanFile>, disk0: Disk, disk: Disk) {
    forall q :: !Planned(plan, q) ==> At(disk, q) == At(disk0, q)
  }

  lemma AttemptOnlyPlanned(plan: seq<PlanFile>, other: seq<PlanFile>, disk0: Disk, d: Durable, cut: Cut)
    requires Distinct(plan) && SameFiles(plan, other) && OnlyPlanned(plan, disk0, d.disk)
    ensures OnlyPlanned(plan, disk0, Attempt(other, d, cut).disk)
  {
    DoneBound(|other|, cut);
    forall q | !Planned(plan, q) ensures At(Attempt(other, d, cut).disk, q) == At(disk0, q) {
      AppliedAt(other, d.disk, Done(|other|, cut.budget), q);
    }
  }

  lemma {:induction false} DecidedOnlyPlanned(
    plan: seq<PlanFile>, disk0: Disk, plans: seq<seq<PlanFile>>, cuts: seq<Cut>)
    requires Distinct(plan) && |plans| == |cuts|
    requires forall k :: 0 <= k < |plans| ==> SameFiles(plan, plans[k])
    ensures OnlyPlanned(plan, disk0, Decided(plans, Fresh(disk0), cuts).disk)
  {
    if cuts != [] {
      var n := |cuts| - 1;
      DecidedOnlyPlanned(plan, disk0, plans[..n], cuts[..n]);
      AttemptOnlyPlanned(plan, plans[n], disk0, Decided(plans[..n], Fresh(disk0), cuts[..n]), cuts[n]);
    }
  }

  /** A file the decisions leave alone is as the plan found it. */
  ghost predicate LeavesAlone(plan: seq<PlanFile>, disk: Disk) {
    forall i :: 0 <= i < |plan| && plan[i].action.Leave? ==> At(disk, plan[i].path) == plan[i].ours
  }

  lemma WholeApply(plan: seq<PlanFile>, disk0: Disk, disk: Disk)
    requires PlanOf(plan, disk0) && OnlyPlanned(plan, disk0, disk)
    ensures Applied(plan, disk, |plan|) == Applied(plan, disk0, |plan|) <==> LeavesAlone(plan, disk)
  {
    var now, clean := Applied(plan, disk, |plan|), Applied(plan, disk0, |plan|);
    forall i | 0 <= i < |plan|
      ensures At(now, plan[i].path) == At(clean, plan[i].path) <==>
        (plan[i].action.Leave? ==> At(disk, plan[i].path) == plan[i].ours)
    {
      AppliedFile(plan, disk, |plan|, i);
      AppliedFile(plan, disk0, |plan|, i);
    }
    if LeavesAlone(plan, disk) {
      forall q ensures At(now, q) == At(clean, q) {
        AppliedAt(plan, disk, |plan|, q);
        AppliedAt(plan, disk0, |plan|, q);
        if i :| 0 <= i < |plan| && plan[i].path == q {
          assert At(now, plan[i].path) == At(clean, plan[i].path);
        } else {
          assert !Planned(plan, q);
        }
      }
      SameAt(now, clean);
    }
  }

  /**
   Decisions may change from one attempt to the next. One accepted attempt that is not cut then
   writes the lock, and leaves the files of an uninterrupted apply with its own decisions if and
   only if every file it leaves alone is still as the plan found it.
   */
  lemma RetryDecides(
    plan: seq<PlanFile>, disk0: Disk, plans: seq<seq<PlanFile>>, cuts: seq<Cut>, last: Cut)
    requires PlanOf(plan, disk0) && |plans| == |cuts| && Locks(|plan|, last)
    requires forall k :: 0 <= k < |plans| ==> SameFiles(plan, plans[k])
    requires Revalidates(plan, Decided(plans, Fresh(disk0), cuts))
    ensures var before := Decided(plans, Fresh(disk0), cuts);
      var d := Attempt(plan, before, last);
      d.lock == After && (d.disk == Applied(plan, disk0, |plan|) <==> LeavesAlone(plan, before.disk))
  {
    var before := Decided(plans, Fresh(disk0), cuts);
    LocksAll(|plan|, last);
    DecidedOnlyPlanned(plan, disk0, plans, cuts);
    WholeApply(plan, disk0, before.disk);
  }

  /**
   It can fail: a file is overwritten and journaled, the apply is cut, and the retry keeps the
   file. The lock is written, and the file holds what the first attempt wrote.
   */
  lemma KeepAfterOverwrite(path: Path, mine: Sha, theirs: Sha) returns (d: Durable)
    requires mine != theirs
    ensures var overwrite := [PlanFile(path, Some(mine), Write(theirs))];
      var keep := [PlanFile(path, Some(mine), Leave)];
      && d == Attempt(keep, Attempt(overwrite, Fresh(map[path := mine]), Cut(1, {}, Error(true))), Cut(9, {}, Crash))
      && d.lock == After && d.disk == map[path := theirs]
      && Applied(keep, map[path := mine], 1) == map[path := mine]
  {
    var overwrite := [PlanFile(path, Some(mine), Write(theirs))];
    var keep := [PlanFile(path, Some(mine), Leave)];
    var cut, whole := Cut(1, {}, Error(true)), Cut(9, {}, Crash);
    assert Done(1, 1) == 1 && Known(1, cut) == 1 && !Locks(1, cut) && Locks(1, whole);
    assert Applied(overwrite, map[path := mine], 0) == map[path := mine];
    assert Noted(overwrite, map[], 0) == map[];
    var first := Attempt(overwrite, Fresh(map[path := mine]), cut);
    assert first == Durable(map[path := theirs], map[path := Some(theirs)], Before);
    assert Applied(keep, map[path := mine], 0) == map[path := mine];
    assert Applied(keep, first.disk, 0) == first.disk && Applied(keep, first.disk, 1) == first.disk;
    LocksAll(1, whole);
    d := Attempt(keep, first, whole);
  }

  /** One file written, and a crash before its journal save: every later attempt is refused. */
  lemma CrashCanStrand(path: Path, body: Sha, cuts: seq<Cut>)
    ensures var plan := [PlanFile(path, None, Write(body))];
      var d := Attempt(plan, Fresh(map[]), Cut(1, {}, Crash));
      d == Durable(map[path := body], map[], Before) && Attempts(plan, d, cuts) == d
  {
    var plan := [PlanFile(path, None, Write(body))];
    var cut := Cut(1, {}, Crash);
    assert Done(1, 1) == 1 && Known(1, cut) == 0 && !Locks(1, cut);
    assert Applied(plan, map[], 0) == map[];
    assert Applied(plan, map[], 1) == map[path := body];
    assert Revalidates(plan, Fresh(map[]));
    var d := Attempt(plan, Fresh(map[]), cut);
    assert !Passes(plan[0], d);
    StaleForever(plan, d, cuts);
  }

  /** The second of two writes fails, and so does the save on the way out: refused for ever. */
  lemma FailedSaveCanStrand(one: PlanFile, two: PlanFile, cuts: seq<Cut>)
    requires one.path != two.path && one.ours == None == two.ours && one.action.Write? && two.action.Write?
    ensures var plan := [one, two];
      var d := Attempt(plan, Fresh(map[]), Cut(1, {}, Error(false)));
      d == Durable(map[one.path := one.action.sha], map[], Before) && Attempts(plan, d, cuts) == d
  {
    var plan := [one, two];
    var cut := Cut(1, {}, Error(false));
    assert Done(2, 1) == 1 && Known(2, cut) == 0 && !Locks(2, cut);
    assert Applied(plan, map[], 0) == map[];
    assert Applied(plan, map[], 1) == map[one.path := one.action.sha];
    assert Revalidates(plan, Fresh(map[]));
    var d := Attempt(plan, Fresh(map[]), cut);
    assert !Passes(plan[0], d);
    StaleForever(plan, d, cuts);
  }

  // ------------------------------------------------------------ the apply itself

  /** The loop before file `i`: one save for every ten files, and one after the last. */
  function SavesBefore(n: nat, i: nat): nat {
    if i == n then Saves(n) else i / JOURNAL_EVERY
  }

  /** A budget used up before file `i`: exactly the files before it are carried out. */
  lemma StopsAtFile(n: nat, i: nat, cut: Cut)
    requires i <= n && cut.budget == i + SavesBefore(n, i)
    ensures Done(n, cut.budget) == i && !Locks(n, cut)
    ensures LastSaved(n, Saves(n) + 1, cut) == LastSaved(n, SavesBefore(n, i), cut)
  {
    if i < n { DoneIs(n, cut.budget, i); }
    if i > 0 { DoneIs(n, cut.budget, i - 1); }
    NoLaterSave(n, SavesBefore(n, i), Saves(n) + 1, cut);
  }

  /** A budget used up after file `i`, when its save is due. */
  lemma StopsAtSave(n: nat, i: nat, cut: Cut)
    requires 0 < i <= n && (i % JOURNAL_EVERY == 0 || i == n)
    requires cut.budget == i + (i - 1) / JOURNAL_EVERY
    ensures Done(n, cut.budget) == i && !Locks(n, cut)
    ensures LastSaved(n, Saves(n) + 1, cut) == LastSaved(n, (i - 1) / JOURNAL_EVERY, cut)
  {
    DoneIs(n, cut.budget, i - 1);
    if i < n { DoneIs(n, cut.budget, i); }
    NoLaterSave(n, (i - 1) / JOURNAL_EVERY, Saves(n) + 1, cut);
  }

  /** Saves that come after the budget is used up do not count. */
  lemma {:induction false} NoLaterSave(n: nat, from: nat, j: nat, cut: Cut)
    requires from <= j && cut.budget <= Upto(n, from) + from
    ensures LastSaved(n, j, cut) == LastSaved(n, from, cut)
  {
    if from < j { NoLaterSave(n, from, j - 1, cut); }
  }

  /** Past the files: everything is carried out, and the last save decides. */
  lemma LastSave(n: nat, cut: Cut)
    requires n + Saves(n) < cut.budget
    ensures Done(n, cut.budget) == n
    ensures LastSaved(n, Saves(n) + 1, cut) == if Saves(n) in cut.failed then LastSaved(n, Saves(n), cut) else n
  {
    if n > 0 { DoneIs(n, cut.budget, n - 1); }
  }

  /** After `i` files and `saves` saves: the files, the journal saved last and the one in memory. */
  ghost predicate Going(plan: seq<PlanFile>, d: Durable, cut: Cut, i: nat, saves: nat, disk: Disk, journal: Journal,
      written: Journal)
  {
    && i <= |plan| && LastSaved(|plan|, saves, cut) <= i
    && disk == Applied(plan, d.disk, i) && written == Noted(plan, d.journal, i)
    && journal == Noted(plan, d.journal, LastSaved(|plan|, saves, cut))
  }

  lemma SaveOne(plan: seq<PlanFile>, d: Durable, cut: Cut, i: nat, saves: nat, disk: Disk, journal: Journal,
      written: Journal)
    requires Going(plan, d, cut, i, saves, disk, journal, written)
    requires i == Upto(|plan|, saves) && i + saves < cut.budget
    ensures Going(plan, d, cut, i, saves + 1, disk, if saves in cut.failed then journal else written, written)
  {
  }

  /** The cut: an error saves the journal on its way out, if it can. */
  lemma Stopped(plan: seq<PlanFile>, d: Durable, cut: Cut, i: nat, saves: nat, disk: Disk, journal: Journal,
      written: Journal)
    requires Revalidates(plan, d) && Going(plan, d, cut, i, saves, disk, journal, written)
    requires Done(|plan|, cut.budget) == i && !Locks(|plan|, cut)
    requires LastSaved(|plan|, Saves(|plan|) + 1, cut) == LastSaved(|plan|, saves, cut)
    ensures Attempt(plan, d, cut) == Durable(disk, if cut.ending == Error(true) then written else journal, Before)
  {
    DoneBound(|plan|, cut);
  }

  /** One more file carried out. */
  lemma GoOne(plan: seq<PlanFile>, d: Durable, cut: Cut, i: nat, saves: nat, disk: Disk, journal: Journal,
      written: Journal)
    requires i < |plan| && Going(plan, d, cut, i, saves, disk, journal, written)
    ensures var file := plan[i];
      if file.action.Leave? then Going(plan, d, cut, i + 1, saves, disk, journal, written)
      else Going(plan, d, cut, i + 1, saves, Put(disk, file.path, file.Target()), journal,
        written[file.path := file.Target()])
  {
  }

  /** The files of a plan, one by one, up to the cut; `over` when the cut came. */
  method CarryOut(plan: seq<PlanFile>, d: Durable, cut: Cut)
    returns (disk: Disk, journal: Journal, written: Journal, over: bool)
    requires Revalidates(plan, d)
    ensures over ==>
      Attempt(plan, d, cut) == Durable(disk, if cut.ending == Error(true) then written else journal, Before)
    ensures !over ==>
      Going(plan, d, cut, |plan|, Saves(|plan|), disk, journal, written) && |plan| + Saves(|plan|) <= cut.budget
  {
    disk, journal, written, over := d.disk, d.journal, d.journal, false;
    var saves, n := 0, |plan|;
    var i := 0;
    while i < n
      invariant i <= n && saves == SavesBefore(n, i) && i + saves <= cut.budget
      invariant Going(plan, d, cut, i, saves, disk, journal, written)
    {
      if i + saves == cut.budget {
        StopsAtFile(n, i, cut);
        Stopped(plan, d, cut, i, saves, disk, journal, written);
        over := true;
        return;
      }
      var file := plan[i];
      GoOne(plan, d, cut, i, saves, disk, journal, written);
      if !file.action.Leave? {
        disk := Put(disk, file.path, file.Target());
        written := written[file.path := file.Target()];
      }
      i := i + 1;
      if i % JOURNAL_EVERY == 0 || i == n {
        if i + saves == cut.budget {
          StopsAtSave(n, i, cut);
          Stopped(plan, d, cut, i, saves, disk, journal, written);
          over := true;
          return;
        }
        SaveOne(plan, d, cut, i, saves, disk, journal, written);
        if saves !in cut.failed { journal := written; }
        saves := saves + 1;
      }
    }
  }

  /** The project: its files, the plan record's journal, and `kits.lock`. */
  class Project {
    var disk: Disk
    var journal: Journal
    var lock: LockState

    constructor (disk: Disk)
      ensures State() == Fresh(disk)
    {
      this.disk, journal, lock := disk, map[], Before;
    }

    function State(): Durable
      reads this
    {
      Durable(disk, journal, lock)
    }

    /**
     Carry out a plan. `cut` says where the attempt is interrupted, if it is, and which journal
     saves fail.
     */
    method Apply(plan: seq<PlanFile>, cut: Cut) returns (accepted: bool)
      modifies this
      ensures accepted == old(Revalidates(plan, State()))
      ensures State() == Attempt(plan, old(State()), cut)
      ensures PlanOf(plan, old(disk)) && old(State()) == Fresh(old(disk)) && lock == After ==>
        InPlace(plan, old(disk), disk)
    {
      ghost var before := disk;
      if PlanOf(plan, before) && State() == Fresh(before) {
        LockedFiles(plan, before, [cut]);
        assert Attempts(plan, Fresh(before), [cut]) == Attempt(plan, Fresh(before), cut) by { assert [cut][..0] == []; }
      }
      accepted := Revalidates(plan, State());
      if !accepted { return; }
      ghost var d := State();
      var files, saved, written, over := CarryOut(plan, State(), cut);
      disk, journal := files, saved;
      if !over {
        var n := |plan|;
        if n + Saves(n) == cut.budget {
          StopsAtFile(n, n, cut);
          Stopped(plan, d, cut, n, Saves(n), disk, journal, written);
        } else {
          LastSave(n, cut);
          SaveOne(plan, d, cut, n, Saves(n), disk, journal, written);
          if Saves(n) !in cut.failed { journal := written; }
          if n + Saves(n) + 1 < cut.budget {
            DoneBound(n, cut);
            lock := After;
            return;
          }
          Stopped(plan, d, cut, n, Saves(n) + 1, disk, journal, written);
        }
      }
      if cut.ending == Error(true) { journal := written; }
    }
  }
}
