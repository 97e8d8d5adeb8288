/**
 Who owns an install path. Plans for installing, updating and removing kits are computed
 from `kits.lock` and the files on disk; applying one changes the files and then the lock.
 A kit owns the paths of its lock entry that are not marked skipped. The worker means each
 path to have at most one owner; this module says exactly when that is kept.
 */
module KitOwnership {
  import opened Options

  /** Kits are numbered in the order of their names, the order in which the lock lists them. */
  type Kit = nat
  type Sha = string

  /** Profiles share one folder; a kit's skills have a folder of their own. */
  datatype Path = Profile(id: string) | Skill(kit: Kit, rest: string)

  datatype LockedFile = LockedFile(sha: Sha, skipped: bool)
  type Entry = map<Path, LockedFile>
  type Lock = map<Kit, Entry>

  /**
   `shadowed`: profiles that also exist user-globally or as built-ins; `merges`: contents that
   merge cleanly, by the kit's old content, the user's and the kit's new one.
   */
  datatype World = World(
    lock: Lock, disk: map<Path, Sha>, shadowed: set<Path>, merges: map<(Sha, Sha, Sha), Sha>)

  datatype Change = Added | Modified | Kept | Removed
  datatype Collision = OwnedBy(kit: Kit) | SomeoneElse
  datatype Decision = Overwrite | Keep | Theirs | Mine | Merged(body: Sha) | Remove
  /** The file as the kit has it, deleted or edited since; a path free or taken before the kit had it. */
  datatype Local = Intact | Missing | Edited | Absent | Occupied
  datatype PlanFile = PlanFile(change: Change, collision: Option<Collision>, default: Option<Decision>, local: Local)

  type Plan = map<Path, PlanFile>
  type Manifest = map<Path, Sha>

  // ------------------------------------------------------------ owners

  predicate Owns(lock: Lock, kit: Kit, p: Path) {
    kit in lock && p in lock[kit] && !lock[kit][p].skipped
  }

  /** The owner the lock names: the first kit, by name, that owns the path. */
  ghost predicate IsOwner(lock: Lock, kit: Kit, p: Path) {
    Owns(lock, kit, p) && forall other :: Owns(lock, other, p) ==> kit <= other
  }

  ghost function OwnerOf(lock: Lock, p: Path): (r: Option<Kit>)
    ensures r.Some? ==> IsOwner(lock, r.value, p)
    ensures r.None? ==> forall kit :: !Owns(lock, kit, p)
  {
    if kit :| Owns(lock, kit, p) then Some(FirstOwner(lock, p, kit)) else None
  }

  ghost function FirstOwner(lock: Lock, p: Path, seen: Kit): (r: Kit)
    requires Owns(lock, seen, p)
    ensures IsOwner(lock, r, p)
    decreases seen
  {
    if less: Kit :| less < seen && Owns(lock, less, p) then FirstOwner(lock, p, less) else seen
  }

  /** Each path has at most one owner. */
  ghost predicate UniqueOwners(lock: Lock) {
    forall a, b, p :: Owns(lock, a, p) && Owns(lock, b, p) ==> a == b
  }

  // ------------------------------------------------------------ plans

  /** Who is in the way of a path the kit adds; nobody when the content is already there. */
  ghost function CollisionFor(w: World, kit: Kit, p: Path, theirs: Sha): Option<Collision> {
    if p in w.disk then
      if w.disk[p] == theirs then None
      else if p.Profile? then
        match OwnerOf(w.lock, p)
        case Some(owner) => if owner == kit then None else Some(OwnedBy(owner))
        case None => Some(SomeoneElse)
      else Some(SomeoneElse)
    else if p.Profile? && p in w.shadowed then Some(SomeoneElse)
    else None
  }

  function EntryOf(lock: Lock, kit: Kit): Entry {
    if kit in lock then lock[kit] else map[]
  }

  function LocalOf(disk: map<Path, Sha>, p: Path, base: Sha): Local {
    if p !in disk then Missing else if disk[p] == base then Intact else Edited
  }

  /** What is at the path of a file the kit does not hold. */
  function FoundAt(disk: map<Path, Sha>, p: Path, theirs: Option<Sha>): Local {
    if p !in disk then Absent else if Some(disk[p]) == theirs then Intact else Occupied
  }

  /** An edited file defaults to the merge if it is clean; a conflict is left to the caller. */
  function CleanMerge(w: World, bodies: (Sha, Sha, Sha)): Option<Decision> {
    if bodies in w.merges then Some(Merged(w.merges[bodies])) else None
  }

  /** A path's place in an install or update plan; `None` when the plan leaves it out. */
  ghost function PlanOne(w: World, kit: Kit, manifest: Manifest, p: Path): Option<PlanFile> {
    var held := EntryOf(w.lock, kit);
    if p in manifest && p !in held then
      Some(PlanFile(Added, CollisionFor(w, kit, p, manifest[p]), Some(Overwrite),
        FoundAt(w.disk, p, Some(manifest[p]))))
    else if p in manifest && p in held then
      if held[p].sha == manifest[p] then None
      else if held[p].skipped then Some(PlanFile(Kept, None, Some(Keep), FoundAt(w.disk, p, None)))
      else
        var local := LocalOf(w.disk, p, held[p].sha);
        Some(PlanFile(Modified, None,
          if local.Edited? then CleanMerge(w, (held[p].sha, w.disk[p], manifest[p])) else Some(Theirs), local))
    else if p in held && !held[p].skipped && p in w.disk then
      Some(PlanFile(Removed, None, Some(if w.disk[p] != held[p].sha then Keep else Remove),
        LocalOf(w.disk, p, held[p].sha)))
    else None
  }

  ghost function PlanFor(w: World, kit: Kit, manifest: Manifest): Plan {
    map p | p in manifest.Keys + EntryOf(w.lock, kit).Keys && PlanOne(w, kit, manifest, p).Some?
      :: PlanOne(w, kit, manifest, p).value
  }

  /** The choices a plan accepts for a file. */
  predicate Accepts(f: PlanFile, d: Decision) {
    match f.change
    case Added => d == Overwrite || (d == Keep && f.collision.Some?)
    case Kept => d == Keep || d == Overwrite
    case Modified => d == Theirs || (d == Mine && !f.local.Intact?) || (d.Merged? && f.local.Edited?)
    case Removed => d == Remove || d == Keep
  }

  /** What is done with each planned file: the caller's choice, else the default. */
  function Decided(f: PlanFile, choices: map<Path, Decision>, p: Path): Option<Decision> {
    if p in choices then Some(choices[p]) else f.default
  }

  /** Every planned file has an acceptable decision, and every choice is about a planned file. */
  predicate Resolves(plan: Plan, choices: map<Path, Decision>) {
    && choices.Keys <= plan.Keys
    && forall p :: p in plan ==>
         Decided(plan[p], choices, p).Some? && Accepts(plan[p], Decided(plan[p], choices, p).value)
  }

  // ------------------------------------------------------------ applying a plan

  function Chosen(plan: Plan, choices: map<Path, Decision>, p: Path): Decision
    requires Resolves(plan, choices) && p in plan
  {
    Decided(plan[p], choices, p).value
  }

  function NextFile(held: Entry, manifest: Manifest, plan: Plan, choices: map<Path, Decision>, p: Path): LockedFile
    requires Resolves(plan, choices) && p in manifest
  {
    if p in plan then LockedFile(manifest[p], Chosen(plan, choices, p) == Keep)
    else if p in held then held[p]
    else LockedFile(manifest[p], false)
  }

  /** The kit's lock entry after the apply. */
  function NextEntry(held: Entry, manifest: Manifest, plan: Plan, choices: map<Path, Decision>): (r: Entry)
    requires Resolves(plan, choices)
  {
    map p | p in manifest :: NextFile(held, manifest, plan, choices, p)
  }

  /** The path is taken over from that kit. */
  predicate Takes(plan: Plan, choices: map<Path, Decision>, other: Kit, p: Path)
    requires Resolves(plan, choices)
  {
    p in plan && plan[p].collision == Some(OwnedBy(other)) && Chosen(plan, choices, p) == Overwrite
  }

  /** What the file holds after the apply. */
  function FileAfter(disk: map<Path, Sha>, manifest: Manifest, plan: Plan, choices: map<Path, Decision>,
      p: Path): Option<Sha>
    requires Resolves(plan, choices)
  {
    var now := if p in disk then Some(disk[p]) else None;
    if p !in plan then now
    else
      match Chosen(plan, choices, p)
      case Overwrite => if p in manifest then Some(manifest[p]) else now
      case Theirs => if p in manifest then Some(manifest[p]) else now
      case Merged(body) => Some(body)
      case Remove => None
      case Keep => now
      case Mine => now
  }

  function DiskAfter(disk: map<Path, Sha>, manifest: Manifest, plan: Plan, choices: map<Path, Decision>): map<Path, Sha>
    requires Resolves(plan, choices)
  {
    map p | p in disk.Keys + plan.Keys && FileAfter(disk, manifest, plan, choices, p).Some?
      :: FileAfter(disk, manifest, plan, choices, p).value
  }

  function Skip(files: Entry, p: Path): Entry {
    if p in files then files[p := files[p].(skipped := true)] else files
  }

  /** A lock entry of another kit once the paths in `done` are dealt with. */
  function Marked(f: LockedFile, plan: Plan, choices: map<Path, Decision>, done: set<Path>, k: Kit, p: Path): LockedFile
    requires Resolves(plan, choices)
  {
    if p in done && Takes(plan, choices, k, p) then f.(skipped := true) else f
  }

  /** The lock lists exactly what was taken over as skipped, and nothing else differs. */
  ghost predicate TakenFrom(before: Lock, after: Lock, plan: Plan, choices: map<Path, Decision>, done: set<Path>)
    requires Resolves(plan, choices)
  {
    && after.Keys == before.Keys
    && (forall k :: k in before ==> after[k].Keys == before[k].Keys)
    && (forall k, p :: k in before && p in before[k] ==>
          after[k][p] == Marked(before[k][p], plan, choices, done, k, p))
  }

  lemma TakeOne(before: Lock, mid: Lock, plan: Plan, choices: map<Path, Decision>, done: set<Path>, p: Path, other: Kit)
    requires Resolves(plan, choices) && TakenFrom(before, mid, plan, choices, done)
    requires Takes(plan, choices, other, p) && other in mid
    ensures TakenFrom(before, mid[other := Skip(mid[other], p)], plan, choices, done + {p})
  {
    var next := mid[other := Skip(mid[other], p)];
    assert next[other].Keys == mid[other].Keys;
    forall k, q | k in before && q in before[k]
      ensures next[k][q] == Marked(before[k][q], plan, choices, done + {p}, k, q)
    {
      assert mid[k][q] == Marked(before[k][q], plan, choices, done, k, q);
    }
  }

  lemma TakeNone(before: Lock, mid: Lock, plan: Plan, choices: map<Path, Decision>, done: set<Path>, p: Path)
    requires Resolves(plan, choices) && TakenFrom(before, mid, plan, choices, done)
    requires forall k :: k in before ==> !Takes(plan, choices, k, p)
    ensures TakenFrom(before, mid, plan, choices, done + {p})
  {
    forall k, q | k in before && q in before[k]
      ensures mid[k][q] == Marked(before[k][q], plan, choices, done + {p}, k, q)
    {
      assert mid[k][q] == Marked(before[k][q], plan, choices, done, k, q);
    }
  }

  /**
   The lock step of an apply: the kit's entry is written, and each path it took over from
   another kit is marked skipped there.
   */
  method TakeOver(lock: Lock, kit: Kit, entry: Entry, plan: Plan, choices: map<Path, Decision>) returns (r: Lock)
    requires Resolves(plan, choices)
    ensures TakenFrom(lock[kit := entry], r, plan, choices, plan.Keys)
  {
    r := lock[kit := entry];
    var todo := plan.Keys;
    while todo != {}
      invariant todo <= plan.Keys
      invariant TakenFrom(lock[kit := entry], r, plan, choices, plan.Keys - todo)
    {
      var p :| p in todo;
      var f := plan[p];
      if f.collision.Some? && f.collision.value.OwnedBy? && Chosen(plan, choices, p) == Overwrite &&
        f.collision.value.kit in r {
        var other := f.collision.value.kit;
        TakeOne(lock[kit := entry], r, plan, choices, plan.Keys - todo, p, other);
        r := r[other := Skip(r[other], p)];
      } else {
        TakeNone(lock[kit := entry], r, plan, choices, plan.Keys - todo, p);
      }
      assert plan.Keys - (todo - {p}) == (plan.Keys - todo) + {p};
      todo := todo - {p};
    }
    assert plan.Keys - todo == plan.Keys;
  }

  /** Every operation on the project that touches kits or profiles. */
  datatype Op =
    | Put(kit: Kit, manifest: Manifest, choices: map<Path, Decision>)
    | Uninstall(kit: Kit, choices: map<Path, Decision>)
    | Download(files: map<Path, Sha>)
    | Edit(path: Path, body: Option<Sha>)

  /** A kit ships profiles and its own skills. */
  ghost predicate Ships(kit: Kit, manifest: Manifest) {
    forall p :: p in manifest && p.Skill? ==> p.kit == kit
  }

  ghost predicate WriteOk(w: World, op: Op)
    requires op.Put?
  {
    Ships(op.kit, op.manifest) && Resolves(PlanFor(w, op.kit, op.manifest), op.choices)
  }

  /** `next` is the world after installing or updating a kit. */
  ghost predicate PutStep(w: World, op: Op, next: World)
    requires op.Put? && WriteOk(w, op)
  {
    var plan := PlanFor(w, op.kit, op.manifest);
    var held := EntryOf(w.lock, op.kit);
    && TakenFrom(w.lock[op.kit := NextEntry(held, op.manifest, plan, op.choices)], next.lock, plan, op.choices,
      plan.Keys)
    && next.disk == DiskAfter(w.disk, op.manifest, plan, op.choices)
    && next.shadowed == w.shadowed && next.merges == w.merges
  }

  /** A removal plan: the files the kit owns that are still there. */
  function RemovalOf(w: World, kit: Kit): Plan {
    var held := EntryOf(w.lock, kit);
    map p | p in held && !held[p].skipped && p in w.disk
      :: PlanFile(Removed, None, Some(if w.disk[p] != held[p].sha then Keep else Remove),
           LocalOf(w.disk, p, held[p].sha))
  }

  /** A worker's profiles, except the ones a kit owns. */
  ghost function Downloaded(w: World, files: map<Path, Sha>): map<Path, Sha> {
    map p | p in files && OwnerOf(w.lock, p).None? :: files[p]
  }

  ghost predicate Step(w: World, op: Op, next: World) {
    match op
    case Put(_, _, _) => if WriteOk(w, op) then PutStep(w, op, next) else next == w
    case Uninstall(kit, choices) =>
      if kit in w.lock && Resolves(RemovalOf(w, kit), choices) then
        next == w.(lock := w.lock - {kit}, disk := DiskAfter(w.disk, map[], RemovalOf(w, kit), choices))
      else next == w
    case Download(files) => next == w.(disk := w.disk + Downloaded(w, files))
    case Edit(p, body) => next == w.(disk := if body.Some? then w.disk[p := body.value] else w.disk - {p})
  }

  // ------------------------------------------------------------ exactly when owners stay unique

  /** A kit's skills are in its own folder. */
  ghost predicate SkillsApart(lock: Lock) {
    forall k, p :: k in lock && p in lock[k] && p.Skill? ==> p.kit == k
  }

  ghost predicate OwnedElsewhere(lock: Lock, kit: Kit, p: Path) {
    exists other :: other != kit && Owns(lock, other, p)
  }

  /**
   An install or update that would leave a path with two owners. Either it adds a path
   another kit owns and nothing on disk shows the conflict (the file is missing, or already
   identical), or it overwrites a file kept earlier, which the plan shows without its owner.
   */
  ghost predicate Clash(w: World, op: Op, p: Path) {
    && op.Put? && p in op.manifest && OwnedElsewhere(w.lock, op.kit, p)
    && var held := EntryOf(w.lock, op.kit);
       if p in held then
         held[p].skipped && held[p].sha != op.manifest[p] && p in op.choices && op.choices[p] == Overwrite
       else if p in w.disk then w.disk[p] == op.manifest[p]
       else !(p in w.shadowed && p in op.choices && op.choices[p] == Keep)
  }

  lemma CollisionKit(w: World, kit: Kit, p: Path, theirs: Sha)
    requires UniqueOwners(w.lock)
    ensures forall other :: CollisionFor(w, kit, p, theirs) == Some(OwnedBy(other)) ==>
      other != kit && Owns(w.lock, other, p)
    ensures p.Profile? && p in w.disk && w.disk[p] != theirs ==>
      forall other :: Owns(w.lock, other, p) && other != kit ==> CollisionFor(w, kit, p, theirs) == Some(OwnedBy(other))
  {
  }

  /** The owners after an install or update. */
  lemma OwnersAfterPut(w: World, op: Op, next: World, k: Kit, p: Path)
    requires op.Put? && WriteOk(w, op) && PutStep(w, op, next) && UniqueOwners(w.lock)
    ensures var plan := PlanFor(w, op.kit, op.manifest);
      var held := EntryOf(w.lock, op.kit);
      Owns(next.lock, k, p) <==>
        if k == op.kit then p in op.manifest && !NextFile(held, op.manifest, plan, op.choices, p).skipped
        else Owns(w.lock, k, p) && !Takes(plan, op.choices, k, p)
  {
    var plan := PlanFor(w, op.kit, op.manifest);
    var before: Lock := w.lock[op.kit := NextEntry(EntryOf(w.lock, op.kit), op.manifest, plan, op.choices)];
    MarkedOwns(before, next.lock, plan, op.choices, k, p);
    if k == op.kit { NotFromItself(w, op, p); }
  }

  /** Marking takes away exactly what was taken over. */
  lemma MarkedOwns(before: Lock, after: Lock, plan: Plan, choices: map<Path, Decision>, k: Kit, p: Path)
    requires Resolves(plan, choices) && TakenFrom(before, after, plan, choices, plan.Keys)
    ensures Owns(after, k, p) <==> Owns(before, k, p) && !Takes(plan, choices, k, p)
  {
    assert k in before && p in before[k] ==> after[k][p] == Marked(before[k][p], plan, choices, plan.Keys, k, p);
  }

  /** A kit takes nothing over from itself. */
  lemma NotFromItself(w: World, op: Op, p: Path)
    requires op.Put? && WriteOk(w, op) && UniqueOwners(w.lock)
    ensures !Takes(PlanFor(w, op.kit, op.manifest), op.choices, op.kit, p)
  {
    if p in op.manifest { CollisionKit(w, op.kit, p, op.manifest[p]); }
  }

  /** Whether the kit owns a path after installing or updating, and whether it took it from `other`. */
  lemma PutOutcome(w: World, op: Op, other: Kit, p: Path)
    requires op.Put? && WriteOk(w, op) && p in op.manifest
    requires UniqueOwners(w.lock) && SkillsApart(w.lock) && other != op.kit && Owns(w.lock, other, p)
    ensures var plan := PlanFor(w, op.kit, op.manifest);
      var held := EntryOf(w.lock, op.kit);
      !NextFile(held, op.manifest, plan, op.choices, p).skipped && !Takes(plan, op.choices, other, p) <==>
        Clash(w, op, p)
  {
    var plan := PlanFor(w, op.kit, op.manifest);
    var held := EntryOf(w.lock, op.kit);
    assert p.Profile?;
    assert OwnedElsewhere(w.lock, op.kit, p);
    CollisionKit(w, op.kit, p, op.manifest[p]);
    assert p in plan <==> PlanOne(w, op.kit, op.manifest, p).Some?;
    assert !Owns(w.lock, op.kit, p);
    if p in plan {
      assert Accepts(plan[p], Chosen(plan, op.choices, p));
    }
  }

  /** The kit ends up owning a path that another kit owns and keeps, exactly for a clash. */
  lemma ClashIsDoubleOwner(w: World, op: Op, next: World, other: Kit, p: Path)
    requires op.Put? && WriteOk(w, op) && PutStep(w, op, next)
    requires UniqueOwners(w.lock) && SkillsApart(w.lock) && other != op.kit
    ensures Owns(next.lock, op.kit, p) && Owns(next.lock, other, p) <==> Clash(w, op, p) && Owns(w.lock, other, p)
  {
    OwnersAfterPut(w, op, next, op.kit, p);
    OwnersAfterPut(w, op, next, other, p);
    if p in op.manifest && Owns(w.lock, other, p) {
      PutOutcome(w, op, other, p);
    }
  }

  /** Any step: the owners stay unique if and only if the step is no clash. */
  lemma UniqueStep(w: World, op: Op, next: World)
    requires Step(w, op, next) && UniqueOwners(w.lock) && SkillsApart(w.lock)
    ensures UniqueOwners(next.lock) <==> !(op.Put? && WriteOk(w, op) && exists p :: Clash(w, op, p))
    ensures SkillsApart(next.lock)
  {
    if op.Put? && WriteOk(w, op) {
      if p :| Clash(w, op, p) {
        var other :| other != op.kit && Owns(w.lock, other, p);
        ClashIsDoubleOwner(w, op, next, other, p);
      } else {
        forall a, b, p | Owns(next.lock, a, p) && Owns(next.lock, b, p) ensures a == b {
          PutKeepsUnique(w, op, next, a, b, p);
        }
      }
    } else {
      assert forall k, p :: Owns(next.lock, k, p) ==> Owns(w.lock, k, p);
    }
  }

  lemma PutKeepsUnique(w: World, op: Op, next: World, a: Kit, b: Kit, p: Path)
    requires op.Put? && WriteOk(w, op) && PutStep(w, op, next) && !Clash(w, op, p)
    requires UniqueOwners(w.lock) && SkillsApart(w.lock) && Owns(next.lock, a, p) && Owns(next.lock, b, p)
    ensures a == b
  {
    OwnersAfterPut(w, op, next, a, p);
    OwnersAfterPut(w, op, next, b, p);
    if a != op.kit { ClashIsDoubleOwner(w, op, next, a, p); }
    if b != op.kit { ClashIsDoubleOwner(w, op, next, b, p); }
  }

  // ------------------------------------------------------------ whole histories

  /** `worlds[i + 1]` is `worlds[i]` after `ops[i]`, from a project without kits. */
  ghost predicate History(worlds: seq<World>, ops: seq<Op>) {
    && |worlds| == |ops| + 1
    && worlds[0].lock == map[]
    && forall i :: 0 <= i < |ops| ==> StepAt(worlds, ops, i)
  }

  ghost predicate StepAt(worlds: seq<World>, ops: seq<Op>, i: nat)
    requires i < |ops| && |worlds| == |ops| + 1
  {
    Step(worlds[i], ops[i], worlds[i + 1])
  }

  ghost predicate Clashes(w: World, op: Op) {
    op.Put? && WriteOk(w, op) && exists p :: Clash(w, op, p)
  }

  /** The first `n + 1` locks have unique owners. */
  ghost predicate AllUnique(worlds: seq<World>, n: nat) {
    n < |worlds| && forall i :: 0 <= i <= n ==> UniqueOwners(worlds[i].lock)
  }

  ghost predicate NoClash(worlds: seq<World>, ops: seq<Op>, n: nat) {
    n <= |worlds| && n <= |ops| && forall i :: 0 <= i < n ==> !Clashes(worlds[i], ops[i])
  }

  /**
   Over every history of installs, updates, removals, worker downloads and edits: up to any
   point, all locks have had unique owners if and only if no step so far was a clash.
   */
  lemma {:induction false} UniqueHistory(worlds: seq<World>, ops: seq<Op>, n: nat)
    requires History(worlds, ops) && n <= |ops|
    ensures AllUnique(worlds, n) <==> NoClash(worlds, ops, n)
    ensures AllUnique(worlds, n) ==> SkillsApart(worlds[n].lock)
  {
    if n > 0 {
      UniqueHistory(worlds, ops, n - 1);
      assert StepAt(worlds, ops, n - 1);
      assert AllUnique(worlds, n) <==> AllUnique(worlds, n - 1) && UniqueOwners(worlds[n].lock);
      assert NoClash(worlds, ops, n) <==> NoClash(worlds, ops, n - 1) && !Clashes(worlds[n - 1], ops[n - 1]);
      if AllUnique(worlds, n - 1) {
        UniqueStep(worlds[n - 1], ops[n - 1], worlds[n]);
      }
    }
  }

  /** A worker download changes no profile a kit owns, whoever owns it, and writes every other one. */
  lemma DownloadSparesKits(w: World, files: map<Path, Sha>, next: World, p: Path)
    requires Step(w, Download(files), next)
    ensures next.lock == w.lock
    ensures (exists k :: Owns(w.lock, k, p)) ==>
      (p in next.disk <==> p in w.disk) && (p in w.disk ==> next.disk[p] == w.disk[p])
    ensures p in files && (forall k :: !Owns(w.lock, k, p)) ==> p in next.disk && next.disk[p] == files[p]
  {
  }

  /**
   Two kits that ship the same profile with the same content: installing both makes both
   owners, and removing the second deletes the file the first still owns.
   */
  lemma IdenticalProfileTwoOwners(a: Kit, b: Kit, id: string, body: Sha) returns (w1: World, w2: World, w3: World)
    requires a != b
    ensures var files := map[Profile(id) := body];
      && Step(World(map[], map[], {}, map[]), Put(a, files, map[]), w1)
      && Step(w1, Put(b, files, map[]), w2)
      && Step(w2, Uninstall(b, map[]), w3)
    ensures var p := Profile(id);
      && Owns(w2.lock, a, p) && Owns(w2.lock, b, p)
      && Owns(w3.lock, a, p) && p !in w3.disk
  {
    var p := Profile(id);
    w1 := AddedAlone(World(map[], map[], {}, map[]), a, p, body);
    w2 := AddedAlone(w1, b, p, body);
    w3 := RemovedAlone(w2, b, p, body);
  }

  /** Adding one profile whose path is free, or holds the same content: the others keep what they own. */
  lemma AddedAlone(w: World, kit: Kit, p: Path, body: Sha) returns (next: World)
    requires kit !in w.lock && p.Profile? && p !in w.shadowed
    requires w.disk.Keys <= {p} && (p in w.disk ==> w.disk[p] == body)
    ensures next == w.(lock := w.lock[kit := map[p := LockedFile(body, false)]], disk := map[p := body])
    ensures Step(w, Put(kit, map[p := body], map[]), next)
  {
    var files, none: map<Path, Decision> := map[p := body], map[];
    next := w.(lock := w.lock[kit := map[p := LockedFile(body, false)]], disk := map[p := body]);
    var planned := PlanFile(Added, None, Some(Overwrite), FoundAt(w.disk, p, Some(body)));
    assert PlanOne(w, kit, files, p) == Some(planned);
    var plan := PlanFor(w, kit, files);
    assert plan == map[p := planned];
    assert Resolves(plan, none);
    assert NextEntry(map[], files, plan, none) == map[p := LockedFile(body, false)];
    assert DiskAfter(w.disk, files, plan, none) == map[p := body];
    assert TakenFrom(next.lock, next.lock, plan, none, plan.Keys);
  }

  /** Removing a kit deletes its unedited profile. */
  lemma RemovedAlone(w: World, kit: Kit, p: Path, body: Sha) returns (next: World)
    requires kit in w.lock && w.lock[kit] == map[p := LockedFile(body, false)] && w.disk == map[p := body]
    ensures next == w.(lock := w.lock - {kit}, disk := map[]) && Step(w, Uninstall(kit, map[]), next)
  {
    var none: map<Path, Decision> := map[];
    next := w.(lock := w.lock - {kit}, disk := map[]);
    var plan := RemovalOf(w, kit);
    assert plan == map[p := PlanFile(Removed, None, Some(Remove), Intact)];
    assert Resolves(plan, none);
    assert DiskAfter(w.disk, map[], plan, none) == map[];
  }

  // ------------------------------------------------------------ what an apply does to a file

  /** What is on disk: the kit's file as it left it. */
  predicate Untouched(w: World, kit: Kit, p: Path) {
    kit in w.lock && p in w.lock[kit] && p in w.disk && w.disk[p] == w.lock[kit][p].sha
  }

  /** The kit's own file, not one it skipped. */
  predicate Holds(w: World, kit: Kit, p: Path) {
    kit in w.lock && p in w.lock[kit] && !w.lock[kit][p].skipped
  }

  /** The kit ships other content than it did. */
  predicate Renewed(w: World, kit: Kit, manifest: Manifest, p: Path) {
    kit in w.lock && p in w.lock[kit] && p in manifest && w.lock[kit][p].sha != manifest[p]
  }

  /** The kit ships a file it did not. */
  predicate Adds(w: World, kit: Kit, manifest: Manifest, p: Path) {
    p in manifest && !(kit in w.lock && p in w.lock[kit])
  }

  /** The kit no longer ships a file it holds, which is still there. */
  predicate Dropped(w: World, kit: Kit, manifest: Manifest, p: Path) {
    p !in manifest && Holds(w, kit, p) && p in w.disk
  }

  function OnDisk(w: World, p: Path): Option<Sha> {
    if p in w.disk then Some(w.disk[p]) else None
  }

  /** The user edited a file the kit holds and renews. */
  predicate EditedHere(w: World, kit: Kit, manifest: Manifest, p: Path) {
    Renewed(w, kit, manifest, p) && Holds(w, kit, p) && p in w.disk && !Untouched(w, kit, p)
  }

  predicate MergesCleanly(w: World, kit: Kit, manifest: Manifest, p: Path)
    requires EditedHere(w, kit, manifest, p)
  {
    (w.lock[kit][p].sha, w.disk[p], manifest[p]) in w.merges
  }

  /** Without choices an apply goes through exactly if what the user edited of it merges cleanly. */
  lemma DefaultsResolve(w: World, kit: Kit, manifest: Manifest)
    requires Ships(kit, manifest)
    ensures WriteOk(w, Put(kit, manifest, map[])) <==>
      forall p :: EditedHere(w, kit, manifest, p) ==> MergesCleanly(w, kit, manifest, p)
  {
    var plan := PlanFor(w, kit, manifest);
    forall p | p in plan
      ensures Decided(plan[p], map[], p).None? <==>
        EditedHere(w, kit, manifest, p) && !MergesCleanly(w, kit, manifest, p)
      ensures Decided(plan[p], map[], p).Some? ==> Accepts(plan[p], Decided(plan[p], map[], p).value)
    {
    }
    forall p | EditedHere(w, kit, manifest, p) ensures p in plan { }
  }

  lemma DiskAfterIs(w: World, manifest: Manifest, plan: Plan, choices: map<Path, Decision>, next: World, p: Path)
    requires Resolves(plan, choices) && next.disk == DiskAfter(w.disk, manifest, plan, choices)
    ensures OnDisk(next, p) == FileAfter(w.disk, manifest, plan, choices, p)
  {
  }

  /** What becomes of one file without choices. */
  lemma DefaultFile(w: World, kit: Kit, manifest: Manifest, p: Path)
    requires WriteOk(w, Put(kit, manifest, map[]))
    requires EditedHere(w, kit, manifest, p) ==> MergesCleanly(w, kit, manifest, p)
    ensures FileAfter(w.disk, manifest, PlanFor(w, kit, manifest), map[], p) ==
      if EditedHere(w, kit, manifest, p) then Some(w.merges[(w.lock[kit][p].sha, w.disk[p], manifest[p])])
      else if Adds(w, kit, manifest, p) || (Renewed(w, kit, manifest, p) && Holds(w, kit, p)) then Some(manifest[p])
      else if Dropped(w, kit, manifest, p) && Untouched(w, kit, p) then None
      else OnDisk(w, p)
  {
    assert p in PlanFor(w, kit, manifest) <==> PlanOne(w, kit, manifest, p).Some?;
  }

  /**
   Without choices an install or update merges the user's edits, writes every other file that is
   new or renewed unless the kit skips it, removes every file no longer shipped unless the user
   edited it, and leaves the rest alone.
   */
  lemma DefaultFiles(w: World, kit: Kit, manifest: Manifest, next: World, p: Path)
    requires var op := Put(kit, manifest, map[]); WriteOk(w, op) && Step(w, op, next)
    ensures EditedHere(w, kit, manifest, p) ==> MergesCleanly(w, kit, manifest, p)
    ensures OnDisk(next, p) ==
      if EditedHere(w, kit, manifest, p) then Some(w.merges[(w.lock[kit][p].sha, w.disk[p], manifest[p])])
      else if Adds(w, kit, manifest, p) || (Renewed(w, kit, manifest, p) && Holds(w, kit, p)) then Some(manifest[p])
      else if Dropped(w, kit, manifest, p) && Untouched(w, kit, p) then None
      else OnDisk(w, p)
  {
    DefaultsResolve(w, kit, manifest);
    DefaultFile(w, kit, manifest, p);
    DiskAfterIs(w, manifest, PlanFor(w, kit, manifest), map[], next, p);
  }

  /** What the kit's lock entry then says of one file it ships. */
  lemma DefaultLocked(w: World, kit: Kit, manifest: Manifest, p: Path)
    requires WriteOk(w, Put(kit, manifest, map[])) && p in manifest
    ensures var plan := PlanFor(w, kit, manifest);
      && !Takes(plan, map[], kit, p)
      && var f := NextFile(EntryOf(w.lock, kit), manifest, plan, map[], p);
         && f.sha == manifest[p]
         && (f.skipped <==> kit in w.lock && p in w.lock[kit] && w.lock[kit][p].skipped)
  {
    assert p in PlanFor(w, kit, manifest) <==> PlanOne(w, kit, manifest, p).Some?;
  }

  /** The kit's lock entry then lists exactly what it ships, and skips only what it skipped before. */
  lemma DefaultEntry(w: World, kit: Kit, manifest: Manifest, next: World, p: Path)
    requires var op := Put(kit, manifest, map[]); WriteOk(w, op) && Step(w, op, next)
    ensures kit in next.lock && (p in next.lock[kit] <==> p in manifest)
    ensures p in manifest ==>
      && next.lock[kit][p].sha == manifest[p]
      && (next.lock[kit][p].skipped <==> kit in w.lock && p in w.lock[kit] && w.lock[kit][p].skipped)
  {
    var plan := PlanFor(w, kit, manifest);
    var entry := NextEntry(EntryOf(w.lock, kit), manifest, plan, map[]);
    var before := w.lock[kit := entry];
    assert kit in before && next.lock[kit].Keys == before[kit].Keys == manifest.Keys;
    if p in manifest {
      DefaultLocked(w, kit, manifest, p);
      assert next.lock[kit][p] == Marked(before[kit][p], plan, map[], plan.Keys, kit, p);
    }
  }

  /**
   Somebody is in the way of an added file exactly if other content is at its path, unless it
   is a profile the lock says is the kit's own, or nothing is there and the profile is a shadowed
   one; the kit named is the profile's owner.
   */
  lemma CollisionExactly(w: World, kit: Kit, p: Path, theirs: Sha, other: Kit)
    ensures CollisionFor(w, kit, p, theirs).Some? <==>
      if p in w.disk then w.disk[p] != theirs && !(p.Profile? && IsOwner(w.lock, kit, p))
      else p.Profile? && p in w.shadowed
    ensures CollisionFor(w, kit, p, theirs) == Some(OwnedBy(other)) <==>
      p in w.disk && w.disk[p] != theirs && p.Profile? && other != kit && IsOwner(w.lock, other, p)
  {
  }

  /** What a file may be decided to be, by what the plan found. */
  lemma ChoicesExactly(w: World, kit: Kit, manifest: Manifest, p: Path, d: Decision)
    requires PlanOne(w, kit, manifest, p).Some?
    ensures var held := kit in w.lock && p in w.lock[kit];
      Accepts(PlanOne(w, kit, manifest, p).value, d) <==>
        if !held then d == Overwrite || (d == Keep && CollisionFor(w, kit, p, manifest[p]).Some?)
        else if p !in manifest then d == Remove || d == Keep
        else if w.lock[kit][p].skipped then d == Keep || d == Overwrite
        else d == Theirs || (!Untouched(w, kit, p) && (d == Mine || (d.Merged? && p in w.disk)))
  {
  }

  /** What the plan tells the caller about the file as it is. */
  lemma LocalExactly(w: World, kit: Kit, manifest: Manifest, p: Path)
    requires PlanOne(w, kit, manifest, p).Some?
    ensures var local := PlanOne(w, kit, manifest, p).value.local;
      if Holds(w, kit, p) then
        && (local == Missing <==> p !in w.disk) && (local == Intact <==> Untouched(w, kit, p))
        && (local == Edited <==> p in w.disk && !Untouched(w, kit, p))
      else
        && (local == Absent <==> p !in w.disk)
        && (local == Intact <==> Adds(w, kit, manifest, p) && p in w.disk && w.disk[p] == manifest[p])
        && (local == Occupied <==> p in w.disk && local != Intact)
  {
  }

  /** A choice decides what becomes of the file, and whether the lock marks it skipped. */
  lemma ChosenFiles(w: World, op: Op, next: World, p: Path)
    requires op.Put? && WriteOk(w, op) && Step(w, op, next) && p in op.choices
    ensures OnDisk(next, p) ==
      match op.choices[p]
      case Overwrite => Some(op.manifest[p])
      case Theirs => Some(op.manifest[p])
      case Merged(body) => Some(body)
      case Remove => None
      case Keep => OnDisk(w, p)
      case Mine => OnDisk(w, p)
  {
    var plan := PlanFor(w, op.kit, op.manifest);
    assert p in plan && plan[p] == PlanOne(w, op.kit, op.manifest, p).value;
    assert Accepts(plan[p], op.choices[p]);
    ChoicesExactly(w, op.kit, op.manifest, p, op.choices[p]);
  }

  /** Removing a kit without choices takes away the files it holds that nobody edited, and its lock entry. */
  lemma UninstallExactly(w: World, kit: Kit, next: World, p: Path)
    requires kit in w.lock && Step(w, Uninstall(kit, map[]), next)
    ensures next.lock == w.lock - {kit}
    ensures OnDisk(next, p) == if Holds(w, kit, p) && Untouched(w, kit, p) then None else OnDisk(w, p)
  {
    var plan := RemovalOf(w, kit);
    forall q | q in plan
      ensures Decided(plan[q], map[], q).Some? && Accepts(plan[q], Decided(plan[q], map[], q).value)
    {
    }
    assert Resolves(plan, map[]);
  }
}
