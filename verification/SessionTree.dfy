/**
 Deleting a session and everything below it. A tombstone on the root closes admission: spawns
 and turns walk up the session's ancestors and are refused below a tombstone. The plan is
 saved before anything is erased, and sessions are erased children first. Several
 deletions, spawns, turns, failures and restarts may interleave in any way; a restart only
 means that a later step goes on from what is stored.
 */
module SessionTree {
  import opened Options

  /** Sessions are numbered in the order they are created. */
  type Session = nat

  datatype Status = Deleting | Completed | Failed

  /** A deletion, named by its root. `members` is the saved plan, parents before children. */
  datatype Operation = Operation(
    attempt: nat, status: Status, planned: bool, members: seq<Session>, deleted: set<Session>)

  /**
   `parents` records every session ever created; `live` are the ones that still exist. A
   tombstone names the deletion that owns it.
   */
  datatype State = State(
    parents: map<Session, Option<Session>>, live: set<Session>, running: set<Session>,
    tombs: map<Session, Session>, ops: map<Session, Operation>)

  const START := State(map[], {}, {}, map[], map[])

  // ------------------------------------------------------------ ancestry

  /** `s` is `root` or was created somewhere below it. */
  predicate Under(parents: map<Session, Option<Session>>, s: Session, root: Session)
    decreases s
  {
    s == root ||
    (s in parents && parents[s].Some? && parents[s].value < s && Under(parents, parents[s].value, root))
  }

  /** The deletion whose tombstone is found walking up from `s` through sessions that exist. */
  function Owner(st: State, s: Session): Option<Session>
    decreases s
  {
    if s in st.tombs then Some(st.tombs[s])
    else if s in st.live && s in st.parents && st.parents[s].Some? && st.parents[s].value < s
    then Owner(st, st.parents[s].value)
    else None
  }

  /** A plan: the root, then sessions below it, each after its parent, every live child included. */
  ghost predicate TreeOrder(parents: map<Session, Option<Session>>, live: set<Session>, root: Session,
      members: seq<Session>)
  {
    && |members| > 0 && members[0] == root
    && (forall i, j :: 0 <= i < j < |members| ==> members[i] != members[j])
    && (forall i :: 0 < i < |members| ==> After(parents, members, i))
    && (forall s :: s in live && s in parents && parents[s].Some? && parents[s].value in members ==> s in members)
  }

  ghost predicate After(parents: map<Session, Option<Session>>, members: seq<Session>, i: nat)
    requires i < |members|
  {
    members[i] in parents && parents[members[i]].Some? && parents[members[i]].value in members[..i]
  }

  // ------------------------------------------------------------ steps

  datatype Step =
    | Spawn(child: Session, parent: Option<Session>)
    | StartTurn(session: Session)
    | EndTurn(session: Session)
    | Request(root: Session)
    | Reserve(root: Session)
    | Repair(root: Session, ancestor: Session)
    | Plan(root: Session, members: seq<Session>)
    | Claim(root: Session, member: Session)
    | Erase(root: Session, i: nat)
    | Fail(root: Session)
    | Complete(root: Session)

  /** Another deletion's tombstone on the way up, in the tree, or on a planned member. */
  ghost predicate Conflict(st: State, root: Session) {
    || (Owner(st, root).Some? && Owner(st, root) != Some(root))
    || (exists s :: s in st.tombs && st.tombs[s] != root
          && (s == root || (s in st.live && Under(st.parents, s, root)) ||
                (root in st.ops && s in st.ops[root].members)))
  }

  predicate Active(st: State, root: Session) {
    root in st.ops && st.ops[root].status == Deleting
  }

  ghost predicate Enabled(st: State, step: Step) {
    match step
    case Spawn(child, parent) =>
      && child !in st.parents && child !in st.tombs
      && (parent.Some? ==> parent.value in st.live && parent.value < child && Owner(st, parent.value).None?)
    case StartTurn(s) => s in st.live && Owner(st, s).None?
    case EndTurn(s) => s in st.running
    case Request(root) => root !in st.ops || st.ops[root].status == Failed
    case Reserve(root) => Active(st, root)
    case Repair(root, ancestor) =>
      && root in st.tombs && st.tombs[root] == root && root != ancestor && Under(st.parents, root, ancestor)
      && ancestor in st.tombs && st.tombs[ancestor] == ancestor && ancestor in st.ops && !st.ops[ancestor].planned
    case Plan(root, members) =>
      && Active(st, root) && !st.ops[root].planned && root in st.tombs && st.tombs[root] == root
      && TreeOrder(st.parents, st.live, root, members)
      && (forall s :: s in members && s in st.tombs ==> st.tombs[s] == root)
    case Claim(root, s) =>
      Active(st, root) && st.ops[root].planned && s in st.ops[root].members && s !in st.tombs
    case Erase(root, i) =>
      && Active(st, root) && st.ops[root].planned && i < |st.ops[root].members|
      && st.ops[root].members[i] !in st.running
      && (forall j :: i < j < |st.ops[root].members| ==> st.ops[root].members[j] in st.ops[root].deleted)
    case Fail(root) => Active(st, root)
    case Complete(root) =>
      Active(st, root) && st.ops[root].planned && forall s :: s in st.ops[root].members ==> s in st.ops[root].deleted
  }

  ghost function Next(st: State, step: Step): State {
    if !Enabled(st, step) then st
    else
      match step
      case Spawn(child, parent) => st.(parents := st.parents[child := parent], live := st.live + {child})
      case StartTurn(s) => st.(running := st.running + {s})
      case EndTurn(s) => st.(running := st.running - {s})
      case Request(root) =>
        var op := if root in st.ops then st.ops[root].(attempt := st.ops[root].attempt + 1, status := Deleting)
                  else Operation(1, Deleting, false, [], {});
        st.(ops := st.ops[root := op])
      case Reserve(root) =>
        if Conflict(st, root) then
          var release := !st.ops[root].planned && root in st.tombs && st.tombs[root] == root;
          st.(ops := st.ops[root := st.ops[root].(status := Failed)],
              tombs := if release then st.tombs - {root} else st.tombs)
        else st.(tombs := st.tombs[root := root])
      case Repair(_, ancestor) => st.(tombs := st.tombs - {ancestor})
      case Plan(root, members) => st.(ops := st.ops[root := st.ops[root].(planned := true, members := members)])
      case Claim(root, s) => st.(tombs := st.tombs[s := root])
      case Erase(root, i) =>
        var s := st.ops[root].members[i];
        st.(live := st.live - {s}, ops := st.ops[root := st.ops[root].(deleted := st.ops[root].deleted + {s})])
      case Fail(root) => st.(ops := st.ops[root := st.ops[root].(status := Failed)])
      case Complete(root) => st.(ops := st.ops[root := st.ops[root].(status := Completed)])
  }

  // ------------------------------------------------------------ what every step keeps

  /** Parents are older, and exist as long as their children do. */
  ghost predicate Forest(st: State) {
    && st.live <= st.parents.Keys
    && (forall s :: s in st.parents && st.parents[s].Some? ==>
          st.parents[s].value < s && st.parents[s].value in st.parents)
    && (forall s :: s in st.live && st.parents[s].Some? ==> st.parents[s].value in st.live)
  }

  /** A saved plan covers everything that is left below the root. */
  ghost predicate Covers(st: State, root: Session)
    requires root in st.ops
  {
    var op := st.ops[root];
    && root in st.tombs && st.tombs[root] == root
    && |op.members| > 0 && op.members[0] == root
    && (forall i :: 0 < i < |op.members| ==> After(st.parents, op.members, i))
    && (forall i, j :: 0 <= i < j < |op.members| ==> op.members[i] != op.members[j])
    && (forall s :: s in st.live && Under(st.parents, s, root) ==> s in op.members)
    && (forall s :: s in op.deleted ==> s in op.members && s !in st.live)
  }

  ghost predicate OpOk(st: State, root: Session)
    requires root in st.ops
  {
    var op := st.ops[root];
    && op.attempt >= 1
    && (op.planned ==> Covers(st, root))
    && (!op.planned ==> op.members == [] && op.deleted == {})
    && (op.status == Completed ==> op.planned && forall s :: s in op.members ==> s in op.deleted)
  }

  /** Sessions once erased stay recorded, so that ids are never used twice. */
  ghost predicate Inv(st: State) {
    && Forest(st)
    && (forall root :: root in st.ops ==> OpOk(st, root))
    && (forall root, s :: root in st.ops && s in st.ops[root].members && s != root ==> s in st.parents)
  }

  /** Below a tombstone every existing session finds an owner. */
  lemma {:induction false} TombSeen(st: State, s: Session, root: Session)
    requires Forest(st) && s in st.live && Under(st.parents, s, root) && root in st.tombs
    ensures Owner(st, s).Some?
    decreases s
  {
    if s !in st.tombs { TombSeen(st, st.parents[s].value, root); }
  }

  /** A new session changes nobody else's ancestry. */
  lemma {:induction false} UnderSame(parents: map<Session, Option<Session>>, child: Session, parent: Option<Session>,
      s: Session, root: Session)
    requires child !in parents && s != child && s in parents
    requires forall x :: x in parents && parents[x].Some? ==> parents[x].value < x && parents[x].value in parents
    ensures Under(parents[child := parent], s, root) <==> Under(parents, s, root)
    decreases s
  {
    if s in parents && parents[s].Some? && parents[s].value < s {
      UnderSame(parents, child, parent, parents[s].value, root);
    }
  }

  /** Everything created below the root of a plan is in the plan, if plans list all live children. */
  lemma {:induction false} PlanCovers(st: State, root: Session, members: seq<Session>, s: Session)
    requires Forest(st) && TreeOrder(st.parents, st.live, root, members)
    requires s in st.live && Under(st.parents, s, root)
    ensures s in members
    decreases s
  {
    if s != root { PlanCovers(st, root, members, st.parents[s].value); }
  }

  /** Members are below the root. */
  lemma {:induction false} MemberUnder(parents: map<Session, Option<Session>>, root: Session, members: seq<Session>,
      i: nat)
    requires i < |members| && members[0] == root
    requires forall k :: 0 < k < |members| ==> After(parents, members, k)
    requires forall x :: x in parents && parents[x].Some? ==> parents[x].value < x
    ensures Under(parents, members[i], root)
  {
    if i > 0 {
      assert After(parents, members, i);
      var j :| 0 <= j < i && members[j] == parents[members[i]].value;
      MemberUnder(parents, root, members, j);
    }
  }

  lemma SpawnForest(st: State, child: Session, parent: Option<Session>)
    requires Inv(st) && Enabled(st, Spawn(child, parent))
    ensures Forest(Next(st, Spawn(child, parent)))
  {
  }

  /** A spawn is refused below every planned root, so its plan still covers what is left. */
  lemma SpawnOutside(st: State, child: Session, parent: Option<Session>, root: Session)
    requires Inv(st) && Enabled(st, Spawn(child, parent)) && root in st.ops && st.ops[root].planned
    ensures !Under(st.parents[child := parent], child, root)
  {
    if parent.Some? {
      UnderSame(st.parents, child, parent, parent.value, root);
      if Under(st.parents, parent.value, root) { TombSeen(st, parent.value, root); }
    }
  }

  lemma SpawnOp(st: State, child: Session, parent: Option<Session>, root: Session)
    requires Inv(st) && Enabled(st, Spawn(child, parent)) && root in st.ops
    ensures OpOk(Next(st, Spawn(child, parent)), root)
  {
    var st' := Next(st, Spawn(child, parent));
    var op := st.ops[root];
    if op.planned {
      SpawnOutside(st, child, parent, root);
      forall s | s in st'.live && Under(st'.parents, s, root) ensures s in op.members {
        UnderSame(st.parents, child, parent, s, root);
      }
      forall i | 0 < i < |op.members| ensures After(st'.parents, op.members, i) {
        assert After(st.parents, op.members, i);
      }
      assert child !in op.members by {
        assert child != root;
      }
    }
  }

  lemma SpawnKeeps(st: State, child: Session, parent: Option<Session>)
    requires Inv(st) && Enabled(st, Spawn(child, parent))
    ensures Inv(Next(st, Spawn(child, parent)))
  {
    SpawnForest(st, child, parent);
    forall root | root in st.ops ensures OpOk(Next(st, Spawn(child, parent)), root) {
      SpawnOp(st, child, parent, root);
    }
  }

  /** In a plan a child comes after its parent. */
  lemma ChildLater(parents: map<Session, Option<Session>>, root: Session, members: seq<Session>, i: nat, c: Session)
    requires |members| > 0 && members[0] == root && (forall k :: 0 < k < |members| ==> After(parents, members, k))
    requires forall k, l :: 0 <= k < l < |members| ==> members[k] != members[l]
    requires i < |members| && c in members && c != root && c in parents && parents[c] == Some(members[i])
    ensures exists k :: i < k < |members| && members[k] == c
  {
    var k :| 0 <= k < |members| && members[k] == c;
    assert After(parents, members, k);
    var j :| 0 <= j < k && members[j] == members[i];
  }

  /** A session is erased only when nothing below it is left. */
  lemma NoChildLeft(st: State, root: Session, i: nat, c: Session)
    requires Inv(st) && Enabled(st, Erase(root, i)) && c in st.live
    ensures st.parents[c] != Some(st.ops[root].members[i])
  {
    var op := st.ops[root];
    assert OpOk(st, root);
    MemberUnder(st.parents, root, op.members, i);
    UnderOlder(st.parents, op.members[i], root);
    if st.parents[c] == Some(op.members[i]) { ChildLater(st.parents, root, op.members, i, c); }
  }

  lemma {:induction false} UnderOlder(parents: map<Session, Option<Session>>, s: Session, root: Session)
    requires Under(parents, s, root)
    ensures root <= s
    decreases s
  {
    if s != root { UnderOlder(parents, parents[s].value, root); }
  }

  lemma EraseKeeps(st: State, root: Session, i: nat)
    requires Inv(st) && Enabled(st, Erase(root, i))
    ensures Inv(Next(st, Erase(root, i)))
  {
    var st' := Next(st, Erase(root, i));
    forall c | c in st'.live && st'.parents[c].Some? ensures st'.parents[c].value in st'.live {
      NoChildLeft(st, root, i, c);
    }
    forall r | r in st'.ops ensures OpOk(st', r) {
      assert OpOk(st, r);
    }
  }

  lemma PlanKeeps(st: State, root: Session, members: seq<Session>)
    requires Inv(st) && Enabled(st, Plan(root, members))
    ensures Inv(Next(st, Plan(root, members)))
  {
    var st' := Next(st, Plan(root, members));
    forall s | s in st.live && Under(st.parents, s, root) ensures s in members {
      PlanCovers(st, root, members, s);
    }
    forall s | s in members && s != root ensures s in st.parents {
      var i :| 0 <= i < |members| && members[i] == s;
      assert After(st.parents, members, i);
    }
    forall r | r in st'.ops ensures OpOk(st', r) {
      assert OpOk(st, r);
    }
  }

  /** The plan of one deletion is not touched when tombstones of others, or nothing of it, change. */
  lemma TombKeeps(st: State, st': State)
    requires Inv(st) && st' == st.(tombs := st'.tombs, running := st'.running)
    requires forall r :: r in st.ops && st.ops[r].planned ==> r in st'.tombs && st'.tombs[r] == r
    ensures Inv(st')
  {
    forall r | r in st'.ops ensures OpOk(st', r) { assert OpOk(st, r); }
  }

  /** A new status, for a deletion that is allowed to have it. */
  lemma StatusKeeps(st: State, root: Session, op: Operation)
    requires Inv(st) && op.attempt >= 1
    requires if root in st.ops then op == st.ops[root].(status := op.status, attempt := op.attempt)
             else !op.planned && op.members == [] && op.deleted == {}
    requires op.status == Completed ==> op.planned && forall s :: s in op.members ==> s in op.deleted
    ensures Inv(st.(ops := st.ops[root := op]))
  {
    var st' := st.(ops := st.ops[root := op]);
    forall r | r in st'.ops ensures OpOk(st', r) {
      if r in st.ops { assert OpOk(st, r); }
    }
  }

  lemma ReserveKeeps(st: State, root: Session)
    requires Inv(st) && Enabled(st, Reserve(root))
    ensures Inv(Next(st, Reserve(root)))
  {
    var st' := Next(st, Reserve(root));
    assert OpOk(st, root);
    forall r | r in st.ops && st.ops[r].planned ensures r in st'.tombs && st'.tombs[r] == r { assert OpOk(st, r); }
    TombKeeps(st, st.(tombs := st'.tombs));
    if Conflict(st, root) {
      StatusKeeps(st.(tombs := st'.tombs), root, st.ops[root].(status := Failed));
    }
  }

  /** Steps that create and erase nothing. */
  lemma OtherKeeps(st: State, step: Step)
    requires Inv(st) && Enabled(st, step) && !step.Spawn? && !step.Erase? && !step.Plan? && !step.Reserve?
    ensures Inv(Next(st, step))
  {
    var st' := Next(st, step);
    if step.Request? || step.Fail? || step.Complete? {
      if step.root in st.ops { assert OpOk(st, step.root); }
      StatusKeeps(st, step.root, st'.ops[step.root]);
    } else {
      forall r | r in st.ops && st.ops[r].planned ensures r in st'.tombs && st'.tombs[r] == r { assert OpOk(st, r); }
      TombKeeps(st, st');
    }
  }

  lemma NextKeeps(st: State, step: Step)
    requires Inv(st)
    ensures Inv(Next(st, step))
  {
    if Enabled(st, step) {
      match step
      case Spawn(child, parent) => SpawnKeeps(st, child, parent);
      case Erase(root, i) => EraseKeeps(st, root, i);
      case Plan(root, members) => PlanKeeps(st, root, members);
      case Reserve(root) => ReserveKeeps(st, root);
      case _ => OtherKeeps(st, step);
    }
  }

  // ------------------------------------------------------------ every run

  ghost function Run(steps: seq<Step>): State {
    if steps == [] then START else Next(Run(steps[..|steps| - 1]), steps[|steps| - 1])
  }

  lemma {:induction false} RunKeeps(steps: seq<Step>)
    ensures Inv(Run(steps))
  {
    if steps != [] {
      RunKeeps(steps[..|steps| - 1]);
      NextKeeps(Run(steps[..|steps| - 1]), steps[|steps| - 1]);
    }
  }

  /** Everything ever created below a root that is gone is gone. */
  lemma {:induction false} GoneBelow(st: State, s: Session, root: Session)
    requires Forest(st) && s in st.live && Under(st.parents, s, root)
    ensures root in st.live
    decreases s
  {
    if s != root { GoneBelow(st, st.parents[s].value, root); }
  }

  /**
   After any run, `completed` means that no session that was ever created at or below the
   root exists, whatever was spawned meanwhile; and children always go before their parents.
   */
  lemma CompletedMeansGone(steps: seq<Step>, root: Session, s: Session)
    requires root in Run(steps).ops && Run(steps).ops[root].status == Completed
    ensures Under(Run(steps).parents, s, root) ==> s !in Run(steps).live
  {
    RunKeeps(steps);
    var st := Run(steps);
    assert OpOk(st, root);
    assert root in st.ops[root].members;
    if s in st.live && Under(st.parents, s, root) { GoneBelow(st, s, root); }
  }

  /** No surviving session has an erased parent. */
  lemma ChildrenFirst(steps: seq<Step>, s: Session)
    requires s in Run(steps).live
    ensures s in Run(steps).parents
    ensures Run(steps).parents[s].Some? ==> Run(steps).parents[s].value in Run(steps).live
  {
    RunKeeps(steps);
  }

  /**
   A step of a run erases at most one session: one at or below the root of a deletion under
   way, without a running turn, and without children left.
   */
  lemma EraseIsSafe(steps: seq<Step>, step: Step, s: Session)
    requires s in Run(steps).live && s !in Next(Run(steps), step).live
    ensures var st := Run(steps);
      && step.Erase? && Active(st, step.root) && Under(st.parents, s, step.root)
      && s !in st.running
      && (forall c :: c in st.live && c in st.parents ==> st.parents[c] != Some(s))
      && Next(st, step).live == st.live - {s}
  {
    RunKeeps(steps);
    var st := Run(steps);
    assert step.Erase?;
    var op := st.ops[step.root];
    assert OpOk(st, step.root);
    MemberUnder(st.parents, step.root, op.members, step.i);
    forall c | c in st.live ensures st.parents[c] != Some(s) { NoChildLeft(st, step.root, step.i, c); }
  }

  /** Once planned, no turn starts and nothing is spawned anywhere below the root. */
  lemma AdmissionClosed(steps: seq<Step>, step: Step, root: Session, s: Session)
    requires root in Run(steps).ops && Run(steps).ops[root].planned
    requires s in Run(steps).live && Under(Run(steps).parents, s, root)
    ensures !Enabled(Run(steps), StartTurn(s))
    ensures forall child :: !Enabled(Run(steps), Spawn(child, Some(s)))
  {
    RunKeeps(steps);
    assert OpOk(Run(steps), root);
    TombSeen(Run(steps), s, root);
  }

  /** How often the deletion was requested again while it had failed. */
  ghost function Retries(steps: seq<Step>, root: Session): nat {
    if steps == [] then 0 else
      var st := Run(steps[..|steps| - 1]);
      Retries(steps[..|steps| - 1], root) +
      if steps[|steps| - 1] == Request(root) && root in st.ops && st.ops[root].status == Failed then 1 else 0
  }

  lemma AttemptStep(st: State, step: Step, root: Session)
    ensures root in Next(st, step).ops <==> root in st.ops || step == Request(root)
    ensures root in Next(st, step).ops ==>
      Next(st, step).ops[root].attempt ==
      if root !in st.ops then 1
      else st.ops[root].attempt + if step == Request(root) && st.ops[root].status == Failed then 1 else 0
  {
  }

  /**
   Over every run: a deletion is on record exactly if it was requested, and its attempt is one
   plus the number of requests made while it had failed, whatever else was requested or done.
   */
  lemma {:induction false} AttemptsCountRetries(steps: seq<Step>, root: Session)
    ensures root in Run(steps).ops <==> Request(root) in steps
    ensures root in Run(steps).ops ==> Run(steps).ops[root].attempt == 1 + Retries(steps, root)
    ensures root !in Run(steps).ops ==> Retries(steps, root) == 0
  {
    if steps != [] {
      var init, last := steps[..|steps| - 1], steps[|steps| - 1];
      AttemptsCountRetries(init, root);
      AttemptStep(Run(init), last, root);
      assert steps == init + [last];
    }
  }

  lemma CompletedStep(st: State, step: Step, root: Session)
    requires root in st.ops && st.ops[root].status == Completed
    ensures root in Next(st, step).ops && Next(st, step).ops[root].status == Completed
  {
  }

  /** A completed deletion stays completed, however often it is requested again. */
  lemma {:induction false} CompletedStays(steps: seq<Step>, more: seq<Step>, root: Session)
    requires root in Run(steps).ops && Run(steps).ops[root].status == Completed
    ensures root in Run(steps + more).ops && Run(steps + more).ops[root].status == Completed
  {
    if more == [] {
      assert steps + more == steps;
    } else {
      var init := more[..|more| - 1];
      CompletedStays(steps, init, root);
      assert (steps + more)[..|steps + more| - 1] == steps + init;
      CompletedStep(Run(steps + init), more[|more| - 1], root);
    }
  }

  // ------------------------------------------------------------ who may work, and who owns what

  /** A tombstone at or above `s`. */
  ghost predicate Barred(st: State, s: Session) {
    exists t :: t in st.tombs && Under(st.parents, s, t)
  }

  /** Walking up from an existing session meets a tombstone exactly if there is one at or above it. */
  lemma {:induction false} OwnerExactly(st: State, s: Session)
    requires Forest(st) && s in st.live
    ensures Owner(st, s).Some? <==> Barred(st, s)
    ensures Owner(st, s).Some? ==>
      exists t :: t in st.tombs && Under(st.parents, s, t) && Owner(st, s) == Some(st.tombs[t])
    decreases s
  {
    if s in st.tombs {
      assert Under(st.parents, s, s);
    } else if st.parents[s].Some? {
      var up := st.parents[s].value;
      OwnerExactly(st, up);
      if Owner(st, up).Some? {
        var t :| t in st.tombs && Under(st.parents, up, t) && Owner(st, up) == Some(st.tombs[t]);
        assert Under(st.parents, s, t);
      }
      if t :| t in st.tombs && Under(st.parents, s, t) { assert Under(st.parents, up, t); }
    }
  }

  /**
   A turn starts exactly in an existing session with no tombstone at or above it, and a session is
   spawned exactly under a new id and, if it has a parent, below such a session; nothing else
   starts a turn or makes a session.
   */
  lemma AdmittedExactly(steps: seq<Step>, step: Step, s: Session)
    ensures var st := Run(steps);
      && (s in Next(st, step).running && s !in st.running <==>
            step == StartTurn(s) && s in st.live && s !in st.running && !Barred(st, s))
      && (s in st.running && s !in Next(st, step).running <==> step == EndTurn(s) && s in st.running)
      && (s in Next(st, step).live && s !in st.live <==>
            && step.Spawn? && step.child == s && s !in st.parents && s !in st.tombs
            && (step.parent.Some? ==>
                  step.parent.value in st.live && step.parent.value < s && !Barred(st, step.parent.value)))
      && (s in Next(st, step).live && s !in st.live ==>
            s in Next(st, step).parents && Next(st, step).parents[s] == step.parent)
      && (s in st.parents ==> s in Next(st, step).parents && Next(st, step).parents[s] == st.parents[s])
  {
    RunKeeps(steps);
    var st := Run(steps);
    if step == StartTurn(s) && s in st.live { OwnerExactly(st, s); }
    if step.Spawn? && step.parent.Some? && step.parent.value in st.live { OwnerExactly(st, step.parent.value); }
  }

  /** A deletion's record moves in these ways only. */
  lemma DeletionMoves(st: State, step: Step, root: Session)
    requires root in st.ops
    ensures root in Next(st, step).ops
    ensures var was, now := st.ops[root], Next(st, step).ops[root];
      && (now.status == Deleting && was.status != Deleting <==> was.status == Failed && step == Request(root))
      && (now.status == Failed && was.status != Failed <==>
            was.status == Deleting && (step == Fail(root) || (step == Reserve(root) && Conflict(st, root))))
      && (now.status == Completed && was.status != Completed <==>
            && was.status == Deleting && step == Complete(root) && was.planned
            && forall s :: s in was.members ==> s in was.deleted)
      && (was.planned ==> now.planned && now.members == was.members)
      && (now.planned && !was.planned <==>
            && was.status == Deleting && !was.planned && step.Plan? && step.root == root
            && root in st.tombs && st.tombs[root] == root && TreeOrder(st.parents, st.live, root, step.members)
            && forall s :: s in step.members && s in st.tombs ==> st.tombs[s] == root)
      && (now.planned && !was.planned ==> now.members == step.members)
      && was.deleted <= now.deleted
  {
  }

  /** A first request starts with nothing planned, claimed or deleted. */
  lemma DeletionStarts(st: State, root: Session)
    requires root !in st.ops
    ensures root in Next(st, Request(root)).ops
    ensures var op := Next(st, Request(root)).ops[root];
      op.status == Deleting && op.attempt == 1 && !op.planned && op.members == [] && op.deleted == {}
    ensures Next(st, Request(root)) == st.(ops := Next(st, Request(root)).ops)
  {
  }

  /** A deletion notes a member as deleted exactly when it erases it, last members first. */
  lemma NotedExactly(st: State, step: Step, root: Session, s: Session)
    requires root in st.ops && s !in st.ops[root].deleted
    ensures root in Next(st, step).ops
    ensures s in Next(st, step).ops[root].deleted <==>
      && step.Erase? && step.root == root && st.ops[root].status == Deleting && st.ops[root].planned
      && step.i < |st.ops[root].members| && st.ops[root].members[step.i] == s && s !in st.running
      && forall j :: step.i < j < |st.ops[root].members| ==> st.ops[root].members[j] in st.ops[root].deleted
    ensures s in Next(st, step).ops[root].deleted ==> s !in Next(st, step).live
  {
  }

  /** Tombstones are set by a reservation without a conflict and by a claim of a planned member. */
  lemma TombSetExactly(st: State, step: Step, s: Session, root: Session)
    requires s !in st.tombs || st.tombs[s] != root
    ensures s in Next(st, step).tombs && Next(st, step).tombs[s] == root <==>
      || (step == Reserve(root) && s == root && root in st.ops && st.ops[root].status == Deleting
          && !Conflict(st, root))
      || (step == Claim(root, s) && root in st.ops && st.ops[root].status == Deleting && st.ops[root].planned
          && s in st.ops[root].members && s !in st.tombs)
  {
  }

  /** They go only with a reservation refused before its plan, or one passed over by a deletion below it. */
  lemma TombGoneExactly(st: State, step: Step, s: Session)
    requires s in st.tombs
    ensures s !in Next(st, step).tombs <==>
      || (step == Reserve(s) && s in st.ops && st.ops[s].status == Deleting && Conflict(st, s) && !st.ops[s].planned
          && st.tombs[s] == s)
      || (step.Repair? && step.ancestor == s && st.tombs[s] == s && s in st.ops && !st.ops[s].planned
          && step.root in st.tombs && st.tombs[step.root] == step.root && step.root != s
          && Under(st.parents, step.root, s))
  {
  }

  /** Tombstones one above the other, on sessions that exist, are of one deletion. */
  ghost predicate OneOwner(st: State) {
    forall a, b :: a in st.live && a in st.tombs && b in st.tombs && Under(st.parents, a, b) ==>
      st.tombs[a] == st.tombs[b]
  }

  /** Of two sessions at or above a third, one is above the other. */
  lemma {:induction false} Chain(parents: map<Session, Option<Session>>, s: Session, a: Session, b: Session)
    requires Under(parents, s, a) && Under(parents, s, b)
    ensures Under(parents, a, b) || Under(parents, b, a)
    decreases s
  {
    if s != a && s != b { Chain(parents, parents[s].value, a, b); }
  }

  lemma {:induction false} UnderTrans(parents: map<Session, Option<Session>>, s: Session, a: Session, b: Session)
    requires Under(parents, s, a) && Under(parents, a, b)
    ensures Under(parents, s, b)
    decreases s
  {
    if s != a { UnderTrans(parents, parents[s].value, a, b); }
  }

  /** Another deletion has a tombstone at or above the root, on what exists below it, or on a planned member. */
  ghost predicate Overlaps(st: State, root: Session, t: Session) {
    && t in st.tombs && st.tombs[t] != root
    && (|| t == root || (root in st.live && Under(st.parents, root, t)) || (t in st.live && Under(st.parents, t, root))
        || (root in st.ops && t in st.ops[root].members))
  }

  /** A reservation is refused exactly if it overlaps another deletion. */
  lemma ConflictExactly(steps: seq<Step>, root: Session)
    ensures Conflict(Run(steps), root) <==> exists t :: Overlaps(Run(steps), root, t)
  {
    var st := Run(steps);
    RunKeeps(steps);
    RunOneOwner(steps);
    if root in st.live { OwnerExactly(st, root); }
    if t :| Overlaps(st, root, t) {
      if root in st.live && Under(st.parents, root, t) && t != root {
        var near :| near in st.tombs && Under(st.parents, root, near) && Owner(st, root) == Some(st.tombs[near]);
        Chain(st.parents, root, near, t);
        GoneBelow(st, root, near);
        GoneBelow(st, root, t);
      }
    }
    if Conflict(st, root) {
      if Owner(st, root).Some? && Owner(st, root) != Some(root) {
        if root in st.live {
          var near :| near in st.tombs && Under(st.parents, root, near) && Owner(st, root) == Some(st.tombs[near]);
          assert Overlaps(st, root, near);
        } else {
          assert Overlaps(st, root, root);
        }
      } else {
        var t :| t in st.tombs && st.tombs[t] != root && (t == root || (t in st.live && Under(st.parents, t, root)) ||
          (root in st.ops && t in st.ops[root].members));
        assert Overlaps(st, root, t);
      }
    }
  }

  lemma ReserveOneOwner(st: State, root: Session)
    requires Inv(st) && OneOwner(st) && !Conflict(st, root)
    ensures OneOwner(st.(tombs := st.tombs[root := root]))
  {
    var tombs := st.tombs[root := root];
    forall a, b | a in st.live && a in tombs && b in tombs && Under(st.parents, a, b) ensures tombs[a] == tombs[b] {
      if a == root && b != root {
        OwnerExactly(st, root);
        assert Barred(st, root);
        var t :| t in st.tombs && Under(st.parents, root, t) && Owner(st, root) == Some(st.tombs[t]);
        Chain(st.parents, root, t, b);
        GoneBelow(st, root, t);
        GoneBelow(st, root, b);
      }
    }
  }

  lemma ClaimOneOwner(st: State, root: Session, s: Session)
    requires Inv(st) && OneOwner(st) && Enabled(st, Claim(root, s))
    ensures OneOwner(st.(tombs := st.tombs[s := root]))
  {
    var op := st.ops[root];
    assert OpOk(st, root);
    var i :| 0 <= i < |op.members| && op.members[i] == s;
    MemberUnder(st.parents, root, op.members, i);
    var tombs := st.tombs[s := root];
    forall a, b | a in st.live && a in tombs && b in tombs && Under(st.parents, a, b) ensures tombs[a] == tombs[b] {
      if a == s && b != s {
        Chain(st.parents, s, b, root);
        GoneBelow(st, s, b);
        GoneBelow(st, s, root);
      } else if b == s && a != s {
        UnderTrans(st.parents, a, s, root);
      }
    }
  }

  lemma SpawnOneOwner(st: State, child: Session, parent: Option<Session>)
    requires Inv(st) && OneOwner(st) && Enabled(st, Spawn(child, parent))
    ensures OneOwner(Next(st, Spawn(child, parent)))
  {
    var st' := Next(st, Spawn(child, parent));
    forall a, b | a in st'.live && a in st'.tombs && b in st'.tombs && Under(st'.parents, a, b)
      ensures st'.tombs[a] == st'.tombs[b]
    {
      UnderSame(st.parents, child, parent, a, b);
    }
  }

  lemma NextOneOwner(st: State, step: Step)
    requires Inv(st) && OneOwner(st)
    ensures OneOwner(Next(st, step))
  {
    if Enabled(st, step) {
      match step
      case Spawn(child, parent) => SpawnOneOwner(st, child, parent);
      case Reserve(root) => if !Conflict(st, root) { ReserveOneOwner(st, root); }
      case Claim(root, s) => ClaimOneOwner(st, root, s);
      case _ =>
    }
  }

  lemma {:induction false} RunOneOwner(steps: seq<Step>)
    ensures OneOwner(Run(steps))
  {
    if steps != [] {
      var init := steps[..|steps| - 1];
      RunOneOwner(init);
      RunKeeps(init);
      NextOneOwner(Run(init), steps[|steps| - 1]);
    }
  }

  /**
   Two deletions never reach into each other: all tombstones at or above an existing session
   are of one deletion, and whoever erases the session is that one.
   */
  lemma DeletionsDisjoint(steps: seq<Step>, s: Session, a: Session, b: Session)
    requires var st := Run(steps);
      s in st.live && a in st.tombs && b in st.tombs && Under(st.parents, s, a) && Under(st.parents, s, b)
    ensures Run(steps).tombs[a] == Run(steps).tombs[b]
    ensures forall step :: s !in Next(Run(steps), step).live ==> step.Erase? && step.root == Run(steps).tombs[a]
  {
    var st := Run(steps);
    RunKeeps(steps);
    RunOneOwner(steps);
    Chain(st.parents, s, a, b);
    GoneBelow(st, s, a);
    GoneBelow(st, s, b);
    forall step | s !in Next(st, step).live ensures step.Erase? && step.root == st.tombs[a] {
      EraseIsSafe(steps, step, s);
      assert OpOk(st, step.root);
      Chain(st.parents, s, a, step.root);
      GoneBelow(st, s, step.root);
    }
  }

  // ------------------------------------------------------------ collecting the tree

  /** Plans under construction: the live children of everything before `open` are listed. */
  ghost predicate Collecting(parents: map<Session, Option<Session>>, live: set<Session>, root: Session,
      members: seq<Session>, open: nat)
  {
    && 0 < |members| && open <= |members| && members[0] == root
    && (forall i, j :: 0 <= i < j < |members| ==> members[i] != members[j])
    && (forall i :: 0 < i < |members| ==> After(parents, members, i) && members[i] in live)
    && (forall s :: s in live && s in parents && parents[s].Some? && parents[s].value in members[..open] ==>
          s in members)
  }

  lemma CollectOne(parents: map<Session, Option<Session>>, live: set<Session>, root: Session, members: seq<Session>,
      open: nat, c: Session)
    requires Collecting(parents, live, root, members, open) && c !in members
    requires c in live && c in parents && parents[c].Some? && parents[c].value in members
    ensures Collecting(parents, live, root, members + [c], open)
  {
    var next := members + [c];
    forall i | 0 < i < |next| ensures After(parents, next, i) && next[i] in live {
      if i < |members| {
        assert After(parents, members, i);
        assert next[..i] == members[..i];
      } else {
        assert next[..i] == members;
      }
    }
    assert next[..open] == members[..open];
  }

  lemma CollectNext(parents: map<Session, Option<Session>>, live: set<Session>, root: Session, members: seq<Session>,
      open: nat)
    requires Collecting(parents, live, root, members, open) && open < |members|
    requires forall s :: s in live && s in parents && parents[s] == Some(members[open]) ==> s in members
    ensures Collecting(parents, live, root, members, open + 1)
  {
    assert members[..open + 1] == members[..open] + [members[open]];
  }

  /** The children of one session are added to the plan. */
  method AddChildren(parents: map<Session, Option<Session>>, live: set<Session>, root: Session, before: seq<Session>,
      open: nat)
    returns (members: seq<Session>)
    requires Collecting(parents, live, root, before, open) && open < |before| && live <= parents.Keys
    ensures Collecting(parents, live, root, members, open + 1)
  {
    members := before;
    var parent := before[open];
    var children := set s | s in live && parents[s] == Some(parent) && s !in members;
    while children != {}
      invariant forall s :: s in children ==> s in live && parents[s] == Some(parent) && s !in members
      invariant forall s :: s in live && parents[s] == Some(parent) ==> s in members || s in children
      invariant Collecting(parents, live, root, members, open) && open < |members| && members[open] == parent
      decreases children
    {
      var c :| c in children;
      assert members[open] in members;
      CollectOne(parents, live, root, members, open, c);
      members := members + [c];
      children := children - {c};
    }
    CollectNext(parents, live, root, members, open);
  }

  /** The walk down from the root, parents before children. */
  method Collect(parents: map<Session, Option<Session>>, live: set<Session>, root: Session)
      returns (members: seq<Session>)
    requires live <= parents.Keys
    ensures TreeOrder(parents, live, root, members)
  {
    members := [root];
    var open := 0;
    while open < |members|
      invariant Collecting(parents, live, root, members, open)
      decreases |live + {root}| - open
    {
      Bounded(members, live + {root});
      members := AddChildren(parents, live, root, members, open);
      open := open + 1;
    }
    assert members[..open] == members;
  }

  lemma {:induction false} Bounded(s: seq<Session>, all: set<Session>)
    requires (forall i, j :: 0 <= i < j < |s| ==> s[i] != s[j]) && forall i :: 0 <= i < |s| ==> s[i] in all
    ensures |s| <= |all|
  {
    if s != [] {
      Bounded(s[..|s| - 1], all - {s[|s| - 1]});
    }
  }

  // ------------------------------------------------------------ erasing

  /** A plan whose members after `i` are erased. */
  ghost predicate ErasedAfter(st: State, root: Session, i: int) {
    && root in st.ops && st.ops[root].planned && Active(st, root)
    && forall j :: 0 <= j < |st.ops[root].members| && j > i ==> st.ops[root].members[j] in st.ops[root].deleted
  }

  lemma EraseNext(st: State, root: Session, i: nat)
    requires Inv(st) && ErasedAfter(st, root, i) && i < |st.ops[root].members| && st.ops[root].members[i] !in st.running
    ensures var st' := Next(st, Erase(root, i));
      && Inv(st') && ErasedAfter(st', root, i - 1) && st'.ops[root].members == st.ops[root].members
      && st'.live == st.live - {st.ops[root].members[i]} && st'.running == st.running
      && st'.ops[root].attempt == st.ops[root].attempt
  {
    EraseKeeps(st, root, i);
  }

  /**
   The erase loop of one delivery, from the last member of the plan back to the root. It
   stops early at a deadline (`budget`) or at a session that has become busy, and can be
   taken up again from what is stored.
   */
  method EraseMembers(st0: State, root: Session, budget: nat) returns (st: State, done: bool)
    requires Inv(st0) && Active(st0, root) && st0.ops[root].planned
    ensures Inv(st) && Active(st, root) && st.ops[root].members == st0.ops[root].members
    ensures st.live <= st0.live && forall s :: s in st0.live && s !in st.live ==> s in st0.ops[root].members
    ensures forall s :: s in st0.live && s in st0.running ==> s in st.live
    ensures done ==> forall s :: s in st0.ops[root].members ==> s !in st.live
    ensures done <== budget >= |st0.ops[root].members| && forall s :: s in st0.ops[root].members ==> s !in st0.running
  {
    st := st0;
    var members := st0.ops[root].members;
    var i, left := |members| - 1, budget;
    while i >= 0
      invariant -1 <= i < |members| && Erasing(st0, st, root, i, members)
      invariant budget >= |members| ==> left > i
    {
      if left == 0 || members[i] in st.running { return st, false; }
      ErasingOne(st0, st, root, i, members);
      st := Erased(st, root, members[i]);
      i, left := i - 1, left - 1;
    }
    AllErased(st, root, members);
    return st, true;
  }

  /** The state without one session, noted in its deletion. */
  function Erased(st: State, root: Session, s: Session): State
    requires root in st.ops
  {
    st.(live := st.live - {s}, ops := st.ops[root := st.ops[root].(deleted := st.ops[root].deleted + {s})])
  }

  /** What the loop has done to the state so far. */
  ghost predicate Erasing(st0: State, st: State, root: Session, i: int, members: seq<Session>) {
    && Inv(st) && ErasedAfter(st, root, i) && st.ops[root].members == members
    && st.live <= st0.live && st.running == st0.running
    && (forall s :: s in st0.live && s !in st.live ==> s in members && s !in st0.running)
  }

  lemma ErasingOne(st0: State, st: State, root: Session, i: nat, members: seq<Session>)
    requires i < |members| && Erasing(st0, st, root, i, members) && members[i] !in st.running
    ensures Erasing(st0, Erased(st, root, members[i]), root, i - 1, members)
  {
    EraseNext(st, root, i);
    assert Next(st, Erase(root, i)) == Erased(st, root, members[i]);
  }

  lemma AllErased(st: State, root: Session, members: seq<Session>)
    requires Inv(st) && ErasedAfter(st, root, -1) && st.ops[root].members == members
    ensures forall s :: s in members ==> s !in st.live
  {
    assert OpOk(st, root);
  }
}
