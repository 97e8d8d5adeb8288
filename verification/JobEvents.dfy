/**
 Completions of background jobs. A job's completion goes out with a live call that reaches
 every observer; an observer of one job that is added when the job has already finished gets
 it from a replay, a call for that observer alone. Live calls, replays, removals, additions
 and the pruning of records interleave freely, and what is in flight may be lost. The match
 hook claims a completion for an observer so that it takes it from one of the calls only.
 */
module JobEvents {
  import opened Options

  type JobId = string
  type ObserverId = string

  /** One run of a job ending. Start and finish times tell runs of a reused id apart. */
  datatype Completion = Completion(job: JobId, run: nat)

  datatype Job = Job(run: nat, finalized: bool)

  datatype Delivery = Delivery(what: Completion, replayed: bool)

  /**
   `active` are the accepted observers with the job they watch (none: every job), `got` what
   each received since it was added. In flight: live calls, replays not yet looked up, and
   replay calls.
   */
  datatype State = State(
    jobs: map<JobId, Job>, runs: nat,
    active: map<ObserverId, Option<JobId>>,
    claimed: map<ObserverId, Completion>,
    got: map<ObserverId, seq<Delivery>>,
    live: set<Completion>,
    due: multiset<(ObserverId, JobId)>,
    calls: multiset<(ObserverId, Completion)>)

  const START := State(map[], 0, map[], map[], map[], {}, multiset{}, multiset{})

  datatype Step =
    | Reserve(job: JobId)
    | Finalize(job: JobId)
    | Prune(job: JobId)
    | LiveCall(what: Completion)
    | Accept(observer: ObserverId, watch: Option<JobId>)
    | Remove(observer: ObserverId)
    | Replay(observer: ObserverId, job: JobId)
    | ReplayCall(observer: ObserverId, what: Completion)
    | DropLive(what: Completion)
    | DropReplay(observer: ObserverId, job: JobId)
    | DropCall(observer: ObserverId, what: Completion)

  predicate Enabled(s: State, step: Step) {
    match step
    case Reserve(j) => j !in s.jobs
    case Finalize(j) => j in s.jobs && !s.jobs[j].finalized
    case Prune(j) => j in s.jobs && s.jobs[j].finalized
    case LiveCall(c) => c in s.live
    case Accept(o, _) => o !in s.active
    case Remove(o) => o in s.active
    case Replay(o, j) => (o, j) in s.due
    case ReplayCall(o, c) => (o, c) in s.calls
    case DropLive(c) => c in s.live
    case DropReplay(o, j) => (o, j) in s.due
    case DropCall(o, c) => (o, c) in s.calls
  }

  /** The match hook: whether an active observer takes a call with this completion. */
  predicate Wants(s: State, o: ObserverId, c: Completion)
    requires o in s.active
  {
    s.active[o].None? || (s.active[o] == Some(c.job) && (o !in s.claimed || s.claimed[o] != c))
  }

  predicate Takes(s: State, o: ObserverId, c: Completion) {
    o in s.active && o in s.got && Wants(s, o, c)
  }

  /** Every observer in `who` that wants the completion takes it. */
  function Deliver(s: State, who: set<ObserverId>, c: Completion, replayed: bool): State {
    s.(got := map o | o in s.got ::
         if o in who && Takes(s, o, c) then s.got[o] + [Delivery(c, replayed)] else s.got[o],
       claimed := map o | o in s.claimed.Keys + s.got.Keys && (o in s.claimed || ClaimsNow(s, who, o, c)) ::
         if ClaimsNow(s, who, o, c) then c else s.claimed[o])
  }

  predicate ClaimsNow(s: State, who: set<ObserverId>, o: ObserverId, c: Completion) {
    o in who && Takes(s, o, c) && s.active[o].Some?
  }

  function Next(s: State, step: Step): State {
    if !Enabled(s, step) then s
    else
      match step
      case Reserve(j) => s.(jobs := s.jobs[j := Job(s.runs, false)], runs := s.runs + 1)
      case Finalize(j) =>
        s.(jobs := s.jobs[j := s.jobs[j].(finalized := true)], live := s.live + {Completion(j, s.jobs[j].run)})
      case Prune(j) => s.(jobs := s.jobs - {j})
      case LiveCall(c) => Deliver(s.(live := s.live - {c}), s.active.Keys, c, false)
      case Accept(o, watch) =>
        s.(active := s.active[o := watch], got := s.got[o := []],
           due := if watch.Some? then s.due + multiset{(o, watch.value)} else s.due)
      case Remove(o) => s.(active := s.active - {o}, claimed := s.claimed - {o})
      case Replay(o, j) =>
        var rest := s.(due := s.due - multiset{(o, j)});
        if j in s.jobs && s.jobs[j].finalized
           && !(o in s.claimed && s.claimed[o] == Completion(j, s.jobs[j].run))
        then rest.(calls := s.calls + multiset{(o, Completion(j, s.jobs[j].run))})
        else rest
      case ReplayCall(o, c) =>
        Deliver(s.(calls := s.calls - multiset{(o, c)}), {o}, c, true)
      case DropLive(c) => s.(live := s.live - {c})
      case DropReplay(o, j) => s.(due := s.due - multiset{(o, j)})
      case DropCall(o, c) => s.(calls := s.calls - multiset{(o, c)})
  }

  function Run(steps: seq<Step>): State {
    if steps == [] then START else Next(Run(steps[..|steps| - 1]), steps[|steps| - 1])
  }

  // ------------------------------------------------------------ claims are the last delivery

  function Last(got: seq<Delivery>): Option<Completion> {
    if got == [] then None else Some(got[|got| - 1].what)
  }

  function ClaimOf(s: State, o: ObserverId): Option<Completion> {
    if o in s.claimed then Some(s.claimed[o]) else None
  }

  /** An observer of one job has claimed what it received last, and never the same twice in a row. */
  ghost predicate Claims(s: State, o: ObserverId) {
    && (o in s.active ==> o in s.got)
    && (o !in s.active ==> o !in s.claimed)
    && (o in s.active && s.active[o].None? ==> o !in s.claimed)
    && (o in s.active && s.active[o].Some? ==>
          && ClaimOf(s, o) == Last(s.got[o])
          && (forall i :: 0 <= i < |s.got[o]| ==> s.got[o][i].what.job == s.active[o].value)
          && (forall i :: 0 < i < |s.got[o]| ==> s.got[o][i - 1].what != s.got[o][i].what))
  }

  lemma DeliverClaims(s: State, who: set<ObserverId>, c: Completion, replayed: bool, o: ObserverId)
    requires Claims(s, o)
    ensures Claims(Deliver(s, who, c, replayed), o)
  {
  }

  lemma NextClaims(s: State, step: Step, o: ObserverId)
    requires Claims(s, o)
    ensures Claims(Next(s, step), o)
  {
    if Enabled(s, step) {
      match step
      case LiveCall(c) => DeliverClaims(s.(live := s.live - {c}), s.active.Keys, c, false, o);
      case ReplayCall(x, c) => DeliverClaims(s.(calls := s.calls - multiset{(x, c)}), {x}, c, true, o);
      case _ =>
    }
  }

  lemma {:induction false} RunClaims(steps: seq<Step>, o: ObserverId)
    ensures Claims(Run(steps), o)
  {
    if steps != [] {
      RunClaims(steps[..|steps| - 1], o);
      NextClaims(Run(steps[..|steps| - 1]), steps[|steps| - 1], o);
    }
  }

  // ------------------------------------------------------------ nothing retained is missed

  /** The observer watches a job whose record is final and retained. */
  predicate Retained(s: State, o: ObserverId, j: JobId) {
    o in s.active && o in s.got && s.active[o] == Some(j) && j in s.jobs && s.jobs[j].finalized
  }

  /** The completion of a retained record is delivered, or on its way to the observer. */
  ghost predicate Coming(s: State, o: ObserverId, j: JobId) {
    Retained(s, o, j) ==>
      var c := Completion(j, s.jobs[j].run);
      || Holds(s.got[o], c)
      || c in s.live
      || (o, j) in s.due
      || (o, c) in s.calls
  }

  /** A call or replay that may carry the job's completion to the observer is lost. */
  predicate Drops(step: Step, o: ObserverId, j: JobId) {
    || (step.DropLive? && step.what.job == j)
    || step == DropReplay(o, j)
    || (step.DropCall? && step.observer == o && step.what.job == j)
  }

  ghost predicate NothingDropped(steps: seq<Step>, o: ObserverId, j: JobId) {
    forall i :: 0 <= i < |steps| ==> !Drops(steps[i], o, j)
  }

  lemma DeliverComing(s: State, who: set<ObserverId>, c: Completion, replayed: bool, o: ObserverId, j: JobId)
    requires Claims(s, o) && Retained(s, o, j)
    requires Coming(s, o, j) || (o in who && c == Completion(j, s.jobs[j].run))
    ensures Coming(Deliver(s, who, c, replayed), o, j)
  {
    var s' := Deliver(s, who, c, replayed);
    var mine := Completion(j, s.jobs[j].run);
    assert s.got[o] <= s'.got[o];
    if o in who && c == mine {
      if Takes(s, o, c) {
        assert s'.got[o][|s.got[o]|].what == mine;
      } else {
        assert s.claimed[o] == c;
        assert s'.got[o][|s.got[o]| - 1].what == mine;
      }
    } else if i :| 0 <= i < |s.got[o]| && s.got[o][i].what == mine {
      assert s'.got[o][i].what == mine;
    }
  }

  lemma ReplayComing(s: State, x: ObserverId, y: JobId, o: ObserverId, j: JobId)
    requires Claims(s, o) && Coming(s, o, j) && Retained(s, o, j) && Enabled(s, Replay(x, y))
    ensures Coming(Next(s, Replay(x, y)), o, j)
  {
    if x == o && y == j && o in s.claimed && s.claimed[o] == Completion(j, s.jobs[j].run) {
      assert s.got[o][|s.got[o]| - 1].what == s.claimed[o];
    }
  }

  lemma OtherComing(s: State, step: Step, o: ObserverId, j: JobId)
    requires Coming(s, o, j) && !Drops(step, o, j)
    requires !step.LiveCall? && !step.ReplayCall? && !step.Replay?
    ensures Coming(Next(s, step), o, j)
  {
  }

  lemma NextComing(s: State, step: Step, o: ObserverId, j: JobId)
    requires Claims(s, o) && Coming(s, o, j) && !Drops(step, o, j)
    ensures Coming(Next(s, step), o, j)
  {
    if step.LiveCall? || step.ReplayCall? || step.Replay? {
      if Enabled(s, step) && Retained(s, o, j) {
        match step
        case LiveCall(c) => DeliverComing(s.(live := s.live - {c}), s.active.Keys, c, false, o, j);
        case ReplayCall(x, c) => DeliverComing(s.(calls := s.calls - multiset{(x, c)}), {x}, c, true, o, j);
        case Replay(x, y) => ReplayComing(s, x, y, o, j);
      }
    } else {
      OtherComing(s, step, o, j);
    }
  }

  lemma {:induction false} RunComing(steps: seq<Step>, o: ObserverId, j: JobId)
    requires NothingDropped(steps, o, j)
    ensures Coming(Run(steps), o, j)
  {
    if steps != [] {
      RunClaims(steps[..|steps| - 1], o);
      RunComing(steps[..|steps| - 1], o, j);
      NextComing(Run(steps[..|steps| - 1]), steps[|steps| - 1], o, j);
    }
  }

  // ------------------------------------------------------------ what an observer received, from the calls made

  /** The calls that reached the observer since it was added last, whether it took them or not. */
  function Heard(steps: seq<Step>, o: ObserverId): seq<Delivery> {
    if steps == [] then [] else
      var s, step := Run(steps[..|steps| - 1]), steps[|steps| - 1];
      HeardNext(s, step, o, Heard(steps[..|steps| - 1], o))
  }

  function HeardNext(s: State, step: Step, o: ObserverId, heard: seq<Delivery>): seq<Delivery> {
    if !Enabled(s, step) then heard
    else if step.Accept? && step.observer == o then []
    else if step.LiveCall? && o in s.active then heard + [Delivery(step.what, false)]
    else if step.ReplayCall? && step.observer == o && o in s.active then heard + [Delivery(step.what, true)]
    else heard
  }

  /** What an observer with this watch takes of them: of its job, and not what it took just before. */
  function Taken(heard: seq<Delivery>, watch: Option<JobId>): (r: seq<Delivery>)
    ensures watch.None? ==> r == heard
  {
    if heard == [] then [] else
      var front, d := Taken(heard[..|heard| - 1], watch), heard[|heard| - 1];
      if watch.None? || (d.what.job == watch.value && Last(front) != Some(d.what)) then front + [d] else front
  }

  lemma TakenMore(heard: seq<Delivery>, d: Delivery, watch: Option<JobId>)
    ensures var front := Taken(heard, watch);
      Taken(heard + [d], watch) ==
      if watch.None? || (d.what.job == watch.value && Last(front) != Some(d.what)) then front + [d] else front
  {
    assert (heard + [d])[..|heard|] == heard;
  }

  ghost predicate TookItsShare(s: State, o: ObserverId, heard: seq<Delivery>) {
    o in s.active ==> o in s.got && s.got[o] == Taken(heard, s.active[o])
  }

  lemma DeliverTaken(
    s: State, who: set<ObserverId>, c: Completion, replayed: bool, o: ObserverId, heard: seq<Delivery>)
    requires Claims(s, o) && TookItsShare(s, o, heard)
    ensures TookItsShare(Deliver(s, who, c, replayed), o,
      if o in who && o in s.active then heard + [Delivery(c, replayed)] else heard)
  {
    if o in s.active { TakenMore(heard, Delivery(c, replayed), s.active[o]); }
  }

  lemma NextTaken(s: State, step: Step, o: ObserverId, heard: seq<Delivery>)
    requires Claims(s, o) && TookItsShare(s, o, heard)
    ensures TookItsShare(Next(s, step), o, HeardNext(s, step, o, heard))
  {
    if Enabled(s, step) {
      if step.LiveCall? {
        DeliverTaken(s.(live := s.live - {step.what}), s.active.Keys, step.what, false, o, heard);
      } else if step.ReplayCall? {
        DeliverTaken(s.(calls := s.calls - multiset{(step.observer, step.what)}), {step.observer}, step.what, true,
          o, heard);
      } else {
        OtherTaken(s, step, o, heard);
      }
    }
  }

  lemma OtherTaken(s: State, step: Step, o: ObserverId, heard: seq<Delivery>)
    requires Enabled(s, step) && !step.LiveCall? && !step.ReplayCall? && TookItsShare(s, o, heard)
    ensures TookItsShare(Next(s, step), o, HeardNext(s, step, o, heard))
  {
  }

  /** An observer has received what it takes of the calls that reached it. */
  lemma {:induction false} GotIs(steps: seq<Step>, o: ObserverId)
    ensures TookItsShare(Run(steps), o, Heard(steps, o))
  {
    if steps != [] {
      var init := steps[..|steps| - 1];
      RunClaims(init, o);
      GotIs(init, o);
      NextTaken(Run(init), steps[|steps| - 1], o, Heard(init, o));
    }
  }

  ghost predicate Holds(got: seq<Delivery>, c: Completion) {
    exists i :: 0 <= i < |got| && got[i].what == c
  }

  lemma HoldsMore(got: seq<Delivery>, d: Delivery, c: Completion)
    ensures Holds(got + [d], c) <==> Holds(got, c) || d.what == c
  {
    var all := got + [d];
    if d.what == c { assert all[|got|].what == c; }
    if i :| 0 <= i < |got| && got[i].what == c { assert all[i].what == c; }
    if i :| 0 <= i < |all| && all[i].what == c && d.what != c { assert got[i].what == c; }
  }

  /** A completion is among those taken exactly if it is of the job and a call carried it. */
  lemma {:induction false} TakenOnceHeard(heard: seq<Delivery>, j: JobId, c: Completion)
    ensures Holds(Taken(heard, Some(j)), c) <==> c.job == j && Holds(heard, c)
  {
    if heard != [] {
      var n := |heard| - 1;
      var front := Taken(heard[..n], Some(j));
      TakenOnceHeard(heard[..n], j, c);
      HoldsMore(heard[..n], heard[n], c);
      HoldsMore(front, heard[n], c);
      assert heard == heard[..n] + [heard[n]];
      if Last(front) == Some(c) { assert front[|front| - 1].what == c; }
    }
  }

  // ------------------------------------------------------------ one run per id

  /** The step at `i` started a run of the job. */
  ghost predicate StartedAt(steps: seq<Step>, i: nat, j: JobId)
    requires i < |steps|
  {
    steps[i] == Reserve(j) && Enabled(Run(steps[..i]), steps[i])
  }

  /** The id is used for one run at most, as its users are told to see to. */
  ghost predicate NeverReused(steps: seq<Step>, j: JobId) {
    forall i, k :: 0 <= i < k < |steps| ==> !(StartedAt(steps, i, j) && StartedAt(steps, k, j))
  }

  /** Everything that speaks of the job speaks of this run (`None`: nothing does). */
  ghost predicate Speaks(s: State, j: JobId, run: Option<nat>) {
    && (j in s.jobs ==> run == Some(s.jobs[j].run))
    && (forall c :: c in s.live && c.job == j ==> run == Some(c.run))
    && (forall o, c :: (o, c) in s.calls && c.job == j ==> run == Some(c.run))
    && (forall o, i :: o in s.got && 0 <= i < |s.got[o]| && s.got[o][i].what.job == j ==>
          run == Some(s.got[o][i].what.run))
  }

  lemma DeliverSpeaks(s: State, who: set<ObserverId>, c: Completion, replayed: bool, j: JobId, run: Option<nat>)
    requires Speaks(s, j, run) && (c.job == j ==> run == Some(c.run))
    ensures Speaks(Deliver(s, who, c, replayed), j, run)
  {
  }

  lemma FewerCallsSpeak(s: State, x: ObserverId, c: Completion, j: JobId, run: Option<nat>)
    requires Speaks(s, j, run)
    ensures Speaks(s.(calls := s.calls - multiset{(x, c)}), j, run)
  {
    var s' := s.(calls := s.calls - multiset{(x, c)});
    forall o, d | (o, d) in s'.calls && d.job == j ensures run == Some(d.run) { assert (o, d) in s.calls; }
  }

  lemma ReplaySpeaks(s: State, x: ObserverId, y: JobId, j: JobId, run: Option<nat>)
    requires Speaks(s, j, run)
    ensures Speaks(Next(s, Replay(x, y)), j, run)
  {
  }

  lemma OtherSpeaks(s: State, step: Step, j: JobId, run: Option<nat>)
    requires Speaks(s, j, run) && !step.LiveCall? && !step.ReplayCall? && !step.DropCall? && !step.Replay?
    requires !(step == Reserve(j) && Enabled(s, step))
    ensures Speaks(Next(s, step), j, run)
  {
  }

  lemma NextSpeaks(s: State, step: Step, j: JobId, run: Option<nat>)
    requires Speaks(s, j, run) && !(step == Reserve(j) && Enabled(s, step))
    ensures Speaks(Next(s, step), j, run)
  {
    if step.LiveCall? {
      if Enabled(s, step) { DeliverSpeaks(s.(live := s.live - {step.what}), s.active.Keys, step.what, false, j, run); }
    } else if step.ReplayCall? {
      if Enabled(s, step) {
        FewerCallsSpeak(s, step.observer, step.what, j, run);
        DeliverSpeaks(s.(calls := s.calls - multiset{(step.observer, step.what)}), {step.observer}, step.what, true,
          j, run);
      }
    } else if step.DropCall? {
      FewerCallsSpeak(s, step.observer, step.what, j, run);
    } else if step.Replay? {
      ReplaySpeaks(s, step.observer, step.job, j, run);
    } else {
      OtherSpeaks(s, step, j, run);
    }
  }

  /** Without reuse there is one run to speak of, once it has been started. */
  lemma {:induction false} RunSpeaks(steps: seq<Step>, j: JobId) returns (run: Option<nat>)
    requires NeverReused(steps, j)
    ensures Speaks(Run(steps), j, run)
    ensures run.Some? ==> exists i :: 0 <= i < |steps| && StartedAt(steps, i, j)
  {
    run := None;
    if steps != [] {
      var n := |steps| - 1;
      var init := steps[..n];
      forall i | 0 <= i < n ensures StartedAt(init, i, j) <==> StartedAt(steps, i, j) {
        assert init[..i] == steps[..i];
      }
      run := RunSpeaks(init, j);
      if StartedAt(steps, n, j) {
        assert run.None?;
        run := Some(Run(init).runs);
      } else {
        NextSpeaks(Run(init), steps[n], j, run);
      }
    }
  }

  lemma NeighboursDiffer(s: State, o: ObserverId)
    requires Claims(s, o) && o in s.active && s.active[o].Some? && |s.got[o]| > 1
    ensures s.got[o][0].what != s.got[o][1].what
  {
    assert s.got[o][1 - 1].what != s.got[o][1].what;
  }

  lemma OneDelivery(s: State, o: ObserverId, j: JobId, run: Option<nat>)
    requires Claims(s, o) && Speaks(s, j, run) && o in s.active && s.active[o] == Some(j)
    ensures |s.got[o]| <= 1
  {
    if |s.got[o]| > 1 { NeighboursDiffer(s, o); }
  }

  /**
   Whatever the interleaving and whatever is lost, an observer of a job whose id is not reused
   receives at most one completion each time it is added; and once nothing is in flight for it,
   exactly one if nothing was lost and the job's record is final and retained.
   */
  lemma OncePerAddition(steps: seq<Step>, o: ObserverId, j: JobId)
    requires NeverReused(steps, j) && o in Run(steps).active && Run(steps).active[o] == Some(j)
    ensures o in Run(steps).got && |Run(steps).got[o]| <= 1
    ensures var s := Run(steps);
      Retained(s, o, j) && NothingDropped(steps, o, j) ==>
        var c := Completion(j, s.jobs[j].run);
        c !in s.live && (o, j) !in s.due && (o, c) !in s.calls ==> |s.got[o]| == 1 && s.got[o][0].what == c
  {
    RunClaims(steps, o);
    if NothingDropped(steps, o, j) { RunComing(steps, o, j); }
    var run := RunSpeaks(steps, j);
    OneDelivery(Run(steps), o, j, run);
  }

  /** An observer of a job has a completion exactly if a call carrying it ran since it was added. */
  lemma DeliveredExactly(steps: seq<Step>, o: ObserverId, j: JobId, c: Completion)
    requires o in Run(steps).active && Run(steps).active[o] == Some(j)
    ensures o in Run(steps).got
    ensures Holds(Run(steps).got[o], c) <==> c.job == j && Holds(Heard(steps, o), c)
  {
    GotIs(steps, o);
    TakenOnceHeard(Heard(steps, o), j, c);
  }

  // ------------------------------------------------------------ the same completion twice

  ghost predicate Twice(got: seq<Delivery>) {
    exists i, k :: 0 <= i < k < |got| && got[i].what == got[k].what
  }

  /** Calls carry a completion of the job, then another one of it, then the first again. */
  ghost predicate ComesBack(heard: seq<Delivery>, j: JobId) {
    exists a, b, d :: BackAt(heard, j, a, b, d)
  }

  predicate BackAt(heard: seq<Delivery>, j: JobId, a: int, b: int, d: int) {
    0 <= a < b < d < |heard| && heard[a].what.job == j && heard[b].what.job == j &&
    heard[a].what != heard[b].what && heard[d].what == heard[a].what
  }

  /** The last completion taken is the last one of the job that was heard. */
  lemma {:induction false} LastTaken(heard: seq<Delivery>, j: JobId) returns (m: int)
    ensures Last(Taken(heard, Some(j))).None? ==> forall n :: 0 <= n < |heard| ==> heard[n].what.job != j
    ensures Last(Taken(heard, Some(j))).Some? ==>
      0 <= m < |heard| && Last(Taken(heard, Some(j))) == Some(heard[m].what) && heard[m].what.job == j &&
      forall n :: m < n < |heard| && heard[n].what.job == j ==> heard[n].what == heard[m].what
  {
    m := 0;
    if heard != [] {
      var n := |heard| - 1;
      m := LastTaken(heard[..n], j);
      if heard[n].what.job == j { m := n; }
    }
  }

  lemma TwiceGrows(front: seq<Delivery>, all: seq<Delivery>)
    requires front <= all && Twice(front)
    ensures Twice(all)
  {
    var i, k :| 0 <= i < k < |front| && front[i].what == front[k].what;
    assert all[i].what == all[k].what;
  }

  lemma BackGrows(front: seq<Delivery>, all: seq<Delivery>, j: JobId)
    requires front <= all && ComesBack(front, j)
    ensures ComesBack(all, j)
  {
    var a, b, d :| BackAt(front, j, a, b, d);
    assert BackAt(all, j, a, b, d);
  }

  lemma {:induction false} TwiceNeedsBack(heard: seq<Delivery>, j: JobId)
    requires Twice(Taken(heard, Some(j)))
    ensures ComesBack(heard, j)
  {
    var n := |heard| - 1;
    var front, all, d := Taken(heard[..n], Some(j)), Taken(heard, Some(j)), heard[n];
    if Twice(front) {
      TwiceNeedsBack(heard[..n], j);
      BackGrows(heard[..n], heard, j);
    } else {
      var i, k :| 0 <= i < k < |all| && all[i].what == all[k].what;
      assert forall x, y :: 0 <= x < y < |front| ==> front[x].what != front[y].what;
      assert k == |front| && front[i].what == d.what;
      TakenOnceHeard(heard[..n], j, d.what);
      var a :| 0 <= a < n && heard[..n][a].what == d.what;
      var m := LastTaken(heard[..n], j);
      assert BackAt(heard, j, a, m, n);
    }
  }

  lemma {:induction false} BackMeansTwice(heard: seq<Delivery>, j: JobId)
    requires ComesBack(heard, j)
    ensures Twice(Taken(heard, Some(j)))
  {
    var n := |heard| - 1;
    var a, b, d :| BackAt(heard, j, a, b, d);
    var front, all := Taken(heard[..n], Some(j)), Taken(heard, Some(j));
    var m := LastTaken(heard[..n], j);
    TakenOnceHeard(heard[..n], j, heard[a].what);
    assert heard[..n][a] == heard[a] && heard[..n][b] == heard[b];
    if d < n {
      assert BackAt(heard[..n], j, a, b, d);
      BackMeansTwice(heard[..n], j);
      TwiceGrows(front, all);
    } else if Last(front) == Some(heard[n].what) {
      assert BackAt(heard[..n], j, a, b, m);
      BackMeansTwice(heard[..n], j);
      TwiceGrows(front, all);
    } else {
      var i :| 0 <= i < |front| && front[i].what == heard[a].what;
      assert all[i].what == all[|front|].what;
    }
  }

  /**
   An observer of a job receives the same completion twice since it was added exactly if calls
   that reached it carried that completion, then another run's, then the first one's again.
   */
  lemma RepeatsExactly(steps: seq<Step>, o: ObserverId, j: JobId)
    requires o in Run(steps).active && Run(steps).active[o] == Some(j)
    ensures o in Run(steps).got
    ensures Twice(Run(steps).got[o]) <==> ComesBack(Heard(steps, o), j)
  {
    GotIs(steps, o);
    if Twice(Run(steps).got[o]) { TwiceNeedsBack(Heard(steps, o), j); }
    if ComesBack(Heard(steps, o), j) { BackMeansTwice(Heard(steps, o), j); }
  }

  // ------------------------------------------------------------ one run at a time

  ghost predicate PrunedAt(steps: seq<Step>, i: nat, j: JobId)
    requires i < |steps|
  {
    steps[i] == Prune(j) && Enabled(Run(steps[..i]), steps[i])
  }

  lemma RunUpTo(steps: seq<Step>, k: nat)
    requires k < |steps|
    ensures Run(steps[..k + 1]) == Next(Run(steps[..k]), steps[k])
  {
    assert steps[..k + 1][..k] == steps[..k];
  }

  lemma NextKeepsJob(s: State, step: Step, j: JobId)
    requires j in s.jobs || (step == Reserve(j) && Enabled(s, step))
    requires j !in Next(s, step).jobs
    ensures step == Prune(j) && Enabled(s, step)
  {
  }

  lemma PrunedHere(steps: seq<Step>, i: nat, p: nat, j: JobId)
    requires i <= p < |steps| && StartedAt(steps, i, j)
    requires (i == p || j in Run(steps[..p]).jobs) && j !in Run(steps[..p + 1]).jobs
    ensures i < p && PrunedAt(steps, p, j) == true
  {
    RunUpTo(steps, p);
    NextKeepsJob(Run(steps[..p]), steps[p], j);
  }

  /** A record that is gone was pruned. */
  lemma {:induction false} PruneFound(steps: seq<Step>, i: nat, k: nat, j: JobId) returns (p: nat)
    requires i < k <= |steps| && StartedAt(steps, i, j) == true && j !in Run(steps[..k]).jobs
    ensures i < p < k && PrunedAt(steps, p, j) == true
    decreases k
  {
    p := k - 1;
    var kept := j in Run(steps[..p]).jobs;
    if i < p && !kept {
      p := PruneFound(steps, i, p, j);
    } else {
      PrunedHere(steps, i, p, j);
    }
  }

  /** Between two runs of one id its record was pruned: a taken id starts nothing. */
  lemma ReuseNeedsPrune(steps: seq<Step>, i: nat, k: nat, j: JobId)
    requires i < k < |steps| && StartedAt(steps, i, j) && StartedAt(steps, k, j)
    ensures exists p :: i < p < k && PrunedAt(steps, p, j)
  {
    var p := PruneFound(steps, i, k, j);
  }

  // ------------------------------------------------------------ observers of every job

  /** Nothing is addressed to the observer alone. */
  ghost predicate NoReplays(s: State, o: ObserverId) {
    && (forall j :: (o, j) !in s.due)
    && (forall c :: (o, c) !in s.calls)
    && (o in s.got ==> forall i :: 0 <= i < |s.got[o]| ==> !s.got[o][i].replayed)
  }

  lemma {:induction false} NoReplayWithoutJob(steps: seq<Step>, o: ObserverId)
    requires forall i, j :: 0 <= i < |steps| ==> steps[i] != Accept(o, Some(j))
    ensures NoReplays(Run(steps), o)
  {
    if steps != [] {
      var init := steps[..|steps| - 1];
      NoReplayWithoutJob(init, o);
      var step := steps[|steps| - 1];
      assert forall j :: step != Accept(o, Some(j));
      NextNoReplays(Run(init), step, o);
    }
  }

  lemma LiveNoReplays(s: State, who: set<ObserverId>, c: Completion, o: ObserverId)
    requires NoReplays(s, o)
    ensures NoReplays(Deliver(s, who, c, false), o)
  {
  }

  lemma ReplayedElsewhere(s: State, x: ObserverId, c: Completion, o: ObserverId)
    requires NoReplays(s, o) && x != o
    ensures NoReplays(Deliver(s, {x}, c, true), o)
  {
  }

  lemma OtherNoReplays(s: State, step: Step, o: ObserverId)
    requires NoReplays(s, o) && !step.LiveCall? && !step.ReplayCall? &&
      (step.Accept? ==> step.watch.None? || step.observer != o)
    ensures NoReplays(Next(s, step), o)
  {
  }

  lemma NextNoReplays(s: State, step: Step, o: ObserverId)
    requires NoReplays(s, o) && forall j :: step != Accept(o, Some(j))
    ensures NoReplays(Next(s, step), o)
  {
    if step.LiveCall? {
      LiveNoReplays(s.(live := s.live - {step.what}), s.active.Keys, step.what, o);
    } else if step.ReplayCall? {
      if Enabled(s, step) {
        ReplayedElsewhere(s.(calls := s.calls - multiset{(step.observer, step.what)}), step.observer, step.what, o);
      }
    } else {
      assert step.Accept? && step.watch.Some? ==> step == Accept(step.observer, Some(step.watch.value));
      OtherNoReplays(s, step, o);
    }
  }

  /** A replay call for the observer ran at `i` and the observer has not been added since. */
  ghost predicate ReplayedAt(steps: seq<Step>, i: nat, o: ObserverId) {
    && i < |steps|
    && steps[i].ReplayCall? && steps[i].observer == o
    && Enabled(Run(steps[..i]), steps[i]) && o in Run(steps[..i]).active
    && forall k :: i < k < |steps| ==> !AddedAt(steps, k, o)
  }

  ghost predicate AddedAt(steps: seq<Step>, k: nat, o: ObserverId)
    requires k < |steps|
  {
    steps[k].Accept? && steps[k].observer == o && Enabled(Run(steps[..k]), steps[k])
  }

  ghost predicate HasReplay(got: seq<Delivery>) {
    exists i :: 0 <= i < |got| && got[i].replayed
  }

  lemma ReplayedStays(steps: seq<Step>, step: Step, i: nat, o: ObserverId)
    requires i < |steps|
    ensures ReplayedAt(steps + [step], i, o) <==>
      ReplayedAt(steps, i, o) && !(step.Accept? && step.observer == o && Enabled(Run(steps), step))
  {
    var all := steps + [step];
    assert all[..|steps|] == steps && all[..i] == steps[..i];
    assert AddedAt(all, |steps|, o) <==> step.Accept? && step.observer == o && Enabled(Run(steps), step);
    forall k | 0 <= k < |steps| ensures AddedAt(all, k, o) <==> AddedAt(steps, k, o) {
      assert all[..k] == steps[..k];
    }
  }

  lemma {:induction false} HeardReplay(steps: seq<Step>, o: ObserverId)
    ensures HasReplay(Heard(steps, o)) <==> exists i :: ReplayedAt(steps, i, o)
  {
    if steps != [] {
      var n := |steps| - 1;
      var init, step := steps[..n], steps[n];
      HeardReplay(init, o);
      assert steps == init + [step];
      forall i | 0 <= i < n
        ensures ReplayedAt(steps, i, o) <==>
          ReplayedAt(init, i, o) && !(step.Accept? && step.observer == o && Enabled(Run(init), step))
      {
        ReplayedStays(init, step, i, o);
      }
      HeardReplayLast(steps, o);
    }
  }

  lemma HeardReplayLast(steps: seq<Step>, o: ObserverId)
    requires steps != []
    requires var n := |steps| - 1; var init, step := steps[..n], steps[n];
      (HasReplay(Heard(init, o)) <==> exists i :: ReplayedAt(init, i, o)) &&
      forall i :: 0 <= i < n ==> (ReplayedAt(steps, i, o) <==>
        ReplayedAt(init, i, o) && !(step.Accept? && step.observer == o && Enabled(Run(init), step)))
    ensures HasReplay(Heard(steps, o)) <==> exists i :: ReplayedAt(steps, i, o)
  {
    var n := |steps| - 1;
    var before, after := Heard(steps[..n], o), Heard(steps, o);
    var here := ReplayedAt(steps, n, o);
    if here { assert after == before + [Delivery(steps[n].what, true)] && after[|before|].replayed; }
    if HasReplay(after) && !here {
      var i :| 0 <= i < |after| && after[i].replayed;
      assert before[i].replayed;
      var k :| ReplayedAt(steps[..n], k, o);
      assert ReplayedAt(steps, k, o);
    }
    if k: nat :| ReplayedAt(steps, k, o) && k < n {
      assert ReplayedAt(steps[..n], k, o);
      var i :| 0 <= i < |before| && before[i].replayed;
      assert after[i].replayed;
    }
  }

  /**
   A registration without a job receives a replay exactly if a replay call for its id runs
   while it stands.
   */
  lemma ReplayExactly(steps: seq<Step>, o: ObserverId)
    requires o in Run(steps).active && Run(steps).active[o].None?
    ensures o in Run(steps).got
    ensures HasReplay(Run(steps).got[o]) <==> exists i :: ReplayedAt(steps, i, o)
  {
    GotIs(steps, o);
    HeardReplay(steps, o);
  }

  // ------------------------------------------------------------ both conditions are needed

  lemma RunMore(steps: seq<Step>, step: Step)
    ensures Run(steps + [step]) == Next(Run(steps), step)
  {
    assert (steps + [step])[..|steps|] == steps;
  }

  /** One observer and one job: the state with this much known of each part. */
  function Small(
    o: ObserverId, j: JobId, job: Option<Job>, runs: nat, claim: Option<Completion>, got: seq<Delivery>,
    live: set<Completion>, due: multiset<(ObserverId, JobId)>, calls: multiset<(ObserverId, Completion)>): State
  {
    State(if job.Some? then map[j := job.value] else map[], runs, map[o := Some(j)],
          if claim.Some? then map[o := claim.value] else map[], map[o := got], live, due, calls)
  }

  /** A completion the observer has not just claimed is taken. */
  lemma TakesIt(
    o: ObserverId, j: JobId, job: Option<Job>, runs: nat, claim: Option<Completion>, got: seq<Delivery>,
    live: set<Completion>, due: multiset<(ObserverId, JobId)>, calls: multiset<(ObserverId, Completion)>,
    c: Completion, replayed: bool)
    requires c.job == j && claim != Some(c)
    ensures Deliver(Small(o, j, job, runs, claim, got, live, due, calls), {o}, c, replayed)
      == Small(o, j, job, runs, Some(c), got + [Delivery(c, replayed)], live, due, calls)
  {
    var s := Small(o, j, job, runs, claim, got, live, due, calls);
    assert Takes(s, o, c);
    var r := Deliver(s, {o}, c, replayed);
    assert r.claimed == map[o := c];
    assert r.got == map[o := got + [Delivery(c, replayed)]];
  }

  /** The job starts, the observer is added, the job ends, and the replay has been called. */
  lemma ReplayCalled(o: ObserverId, j: JobId) returns (steps: seq<Step>)
    ensures Run(steps) ==
      Small(o, j, Some(Job(0, true)), 1, None, [], {Completion(j, 0)}, multiset{}, multiset{(o, Completion(j, 0))})
  {
    steps := [];
    RunMore(steps, Reserve(j)); steps := steps + [Reserve(j)];
    assert Run(steps) == START.(jobs := map[j := Job(0, false)], runs := 1);
    RunMore(steps, Accept(o, Some(j))); steps := steps + [Accept(o, Some(j))];
    assert Run(steps) == Small(o, j, Some(Job(0, false)), 1, None, [], {}, multiset{(o, j)}, multiset{});
    RunMore(steps, Finalize(j)); steps := steps + [Finalize(j)];
    assert Run(steps) == Small(o, j, Some(Job(0, true)), 1, None, [], {Completion(j, 0)}, multiset{(o, j)}, multiset{});
    RunMore(steps, Replay(o, j)); steps := steps + [Replay(o, j)];
  }

  /** Then the live call comes first; the replay call is still in flight. */
  lemma ReplayInFlight(o: ObserverId, j: JobId) returns (steps: seq<Step>)
    ensures Run(steps) ==
      Small(o, j, Some(Job(0, true)), 1, Some(Completion(j, 0)), [Delivery(Completion(j, 0), false)], {}, multiset{},
            multiset{(o, Completion(j, 0))})
  {
    var c := Completion(j, 0);
    steps := ReplayCalled(o, j);
    RunMore(steps, LiveCall(c));
    steps := steps + [LiveCall(c)];
    assert {c} - {c} == {} && map[o := Some(j)].Keys == {o};
    TakesIt(o, j, Some(Job(0, true)), 1, None, [], {}, multiset{}, multiset{(o, c)}, c, false);
    assert [] + [Delivery(c, false)] == [Delivery(c, false)];
  }

  /** The record is pruned and its id reused for a run that ends. */
  lemma IdReused(o: ObserverId, j: JobId) returns (steps: seq<Step>)
    ensures Run(steps) ==
      Small(o, j, Some(Job(1, true)), 2, Some(Completion(j, 0)), [Delivery(Completion(j, 0), false)],
            {Completion(j, 1)}, multiset{}, multiset{(o, Completion(j, 0))})
  {
    var c, d := Completion(j, 0), Completion(j, 1);
    var got := [Delivery(c, false)];
    steps := ReplayInFlight(o, j);
    var s := Run(steps);
    var p := Next(s, Prune(j));
    assert p == Small(o, j, None, 1, Some(c), got, {}, multiset{}, multiset{(o, c)});
    var q := Next(p, Reserve(j));
    assert q == Small(o, j, Some(Job(1, false)), 2, Some(c), got, {}, multiset{}, multiset{(o, c)});
    RunMore(steps, Prune(j));
    RunMore(steps + [Prune(j)], Reserve(j));
    RunMore(steps + [Prune(j)] + [Reserve(j)], Finalize(j));
    steps := steps + [Prune(j)] + [Reserve(j)] + [Finalize(j)];
    assert {} + {d} == {d};
    assert map[j := Job(1, false)][j := Job(1, true)] == map[j := Job(1, true)];
  }

  /** The second run's completion is delivered too. */
  lemma SecondRun(o: ObserverId, j: JobId) returns (steps: seq<Step>)
    ensures Run(steps) ==
      Small(o, j, Some(Job(1, true)), 2, Some(Completion(j, 1)),
            [Delivery(Completion(j, 0), false), Delivery(Completion(j, 1), false)], {}, multiset{},
            multiset{(o, Completion(j, 0))})
  {
    var c, d := Completion(j, 0), Completion(j, 1);
    var got := [Delivery(c, false)];
    steps := IdReused(o, j);
    RunMore(steps, LiveCall(d));
    steps := steps + [LiveCall(d)];
    assert {d} - {d} == {} && map[o := Some(j)].Keys == {o};
    TakesIt(o, j, Some(Job(1, true)), 2, Some(c), got, {}, multiset{}, multiset{(o, c)}, d, false);
    assert got + [Delivery(d, false)] == [Delivery(c, false), Delivery(d, false)];
  }

  /** With a reused id the late replay call delivers the first run's completion again. */
  lemma ReuseDeliversTwice(o: ObserverId, j: JobId) returns (steps: seq<Step>)
    ensures Run(steps).active == map[o := Some(j)] && o in Run(steps).got
    ensures Run(steps).got[o] ==
      [Delivery(Completion(j, 0), false), Delivery(Completion(j, 1), false), Delivery(Completion(j, 0), true)]
  {
    var c, d := Completion(j, 0), Completion(j, 1);
    steps := SecondRun(o, j);
    RunMore(steps, ReplayCall(o, c));
    steps := steps + [ReplayCall(o, c)];
    TakesIt(o, j, Some(Job(1, true)), 2, Some(d), [Delivery(c, false), Delivery(d, false)], {}, multiset{},
      multiset{}, c, true);
  }

  /** An id added again without a job, while a replay call for it is in flight, receives the replay. */
  lemma ReplayReachesEveryJobObserver(o: ObserverId, j: JobId) returns (steps: seq<Step>)
    ensures Run(steps).active == map[o := None] && o in Run(steps).got
    ensures Run(steps).got[o] == [Delivery(Completion(j, 0), true)]
  {
    var c := Completion(j, 0);
    steps := ReplayInFlight(o, j);
    RunMore(steps, Remove(o)); steps := steps + [Remove(o)];
    RunMore(steps, Accept(o, None)); steps := steps + [Accept(o, None)];
    var s := Run(steps);
    assert s.active == map[o := None] && s.got == map[o := []] && s.calls == multiset{(o, c)};
    RunMore(steps, ReplayCall(o, c)); steps := steps + [ReplayCall(o, c)];
    assert Takes(s.(calls := multiset{}), o, c);
  }

  // ------------------------------------------------------------ the match hook, observer by observer

  /** What a call has done once the observers in `done` have been asked. */
  ghost predicate Asked(s: State, r: State, done: set<ObserverId>, c: Completion, replayed: bool) {
    && r == s.(got := r.got, claimed := r.claimed)
    && r.got.Keys == s.got.Keys
    && (forall o :: o in s.got ==>
          r.got[o] == if o in done && Takes(s, o, c) then s.got[o] + [Delivery(c, replayed)] else s.got[o])
    && (forall o :: ClaimOf(r, o) == if ClaimsNow(s, done, o, c) then Some(c) else ClaimOf(s, o))
  }

  lemma AskedAll(s: State, r: State, who: set<ObserverId>, c: Completion, replayed: bool)
    requires Asked(s, r, who, c, replayed)
    ensures r == Deliver(s, who, c, replayed)
  {
    var d := Deliver(s, who, c, replayed);
    assert r.got == d.got;
    forall o ensures o in r.claimed <==> o in d.claimed { assert ClaimOf(r, o) == ClaimOf(d, o); }
    forall o | o in r.claimed ensures r.claimed[o] == d.claimed[o] { assert ClaimOf(r, o) == ClaimOf(d, o); }
    assert r.claimed == d.claimed;
  }

  lemma AskedOne(s: State, r: State, done: set<ObserverId>, c: Completion, replayed: bool, o: ObserverId)
    requires Asked(s, r, done, c, replayed) && o !in done
    ensures Takes(r, o, c) == Takes(s, o, c)
    ensures !Takes(s, o, c) ==> Asked(s, r, done + {o}, c, replayed)
    ensures Takes(s, o, c) ==>
      Asked(s, r.(got := r.got[o := r.got[o] + [Delivery(c, replayed)]],
                  claimed := if s.active[o].Some? then r.claimed[o := c] else r.claimed), done + {o}, c, replayed)
  {
    assert ClaimOf(r, o) == ClaimOf(s, o);
    if Takes(s, o, c) {
      var next := r.(got := r.got[o := r.got[o] + [Delivery(c, replayed)]],
                     claimed := if s.active[o].Some? then r.claimed[o := c] else r.claimed);
      forall x ensures ClaimOf(next, x) == if ClaimsNow(s, done + {o}, x, c) then Some(c) else ClaimOf(s, x) {
        assert ClaimOf(r, x) == if ClaimsNow(s, done, x, c) then Some(c) else ClaimOf(s, x);
        assert x != o ==> ClaimOf(next, x) == ClaimOf(r, x);
        assert x != o ==> (ClaimsNow(s, done + {o}, x, c) <==> ClaimsNow(s, done, x, c));
      }
      assert next.got.Keys == s.got.Keys;
    }
  }

  /** One call of the function: each observer it is for is asked once, and claims what it takes. */
  method CallObservers(s: State, who: set<ObserverId>, c: Completion, replayed: bool) returns (r: State)
    ensures r == Deliver(s, who, c, replayed)
  {
    r := s;
    var todo := who;
    while todo != {}
      invariant todo <= who && Asked(s, r, who - todo, c, replayed)
    {
      var o :| o in todo;
      AskedOne(s, r, who - todo, c, replayed, o);
      if Takes(r, o, c) {
        r := r.(got := r.got[o := r.got[o] + [Delivery(c, replayed)]],
                claimed := if s.active[o].Some? then r.claimed[o := c] else r.claimed);
      }
      assert who - (todo - {o}) == (who - todo) + {o};
      todo := todo - {o};
    }
    assert who - todo == who;
    AskedAll(s, r, who, c, replayed);
  }

  // ------------------------------------------------------------ what each step puts in flight

  /** A job's record: made under a free id with a new run, finished once, and pruned only when finished. */
  lemma RecordMoves(s: State, step: Step, j: JobId)
    ensures var was, now := s.jobs, Next(s, step).jobs;
      && (j !in was && j in now <==> j !in was && step == Reserve(j))
      && (j !in was && j in now ==> now[j] == Job(s.runs, false) && Next(s, step).runs == s.runs + 1)
      && (j in was && j !in now <==> j in was && step == Prune(j) && was[j].finalized)
      && (j in was && j in now ==>
            now[j].run == was[j].run && (now[j].finalized <==> was[j].finalized || step == Finalize(j)))
  {
  }

  /** A live call is put in flight exactly by the finish of a run, and leaves by being made or lost. */
  lemma LiveExactly(s: State, step: Step, c: Completion)
    ensures var was, now := s.live, Next(s, step).live;
      && (c !in was ==>
            (c in now <==> step == Finalize(c.job) && c.job in s.jobs && s.jobs[c.job] == Job(c.run, false)))
      && (c in was ==> (c !in now <==> step == LiveCall(c) || step == DropLive(c)))
  {
  }

  /** A replay is due exactly by the addition of an observer of one job, and leaves by being looked up or lost. */
  lemma DueExactly(s: State, step: Step, o: ObserverId, j: JobId)
    ensures Next(s, step).due[(o, j)] == s.due[(o, j)]
      + (if step == Accept(o, Some(j)) && o !in s.active then 1 else 0)
      - (if s.due[(o, j)] > 0 && (step == Replay(o, j) || step == DropReplay(o, j)) then 1 else 0)
  {
    if step.Accept? {
      assert Enabled(s, step) <==> step.observer !in s.active;
    } else if step.Replay? || step.DropReplay? {
      assert Enabled(s, step) <==> (step.observer, step.job) in s.due;
    } else {
      assert Next(s, step).due == s.due;
    }
  }

  /** A replay is called exactly if the look-up finds the job finished and the observer without this run of it. */
  lemma CallsExactly(s: State, step: Step, o: ObserverId, c: Completion)
    ensures Next(s, step).calls[(o, c)] == s.calls[(o, c)]
      + (if step == Replay(o, c.job) && (o, c.job) in s.due && c.job in s.jobs && s.jobs[c.job] == Job(c.run, true)
            && ClaimOf(s, o) != Some(c)
         then 1 else 0)
      - (if s.calls[(o, c)] > 0 && (step == ReplayCall(o, c) || step == DropCall(o, c)) then 1 else 0)
  {
    if !step.Replay? && !step.ReplayCall? && !step.DropCall? { assert Next(s, step).calls == s.calls; }
  }

  /** Observers come with an addition under a free id, with nothing received, and go with a removal. */
  lemma ActiveExactly(s: State, step: Step, o: ObserverId)
    ensures var was, now := s.active, Next(s, step).active;
      && (o !in was && o in now <==> o !in was && step.Accept? && step.observer == o)
      && (o !in was && o in now ==> now[o] == step.watch && Next(s, step).got[o] == [])
      && (o in was && o !in now <==> o in was && step == Remove(o))
      && (o in was && o in now ==> now[o] == was[o])
  {
  }

  /** No run has the number of one that is to come, and a live call in flight is of a finished run. */
  ghost predicate RunsPast(s: State, c: Completion) {
    && (c.job in s.jobs ==> s.jobs[c.job].run < s.runs)
    && (c in s.live ==> c.run < s.runs && (c.job in s.jobs && s.jobs[c.job].run == c.run ==> s.jobs[c.job].finalized))
  }

  lemma RunsGrow(s: State, step: Step)
    ensures s.runs <= Next(s, step).runs
  {
  }

  lemma {:induction false} RunRunsPast(steps: seq<Step>, c: Completion)
    ensures RunsPast(Run(steps), c)
  {
    if steps != [] {
      var s, step := Run(steps[..|steps| - 1]), steps[|steps| - 1];
      RunRunsPast(steps[..|steps| - 1], c);
      RecordMoves(s, step, c.job);
      LiveExactly(s, step, c);
      RunsGrow(s, step);
    }
  }

  /** The run is over: its live call has been made or lost, and its record is final or gone. */
  ghost predicate Spent(s: State, c: Completion) {
    c.run < s.runs && c !in s.live && (c.job in s.jobs && s.jobs[c.job].run == c.run ==> s.jobs[c.job].finalized)
  }

  lemma SpentStep(s: State, step: Step, c: Completion)
    requires Spent(s, c)
    ensures Spent(Next(s, step), c)
  {
    RecordMoves(s, step, c.job);
    LiveExactly(s, step, c);
    RunsGrow(s, step);
  }

  lemma LastApart(steps: seq<Step>, more: seq<Step>)
    requires more != []
    ensures steps + more == (steps + more[..|more| - 1]) + [more[|more| - 1]]
  {
  }

  lemma Halves(steps: seq<Step>, i: nat, k: nat)
    requires i <= k <= |steps|
    ensures steps[..k] == steps[..i] + steps[i..k]
  {
  }

  lemma SpentMore(all: seq<Step>, before: seq<Step>, step: Step, c: Completion)
    requires all == before + [step] && Spent(Run(before), c)
    ensures Spent(Run(all), c)
  {
    assert all[..|all| - 1] == before;
    SpentStep(Run(before), step, c);
  }

  lemma {:induction false} SpentStays(steps: seq<Step>, more: seq<Step>, c: Completion)
    requires Spent(Run(steps), c)
    ensures Spent(Run(steps + more), c)
  {
    if more == [] {
      assert steps + more == steps;
    } else {
      var init, last := more[..|more| - 1], more[|more| - 1];
      SpentStays(steps, init, c);
      LastApart(steps, more);
      SpentMore(steps + more, steps + init, last, c);
    }
  }

  lemma SpentByCall(steps: seq<Step>, i: nat, c: Completion)
    requires i < |steps| && steps[i] == LiveCall(c) && c in Run(steps[..i]).live
    ensures Spent(Run(steps[..i + 1]), c)
  {
    var s := Run(steps[..i]);
    RunRunsPast(steps[..i], c);
    RunUpTo(steps, i);
    RecordMoves(s, steps[i], c.job);
    LiveExactly(s, steps[i], c);
    RunsGrow(s, steps[i]);
  }

  /** A completion goes out in one live call at most, however often ids are reused. */
  lemma LiveOnce(steps: seq<Step>, i: nat, k: nat, c: Completion)
    requires i < k < |steps| && steps[i] == LiveCall(c) && c in Run(steps[..i]).live
    ensures c !in Run(steps[..k]).live
  {
    SpentByCall(steps, i, c);
    Halves(steps, i + 1, k);
    SpentStays(steps[..i + 1], steps[i + 1..k], c);
  }
}
