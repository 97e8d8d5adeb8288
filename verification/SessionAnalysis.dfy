/**
 One analysis of a session: collected, judged once, perhaps investigated. The record and its
 assets are durable; the calls under way and the marks that say so belong to the process and
 are gone after a restart. Steps are delivered any number of times, in any order, and
 cancellation, the deadline and restarts come in between.
 */
module SessionAnalysis {
  import opened Options

  datatype Status = Collecting | Judging | Investigating | Completed | Failed | Cancelled
  {
    predicate Terminal() { Completed? || Failed? || Cancelled? }
  }

  datatype Verdict = NeedsInvestigation | Other
  datatype Outcome = Answered(verdict: Verdict) | Errored

  type Key = string

  /** The durable record. `analystTurn` is the investigation's turn, once its send was answered. */
  datatype Record = Record(
    id: Key, status: Status, step: nat, judgeCalled: bool, analystSent: bool, analystTurn: Option<nat>, unknown: bool)

  /** The durable assets: the evidence and the model answers. */
  datatype Assets = Assets(snapshot: bool, outcome: Option<Outcome>, investigation: Option<nat>)

  /** A judge call of this process: waiting, or with its outcome already saved. */
  datatype JudgeTask = NoTask | Calling(step: nat) | Saved(step: nat, outcome: Outcome)

  /**
   The outside: how often Jev was called, the idempotency keys of the sends made, the turn the
   Harness keeps for each key it has seen, and the turns it started.
   */
  datatype World = World(judgeCalls: nat, sent: seq<Key>, turnOf: map<Key, nat>, turns: seq<nat>)

  datatype State = State(record: Record, assets: Assets, judge: JudgeTask, sending: Option<nat>, world: World)

  function Start(id: Key): State {
    State(Record(id, Collecting, 0, false, false, None, false), Assets(false, None, None), NoTask, None,
          World(0, [], map[], []))
  }

  datatype Step =
    | SaveSnapshot(step: nat)
    | AdvanceToJudge(step: nat)
    | Judge(step: nat)
    | JudgeAnswers(outcome: Outcome)
    | JudgeRoutes
    | Investigate(step: nat, capped: bool)
    | SendArrives(which: nat, turn: nat)
    | SendAnswered(lost: bool)
    | SaveInvestigation(step: nat)
    | Finish(step: nat)
    | Cancel
    | Expire
    | Restart

  function End(r: Record, status: Status): Record {
    r.(status := status, step := r.step + 1)
  }

  /** Where a saved outcome sends the analysis. */
  function Routed(r: Record, outcome: Outcome): Record {
    match outcome
    case Answered(NeedsInvestigation) => r.(status := Investigating, step := r.step + 1)
    case Answered(Other) => End(r, Completed)
    case Errored => End(r, Failed)
  }

  /** The judging step, when it is delivered. */
  function JudgeStep(s: State): State {
    var r := s.record;
    if r.judgeCalled then
      if s.assets.outcome.Some? then s.(record := Routed(r, s.assets.outcome.value))
      else if s.judge.Calling? then s
      else s.(record := End(r, Failed).(unknown := true))
    else if !s.assets.snapshot then s.(record := End(r, Failed))
    else s.(record := r.(judgeCalled := true), judge := Calling(r.step),
            world := s.world.(judgeCalls := s.world.judgeCalls + 1))
  }

  /** The investigating step, until the send's answer is in. */
  function InvestigateStep(s: State, capped: bool): State {
    var r := s.record;
    if s.assets.investigation.Some? then s.(record := End(r, Completed))
    else if r.analystTurn.Some? || s.sending.Some? then s
    else if !r.analystSent && capped then s.(record := End(r, Failed))
    else if !s.assets.snapshot then s.(record := End(r.(analystSent := true), Failed))
    else s.(record := r.(analystSent := true), sending := Some(r.step),
            world := s.world.(sent := s.world.sent + [r.id]))
  }

  /** The Harness takes in a send: a key it has seen starts nothing. */
  function Arrive(w: World, key: Key, turn: nat): World {
    if key in w.turnOf then w else w.(turnOf := w.turnOf[key := turn], turns := w.turns + [turn])
  }

  function Next(s: State, step: Step): State {
    var r := s.record;
    match step
    case SaveSnapshot(n) =>
      if r.status == Collecting && r.step == n then s.(assets := s.assets.(snapshot := true)) else s
    case AdvanceToJudge(n) =>
      if r.status == Collecting && r.step == n && s.assets.snapshot
      then s.(record := r.(status := Judging, step := r.step + 1)) else s
    case Judge(n) => if r.status == Judging && r.step == n then JudgeStep(s) else s
    case JudgeAnswers(outcome) =>
      if s.judge.Calling?
      then s.(assets := s.assets.(outcome := Some(outcome)), judge := Saved(s.judge.step, outcome)) else s
    case JudgeRoutes =>
      if !s.judge.Saved? then s
      else if r.status.Terminal() || r.step != s.judge.step then s.(judge := NoTask)
      else s.(record := Routed(r, s.judge.outcome), judge := NoTask)
    case Investigate(n, capped) =>
      if r.status == Investigating && r.step == n then InvestigateStep(s, capped) else s
    case SendArrives(which, turn) =>
      if which < |s.world.sent| then s.(world := Arrive(s.world, s.world.sent[which], turn)) else s
    case SendAnswered(lost) =>
      if s.sending.None? then s
      else if lost || r.id !in s.world.turnOf || r.status.Terminal() || Some(r.step) != s.sending
      then s.(sending := None)
      else s.(record := r.(analystTurn := Some(s.world.turnOf[r.id])), sending := None)
    case SaveInvestigation(n) =>
      if r.status == Investigating && r.step == n && r.analystTurn.Some? && s.assets.investigation.None?
      then s.(assets := s.assets.(investigation := r.analystTurn)) else s
    case Finish(n) =>
      if r.status == Investigating && r.step == n && s.assets.investigation.Some?
      then s.(record := End(r, Completed)) else s
    case Cancel => if r.status.Terminal() then s else s.(record := End(r, Cancelled))
    case Expire => if r.status.Terminal() then s else s.(record := End(r, Failed))
    case Restart => s.(judge := NoTask, sending := None)
  }

  function Run(id: Key, steps: seq<Step>): State {
    if steps == [] then Start(id) else Next(Run(id, steps[..|steps| - 1]), steps[|steps| - 1])
  }

  // ------------------------------------------------------------ what every run keeps

  /** Every send carries the analysis's own key, and the Harness has a turn per key it has seen. */
  ghost predicate OneKey(s: State) {
    && (forall i :: 0 <= i < |s.world.sent| ==> s.world.sent[i] == s.record.id)
    && (forall k :: k in s.world.turnOf ==> k in s.world.sent)
    && |s.world.turns| == |s.world.turnOf|
  }

  ghost predicate IsTurn(s: State, turn: nat) {
    s.record.id in s.world.turnOf && s.world.turnOf[s.record.id] == turn
  }

  /** All sends carrying one key, no more than one turn was started. */
  lemma OneTurn(s: State)
    requires OneKey(s)
    ensures |s.world.turns| <= 1
  {
    assert s.world.turnOf.Keys <= {s.record.id};
    SubsetCard(s.world.turnOf.Keys, {s.record.id});
  }

  lemma {:induction false} SubsetCard(a: set<Key>, b: set<Key>)
    requires a <= b
    ensures |a| <= |b|
  {
    if a != {} {
      var x :| x in a;
      SubsetCard(a - {x}, b - {x});
    }
  }

  ghost predicate Inv(s: State) {
    && s.world.judgeCalls == (if s.record.judgeCalled then 1 else 0)
    && OneKey(s)
    && (s.judge != NoTask || s.assets.outcome.Some? ==> s.record.judgeCalled)
    && (s.judge.Calling? ==> s.assets.outcome.None?)
    && (s.judge.Saved? ==> s.assets.outcome == Some(s.judge.outcome))
    && (s.record.status.Collecting? ==> !s.record.judgeCalled)
    && (s.record.status.Investigating? || s.record.analystSent || s.world.sent != [] ||
        s.assets.investigation.Some? ==>
          s.assets.outcome == Some(Answered(NeedsInvestigation)))
    && (s.record.status.Completed? ==> s.assets.outcome.Some? && s.assets.outcome.value.Answered?)
    && (s.record.analystTurn.Some? ==> IsTurn(s, s.record.analystTurn.value))
    && (s.assets.investigation.Some? ==> IsTurn(s, s.assets.investigation.value))
    && (s.judge != NoTask ==> s.record.status.Judging? || s.judge.step < s.record.step)
    && (s.judge != NoTask && s.record.status.Judging? ==> s.judge.step <= s.record.step)
  }

  lemma JudgeKeeps(s: State)
    requires Inv(s) && s.record.status == Judging
    ensures Inv(JudgeStep(s))
  {
  }

  lemma InvestigateKeeps(s: State, capped: bool)
    requires Inv(s) && s.record.status == Investigating
    ensures Inv(InvestigateStep(s, capped))
  {
  }

  lemma AnswerKeeps(s: State, step: Step)
    requires Inv(s) && (step.JudgeAnswers? || step.JudgeRoutes?)
    ensures Inv(Next(s, step))
  {
  }

  lemma ArriveKeeps(s: State, which: nat, turn: nat)
    requires Inv(s)
    ensures Inv(Next(s, SendArrives(which, turn)))
  {
    if which < |s.world.sent| {
      var t := Next(s, SendArrives(which, turn));
      assert s.world.sent[which] in s.world.sent;
      assert t.world.turnOf.Keys == s.world.turnOf.Keys + {s.world.sent[which]};
      assert OneKey(t);
    }
  }

  lemma AnsweredKeeps(s: State, lost: bool)
    requires Inv(s)
    ensures Inv(Next(s, SendAnswered(lost)))
  {
    assert OneKey(Next(s, SendAnswered(lost)));
  }

  lemma SavedKeeps(s: State, step: Step)
    requires Inv(s) && (step.SaveInvestigation? || step.Finish?)
    ensures Inv(Next(s, step))
  {
    assert OneKey(Next(s, step));
  }

  lemma OtherKeeps(s: State, step: Step)
    requires Inv(s) && (step.SaveSnapshot? || step.AdvanceToJudge? || step.Cancel? || step.Expire? || step.Restart?)
    ensures Inv(Next(s, step))
  {
  }

  lemma NextKeeps(s: State, step: Step)
    requires Inv(s)
    ensures Inv(Next(s, step))
  {
    if step.Judge? {
      if s.record.status == Judging { JudgeKeeps(s); }
    } else if step.Investigate? {
      if s.record.status == Investigating { InvestigateKeeps(s, step.capped); }
    } else if step.JudgeAnswers? || step.JudgeRoutes? {
      AnswerKeeps(s, step);
    } else if step.SendArrives? {
      ArriveKeeps(s, step.which, step.turn);
    } else if step.SendAnswered? {
      AnsweredKeeps(s, step.lost);
    } else if step.SaveInvestigation? || step.Finish? {
      SavedKeeps(s, step);
    } else {
      OtherKeeps(s, step);
    }
  }

  lemma {:induction false} RunKeeps(id: Key, steps: seq<Step>)
    ensures Inv(Run(id, steps))
  {
    if steps != [] {
      RunKeeps(id, steps[..|steps| - 1]);
      NextKeeps(Run(id, steps[..|steps| - 1]), steps[|steps| - 1]);
    }
  }

  /**
   Over all deliveries, sweeps and restarts: Jev is called at most once; however often the
   investigation is sent, at most one turn is ever started; and one is sent for only if the
   saved triage answer is `needs_investigation`.
   */
  lemma OnceEach(id: Key, steps: seq<Step>)
    ensures var s := Run(id, steps);
      && s.world.judgeCalls <= 1
      && |s.world.turns| <= 1
      && (s.world.sent != [] || s.record.status.Investigating? ==>
            s.assets.outcome == Some(Answered(NeedsInvestigation)))
      && (s.record.status.Completed? ==> s.assets.outcome.Some? && s.assets.outcome.value.Answered?)
  {
    RunKeeps(id, steps);
    OneTurn(Run(id, steps));
  }

  lemma RunMore(id: Key, steps: seq<Step>, step: Step)
    ensures Run(id, steps + [step]) == Next(Run(id, steps), step)
  {
    assert (steps + [step])[..|steps|] == steps;
  }

  /** What is recorded in `s` is recorded so in `t`. */
  ghost predicate Recorded(s: State, t: State) {
    && (s.assets.outcome.Some? ==> t.assets.outcome == s.assets.outcome)
    && (s.assets.investigation.Some? ==> t.assets.investigation == s.assets.investigation)
    && (forall k :: k in s.world.turnOf ==> k in t.world.turnOf && t.world.turnOf[k] == s.world.turnOf[k])
  }

  lemma NextRecords(s: State, step: Step)
    requires Inv(s)
    ensures Recorded(s, Next(s, step))
  {
  }

  /** A recorded model answer stays as recorded, and so does the turn of a key. */
  lemma {:induction false} AnswersStay(id: Key, steps: seq<Step>, more: seq<Step>)
    ensures Recorded(Run(id, steps), Run(id, steps + more))
  {
    if more == [] {
      assert steps + more == steps;
    } else {
      var init := more[..|more| - 1];
      AnswersStay(id, steps, init);
      assert (steps + more)[..|steps + more| - 1] == steps + init;
      RunKeeps(id, steps + init);
      NextRecords(Run(id, steps + init), more[|more| - 1]);
    }
  }

  /** A record in a terminal status never changes again. */
  lemma {:induction false} TerminalStays(id: Key, steps: seq<Step>, more: seq<Step>)
    requires Run(id, steps).record.status.Terminal()
    ensures Run(id, steps + more).record == Run(id, steps).record
  {
    if more == [] {
      assert steps + more == steps;
    } else {
      var init := more[..|more| - 1];
      TerminalStays(id, steps, init);
      assert (steps + more)[..|steps + more| - 1] == steps + init;
    }
  }

  // ------------------------------------------------------------ an answer lost to a restart

  /** Jev was called and its answer can no longer arrive. */
  predicate AnswerLost(s: State) {
    s.record.judgeCalled && s.assets.outcome.None? && s.judge.NoTask?
  }

  lemma NextLost(s: State, step: Step)
    requires Inv(s) && AnswerLost(s)
    ensures AnswerLost(Next(s, step)) && Next(s, step).world == s.world
  {
  }

  /** Such an analysis never completes, never investigates and never calls Jev again. */
  lemma {:induction false} LostForGood(id: Key, steps: seq<Step>, more: seq<Step>)
    requires AnswerLost(Run(id, steps))
    ensures var t := Run(id, steps + more);
      && AnswerLost(t) && t.world == Run(id, steps).world
      && !t.record.status.Completed? && !t.record.status.Investigating?
  {
    if more == [] {
      assert steps + more == steps;
      RunKeeps(id, steps);
    } else {
      var init := more[..|more| - 1];
      LostForGood(id, steps, init);
      assert (steps + more)[..|steps + more| - 1] == steps + init;
      RunKeeps(id, steps + init);
      NextLost(Run(id, steps + init), more[|more| - 1]);
      RunKeeps(id, steps + more);
    }
  }

  /**
   Once the judging step is delivered to an analysis whose answer is lost, however much later,
   it has failed with its cost unknown, and stays so whatever is delivered after.
   */
  lemma LostFailsAsUnknown(id: Key, steps: seq<Step>, more: seq<Step>, rest: seq<Step>)
    requires AnswerLost(Run(id, steps)) && Run(id, steps + more).record.status.Judging?
    ensures var judge := Judge(Run(id, steps + more).record.step);
      var t := Run(id, steps + more + [judge] + rest);
      t.record.status == Failed && t.record.unknown && t.world == Run(id, steps).world
  {
    var judge := Judge(Run(id, steps + more).record.step);
    LostForGood(id, steps, more);
    RunMore(id, steps + more, judge);
    TerminalStays(id, steps + more + [judge], rest);
    LostForGood(id, steps + more + [judge], rest);
  }

  // ------------------------------------------------------------ what each delivery does

  /** The saved triage answer is put to use: by the judging step or by the call that saved it. */
  predicate RoutesNow(s: State, step: Step) {
    && s.record.status == Judging && s.assets.outcome.Some?
    && (step == Judge(s.record.step) || (step == JudgeRoutes && s.judge.Saved? && s.judge.step == s.record.step))
  }

  /** The judging step finds that it cannot be carried out: no evidence, or a call without an answer to come. */
  predicate JudgingFails(s: State, step: Step) {
    && s.record.status == Judging && step == Judge(s.record.step)
    && if s.record.judgeCalled then s.assets.outcome.None? && !s.judge.Calling? else !s.assets.snapshot
  }

  /** The investigating step has nothing to wait for and may not, or cannot, send. */
  predicate InvestigatingFails(s: State, step: Step) {
    && s.record.status == Investigating && step.Investigate? && step.step == s.record.step
    && s.assets.investigation.None? && s.record.analystTurn.None? && s.sending.None?
    && ((step.capped && !s.record.analystSent) || !s.assets.snapshot)
  }

  /** The investigation is in and its step is delivered. */
  predicate InvestigationEnds(s: State, step: Step) {
    && s.record.status == Investigating && s.assets.investigation.Some?
    && (step.Investigate? || step.Finish?) && step.step == s.record.step
  }

  /** Every move to another stage, exactly; each change of status counts one step. */
  lemma StatusMoves(s: State, step: Step)
    requires Inv(s) && !s.record.status.Terminal()
    ensures var was, now := s.record, Next(s, step).record;
      && (now.status == Judging && was.status != Judging <==>
            was.status == Collecting && step == AdvanceToJudge(was.step) && s.assets.snapshot)
      && (now.status == Investigating && was.status != Investigating <==>
            RoutesNow(s, step) && s.assets.outcome == Some(Answered(NeedsInvestigation)))
      && now.step == was.step + (if now.status == was.status then 0 else 1)
  {
  }

  /** Every end, exactly. */
  lemma StatusEnds(s: State, step: Step)
    requires Inv(s) && !s.record.status.Terminal()
    ensures var now := Next(s, step).record.status;
      && (now == Completed <==>
            (RoutesNow(s, step) && s.assets.outcome == Some(Answered(Other))) || InvestigationEnds(s, step))
      && (now == Failed <==>
            || step == Expire || JudgingFails(s, step) || InvestigatingFails(s, step)
            || (RoutesNow(s, step) && s.assets.outcome == Some(Errored)))
      && (now == Cancelled <==> step == Cancel)
  {
  }

  /** What a failure is reported as: unknown exactly if the answer to a call was lost. */
  lemma UnknownExactly(s: State, step: Step)
    requires Inv(s) && !s.record.unknown
    ensures Next(s, step).record.unknown <==> JudgingFails(s, step) && s.record.judgeCalled
  {
  }

  /** Jev is called exactly by the judging step that has evidence and finds no call made. */
  lemma JudgeCalledExactly(s: State, step: Step)
    requires Inv(s)
    ensures var called := s.record.status == Judging && step == Judge(s.record.step) && s.assets.snapshot &&
        !s.record.judgeCalled;
      && Next(s, step).world.judgeCalls == s.world.judgeCalls + (if called then 1 else 0)
      && (called ==> Next(s, step).judge == Calling(s.record.step) && Next(s, step).record.judgeCalled)
  {
  }

  /** An investigation is sent for exactly by its step, when nothing is in, on its way or forbidden. */
  lemma SentExactly(s: State, step: Step)
    ensures var sends := s.record.status == Investigating && step.Investigate? && step.step == s.record.step &&
        s.assets.investigation.None? && s.record.analystTurn.None? && s.sending.None? &&
        (s.record.analystSent || !step.capped) && s.assets.snapshot;
      && Next(s, step).world.sent == s.world.sent + (if sends then [s.record.id] else [])
      && (sends ==> Next(s, step).sending == Some(s.record.step) && Next(s, step).record.analystSent)
  {
    assert s.world.sent + [] == s.world.sent;
  }

  /** The assets change in three ways: each records what came in, at the step that waits for it. */
  lemma AssetsExactly(s: State, step: Step)
    requires Inv(s)
    ensures var was, now := s.assets, Next(s, step).assets;
      && (now.snapshot <==> was.snapshot || (s.record.status == Collecting && step == SaveSnapshot(s.record.step)))
      && now.outcome == (if s.judge.Calling? && step.JudgeAnswers? then Some(step.outcome) else was.outcome)
      && now.investigation ==
           (if was.investigation.None? && s.record.status == Investigating && step == SaveInvestigation(s.record.step)
            then s.record.analystTurn else was.investigation)
  {
  }

  /** A turn is noted exactly when the answer to the send of this step comes in. */
  lemma TurnNotedExactly(s: State, step: Step)
    requires Inv(s)
    ensures var was, now := s.record.analystTurn, Next(s, step).record.analystTurn;
      now == if step == SendAnswered(false) && s.sending == Some(s.record.step) && s.record.id in s.world.turnOf
                && !s.record.status.Terminal()
             then Some(s.world.turnOf[s.record.id]) else was
  {
  }

  /** A key is given a turn exactly when its first send arrives. */
  lemma TurnGivenExactly(s: State, step: Step, key: Key)
    ensures var was, now := s.world.turnOf, Next(s, step).world.turnOf;
      if key in was then key in now && now[key] == was[key]
      else
        var arrives := step.SendArrives? && step.which < |s.world.sent| && s.world.sent[step.which] == key;
        (key in now <==> arrives) && (arrives ==> now[key] == step.turn)
  {
  }

  /** An analysis completes with an answer that needs no investigation, or with the investigation saved. */
  ghost predicate CompletedWell(s: State) {
    s.record.status == Completed ==>
      s.assets.outcome == Some(Answered(Other)) || s.assets.investigation.Some?
  }

  /** Over all runs: completed means answered, without an investigation or with a saved one, never both. */
  lemma {:induction false} CompletedMeans(id: Key, steps: seq<Step>)
    ensures var s := Run(id, steps);
      s.record.status == Completed ==>
        && (s.assets.outcome == Some(Answered(Other)) <==> s.assets.investigation.None?)
        && (s.assets.outcome == Some(Answered(NeedsInvestigation)) <==> s.assets.investigation.Some?)
        && (s.assets.investigation.Some? ==> s.world.turns == [s.assets.investigation.value])
  {
    CompletedKept(id, steps);
    RunKeeps(id, steps);
    TurnsKept(id, steps);
  }

  lemma {:induction false} CompletedKept(id: Key, steps: seq<Step>)
    ensures CompletedWell(Run(id, steps))
  {
    if steps != [] {
      var init := steps[..|steps| - 1];
      CompletedKept(id, init);
      RunKeeps(id, init);
      NextRecords(Run(id, init), steps[|steps| - 1]);
      if !Run(id, init).record.status.Terminal() { StatusEnds(Run(id, init), steps[|steps| - 1]); }
    }
  }

  /** The turns started are those the Harness keeps for the key. */
  ghost predicate TurnsAre(s: State) {
    var id := s.record.id;
    && (id in s.world.turnOf ==> s.world.turns == [s.world.turnOf[id]])
    && (id !in s.world.turnOf ==> s.world.turns == [])
  }

  lemma TurnsStep(s: State, step: Step)
    requires OneKey(s) && TurnsAre(s)
    ensures TurnsAre(Next(s, step)) && Next(s, step).record.id == s.record.id
  {
    if step.SendArrives? && step.which < |s.world.sent| {
      assert s.world.sent[step.which] == s.record.id;
      assert [] + [step.turn] == [step.turn];
    }
  }

  lemma {:induction false} TurnsKept(id: Key, steps: seq<Step>)
    ensures Run(id, steps).record.id == id && TurnsAre(Run(id, steps))
  {
    if steps != [] {
      var init := steps[..|steps| - 1];
      TurnsKept(id, init);
      RunKeeps(id, init);
      TurnsStep(Run(id, init), steps[|steps| - 1]);
    }
  }

  /** The judge task of the process: started by the call, filled by its answer, gone once used or with the process. */
  lemma TaskExactly(s: State, step: Step)
    ensures Next(s, step).judge ==
      if s.record.status == Judging && step == Judge(s.record.step) && !s.record.judgeCalled && s.assets.snapshot
      then Calling(s.record.step)
      else if step.JudgeAnswers? && s.judge.Calling? then Saved(s.judge.step, step.outcome)
      else if step == Restart || (step == JudgeRoutes && s.judge.Saved?) then NoTask
      else s.judge
  {
  }

  /** The investigating step tries to send: nothing is in or on its way, and it was sent before or no cap holds it. */
  predicate TriesToSend(s: State, step: Step) {
    && s.record.status == Investigating && step.Investigate? && step.step == s.record.step
    && s.assets.investigation.None? && s.record.analystTurn.None? && s.sending.None?
    && (s.record.analystSent || !step.capped)
  }

  /** A send is under way from the step that makes it until its answer or the end of the process. */
  lemma SendingExactly(s: State, step: Step)
    ensures Next(s, step).sending ==
      if TriesToSend(s, step) && s.assets.snapshot then Some(s.record.step)
      else if step == Restart || step.SendAnswered? then None
      else s.sending
    ensures Next(s, step).record.analystSent <==> s.record.analystSent || TriesToSend(s, step)
  {
  }

  /** An analysis starts without evidence, so nothing can be judged before some is saved. */
  lemma NothingToJudge(id: Key)
    ensures Run(id, [AdvanceToJudge(0)]) == Run(id, [])
  {
    assert [AdvanceToJudge(0)][..0] == [];
  }

  /** The steps up to the call of Jev, and those that send for an investigation. */
  function Judged(): seq<Step> { [SaveSnapshot(0)] + [AdvanceToJudge(0)] + [Judge(1)] }

  function Asked(): seq<Step> {
    Judged() + [JudgeAnswers(Answered(NeedsInvestigation))] + [JudgeRoutes] + [Investigate(2, false)]
  }

  /** An answer that needs no investigation completes the analysis. */
  lemma AnsweredRun(id: Key)
    ensures Run(id, Judged() + [JudgeAnswers(Answered(Other))] + [JudgeRoutes]).record ==
      Record(id, Completed, 2, true, false, None, false)
  {
    var s := AfterJudged(id);
    RunMore(id, Judged(), JudgeAnswers(Answered(Other)));
    RunMore(id, Judged() + [JudgeAnswers(Answered(Other))], JudgeRoutes);
  }

  /** One that does completes it once the investigation's turn is known and its outcome saved. */
  lemma InvestigatedRun(id: Key, turn: nat)
    ensures Run(id, Asked() + [SendArrives(0, turn)] + [SendAnswered(false)] + [SaveInvestigation(2)] + [Finish(2)])
      .record == Record(id, Completed, 3, true, true, Some(turn), false)
  {
    var s := AfterAsked(id);
    var t := Next(s, SendArrives(0, turn));
    assert t.world.turnOf == map[id := turn] && t.record == s.record && t.sending == Some(2);
    var u := Next(t, SendAnswered(false));
    assert u.record == s.record.(analystTurn := Some(turn)) && u.assets == s.assets;
    var steps := Asked();
    RunMore(id, steps, SendArrives(0, turn));
    RunMore(id, steps + [SendArrives(0, turn)], SendAnswered(false));
    RunMore(id, steps + [SendArrives(0, turn)] + [SendAnswered(false)], SaveInvestigation(2));
    RunMore(id, steps + [SendArrives(0, turn)] + [SendAnswered(false)] + [SaveInvestigation(2)], Finish(2));
  }

  lemma AfterAsked(id: Key) returns (s: State)
    ensures s == Run(id, Asked()) && s.record == Record(id, Investigating, 2, true, true, None, false)
    ensures s.assets == Assets(true, Some(Answered(NeedsInvestigation)), None) && s.sending == Some(2)
    ensures s.world == World(1, [id], map[], [])
  {
    var a := AfterJudged(id);
    var answer := JudgeAnswers(Answered(NeedsInvestigation));
    RunMore(id, Judged(), answer);
    RunMore(id, Judged() + [answer], JudgeRoutes);
    RunMore(id, Judged() + [answer] + [JudgeRoutes], Investigate(2, false));
    assert [] + [id] == [id];
    s := Run(id, Asked());
  }

  lemma AfterJudged(id: Key) returns (s: State)
    ensures s == Run(id, Judged())
    ensures s.record == Record(id, Judging, 1, true, false, None, false) && s.judge == Calling(1)
    ensures s.assets == Assets(true, None, None) && s.world == World(1, [], map[], []) && s.sending.None?
  {
    var s1 := Next(Start(id), SaveSnapshot(0));
    assert s1 == Start(id).(assets := Assets(true, None, None));
    var s2 := Next(s1, AdvanceToJudge(0));
    assert s2.record == Record(id, Judging, 1, false, false, None, false);
    s := Next(s2, Judge(1));
    assert [] + [SaveSnapshot(0)] == [SaveSnapshot(0)];
    RunMore(id, [], SaveSnapshot(0));
    RunMore(id, [SaveSnapshot(0)], AdvanceToJudge(0));
    RunMore(id, [SaveSnapshot(0)] + [AdvanceToJudge(0)], Judge(1));
  }
}
