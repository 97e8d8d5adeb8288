/**
 Assembling with the tail that is selected: a compaction summarises what lies before the tail
 chosen from the pruned history, so a request never holds a result whose call was summarised
 away, unless the history itself interrupts a call.
 */
module ContextSelection {
  import opened Options
  import opened ContextAssembly
  import Tail = TailSelection

  /** What no pass rewrites of a message: its role, the calls it leaves open and the results it carries. */
  datatype Kind = Kind(role: Tail.Role, calls: set<Tail.CallId>, results: set<Tail.CallId>)

  /** The history as the selection sees it. */
  function Seen(texts: Texts, kinds: int -> Kind, messages: seq<Message>): (r: seq<Tail.Message>)
    ensures |r| == |messages|
  {
    seq(|messages|, i requires 0 <= i < |messages| =>
      var k := kinds(messages[i].link);
      Tail.Message(k.role, k.calls, k.results, texts.size(messages[i])))
  }

  /** The tail's budget: a quarter of the request's, within bounds. */
  function Preserve(gate: nat): nat {
    if gate / 4 < 2000 then 2000 else if gate / 4 > 8000 then 8000 else gate / 4
  }

  /** It is two thousand tokens below eight thousand, eight thousand from thirty-two thousand on, a quarter between. */
  lemma PreserveExactly(gate: nat)
    ensures gate < 8000 ==> Preserve(gate) == 2000
    ensures 32000 <= gate ==> Preserve(gate) == 8000
    ensures 8000 <= gate < 32000 ==> 4 * Preserve(gate) <= gate < 4 * Preserve(gate) + 4
  {
  }

  /** The compaction that follows from a selected tail, if there is a summary to be had. */
  function Selected(start: Option<nat>, summary: Option<nat>): Option<Compaction> {
    if start.Some? && summary.Some? then Some(Compaction(start.value, summary.value)) else None
  }

  /**
   A whole call that selects its own tail. `summary` is the estimate of the prompt with the
   summary, when the summariser has one. In a history where no call is awaited at a place to cut,
   no call that was summarised has its result in the answer, nor in any history cut at that place.
   */
  method AssembleSelecting(
    texts: Texts, request: Request, first: Option<nat>, recount: nat -> Option<nat>, summary: Option<nat>,
    kinds: int -> Kind, turns: nat)
    returns (outcome: Outcome, answers: Answers)
    ensures answers.first == first && answers.recount == recount
    ensures outcome == Assemble(texts, request, answers)
    ensures var gate := FirstGate(texts, request, answers);
      var seen := Seen(texts, kinds, Pruned(texts, request, gate).messages);
      var head := Head(texts, request, answers, gate);
      && (turns > 0 && summary.Some? ==>
            && answers.compaction.Some? && answers.compaction.value.prompt == summary.value
            && Tail.BeginsTail(seen, Preserve(gate), turns, answers.compaction.value.head))
      && (turns == 0 || summary.None? ==> head == 0)
      && (head == 0 || Tail.Cut(seen, head))
      && (Tail.Uninterrupted(seen) ==> !Tail.Splits(seen, head))
  {
    answers := Answers(first, recount, None);
    var gate := FirstGate(texts, request, answers);
    var seen := Seen(texts, kinds, Pruned(texts, request, gate).messages);
    var start := Tail.Select(seen, Preserve(gate), turns);
    answers := Answers(first, recount, Selected(start, summary));
    SameGate(texts, request, first, recount, None, answers.compaction);
    outcome := AssembleRequest(texts, request, answers);
    if Tail.Uninterrupted(seen) { Tail.CutKeepsPairs(seen, Head(texts, request, answers, gate)); }
  }

  lemma SameGate(
    texts: Texts, request: Request, first: Option<nat>, recount: nat -> Option<nat>,
    a: Option<Compaction>, b: Option<Compaction>)
    ensures FirstGate(texts, request, Answers(first, recount, a)) ==
      FirstGate(texts, request, Answers(first, recount, b))
  {
  }

  /** Messages that only had contents rewritten are seen as before, but for their sizes. */
  lemma SeenAlike(texts: Texts, kinds: int -> Kind, a: seq<Message>, b: seq<Message>, head: nat)
    requires head <= |a| && Keeps(a[head..], b)
    ensures |b| == |a| - head
    ensures forall i :: 0 <= i < |b| ==>
      Seen(texts, kinds, b)[i] == Seen(texts, kinds, a)[head + i].(size := texts.size(b[i]))
  {
    forall i | 0 <= i < |b|
      ensures Seen(texts, kinds, b)[i] == Seen(texts, kinds, a)[head + i].(size := texts.size(b[i]))
    {
      assert Kept(a[head..][i], b[i]);
    }
  }

  lemma SettledTail(texts: Texts, request: Request, answers: Answers, gate: nat)
    ensures Keeps(Pruned(texts, request, gate).messages[Head(texts, request, answers, gate)..],
      Settled(texts, request, answers, gate).0.messages)
  {
    SettledKeeps(texts, request, answers, gate);
    assert Compacted(texts, request, answers, gate).messages ==
      Pruned(texts, request, gate).messages[Head(texts, request, answers, gate)..];
  }

  /** The answer is the tail that was selected: its messages are seen as before, but for their sizes. */
  lemma AnswerIsTail(texts: Texts, request: Request, answers: Answers, gate: nat, kinds: int -> Kind)
    requires AssembleAt(texts, request, answers, gate).Assembled?
    ensures var answer := AssembleAt(texts, request, answers, gate).draft.messages;
      var seen, head := Seen(texts, kinds, Pruned(texts, request, gate).messages), Head(texts, request, answers, gate);
      && |answer| == |seen| - head
      && forall i :: 0 <= i < |answer| ==>
           Seen(texts, kinds, answer)[i] == seen[head + i].(size := texts.size(answer[i]))
  {
    SettledTail(texts, request, answers, gate);
    SeenAlike(texts, kinds, Pruned(texts, request, gate).messages,
      Settled(texts, request, answers, gate).0.messages, Head(texts, request, answers, gate));
  }
}
