/**
 How a request's history is made to fit a model's window: oversized results are capped, aged
 ones pruned, the head is summarised away, and what is still too large has its results replaced
 by short references, the provider's own count being asked in between.

 What the passes write over a result, what a message is estimated at and what the provider
 counts are arbitrary; which messages are touched, in what order the passes run and what the
 answer promises is what is modelled.
 */
module ContextAssembly {
  import opened Options

  /** The largest value the token counters hold; they saturate there. */
  const Max: nat := 0xFFFF_FFFF_FFFF_FFFF
  /** The provider is asked once the estimate reaches this share of the window. */
  const CountShare: nat := 3
  /** How often a request counted over the window is reduced again. */
  const Recounts: nat := 3

  /**
   A message: whether it is left out of what the model sees, what no pass rewrites (its role,
   its call ids, its time), how many function results it holds and its content.
   */
  datatype Message = Message(custom: bool, link: int, results: nat, content: string)

  /** The place of a result: the message that holds it, and which of its results it is. */
  datatype Place = Place(message: nat, result: nat)

  /**
   What the worker computes from texts: a message's estimate, what each pass makes of a
   message's content, the estimate of one result, and the reference written in its place.
   */
  datatype Texts = Texts(
    size: Message -> nat,
    media: (seq<Message>, nat) -> string,
    cap: (seq<Message>, nat) -> string,
    prune: (seq<Message>, nat) -> string,
    weight: (Message, nat) -> nat,
    reference: (seq<Message>, Place, string) -> string)

  /** A request: its history, the window, the estimates of the rest, and what it allows. */
  datatype Request = Request(
    messages: seq<Message>, usable: nat, prompt: nat, tools: nat, overhead: nat,
    preview: bool, capping: bool, pruning: bool, compacting: bool)

  /** A summarised head: its length, and the estimate of the prompt that carries the summary. */
  datatype Compaction = Compaction(head: nat, prompt: nat)

  /** What the provider counts, first and in each later round, and what a compaction comes to. */
  datatype Answers = Answers(first: Option<nat>, recount: nat -> Option<nat>, compaction: Option<Compaction>)

  /** The request under way: its messages and the estimate of its prompt. */
  datatype Draft = Draft(messages: seq<Message>, prompt: nat)

  /** What a call answers: the request to send, or that it cannot be made to fit. */
  datatype Outcome =
    | Assembled(draft: Draft, count: nat, usable: nat, tailStart: Option<nat>)
    | Overflow(count: nat, gate: nat)

  // ------------------------------------------------------------ counting

  function Min(a: nat, b: nat): nat {
    if a < b then a else b
  }

  /** Saturating addition and subtraction. */
  function Plus(a: nat, b: nat): nat {
    Min(a + b, Max)
  }

  function Less(a: nat, b: nat): nat {
    if a < b then 0 else a - b
  }

  function Sum(sizes: seq<nat>): nat {
    if sizes == [] then 0 else Sum(sizes[..|sizes| - 1]) + sizes[|sizes| - 1]
  }

  function Sizes(texts: Texts, messages: seq<Message>): seq<nat> {
    seq<nat>(|messages|, i requires 0 <= i < |messages| => texts.size(messages[i]))
  }

  /** The estimate of a whole request. */
  function Count(texts: Texts, request: Request, draft: Draft): nat {
    Min(Sum(Sizes(texts, draft.messages)) + draft.prompt + request.tools + request.overhead, Max)
  }

  lemma {:induction false} SumUpdate(sizes: seq<nat>, i: nat, size: nat)
    requires i < |sizes|
    ensures Sum(sizes[i := size]) == Sum(sizes) - sizes[i] + size
  {
    var last := |sizes| - 1;
    if i == last {
      assert sizes[i := size][..last] == sizes[..last];
    } else {
      assert sizes[i := size][..last] == sizes[..last][i := size];
      SumUpdate(sizes[..last], i, size);
    }
  }

  /** The fold over the memo, saturating at every step, is the estimate. */
  method Total(sizes: seq<nat>, prompt: nat, tools: nat, overhead: nat) returns (total: nat)
    ensures total == Min(Sum(sizes) + prompt + tools + overhead, Max)
  {
    total := 0;
    for i := 0 to |sizes|
      invariant total == Min(Sum(sizes[..i]), Max)
    {
      assert sizes[..i + 1][..i] == sizes[..i];
      total := Plus(total, sizes[i]);
    }
    assert sizes[..|sizes|] == sizes;
    total := Plus(Plus(Plus(total, prompt), tools), overhead);
  }

  // ------------------------------------------------------------ passes over the messages

  /** The messages a model sees. */
  function Shown(messages: seq<Message>): seq<Message> {
    if messages == [] then []
    else Shown(messages[..|messages| - 1]) +
         if messages[|messages| - 1].custom then [] else [messages[|messages| - 1]]
  }

  /** Where the messages a model sees stand in the request. */
  function Origins(messages: seq<Message>): (r: seq<nat>)
    ensures |r| == |Shown(messages)|
    ensures forall i :: 0 <= i < |r| ==> r[i] < |messages|
  {
    if messages == [] then []
    else Origins(messages[..|messages| - 1]) +
         if messages[|messages| - 1].custom then [] else [|messages| - 1]
  }

  /** A pass that rewrites contents. */
  function Rewrite(messages: seq<Message>, content: (seq<Message>, nat) -> string): (r: seq<Message>)
    ensures |r| == |messages|
  {
    seq(|messages|, i requires 0 <= i < |messages| => messages[i].(content := content(messages, i)))
  }

  /** A pass that rewrites results and nothing else. */
  function RewriteResults(messages: seq<Message>, content: (seq<Message>, nat) -> string): (r: seq<Message>)
    ensures Keeps(messages, r)
  {
    seq(|messages|, i requires 0 <= i < |messages| =>
      if messages[i].results == 0 then messages[i] else messages[i].(content := content(messages, i)))
  }

  predicate Kept(a: Message, b: Message) {
    a.custom == b.custom && a.link == b.link && a.results == b.results &&
    (a.results == 0 ==> a.content == b.content)
  }

  /** `b` is `a` with nothing but contents rewritten, and none where there is no result. */
  predicate Keeps(a: seq<Message>, b: seq<Message>) {
    |a| == |b| && forall i :: 0 <= i < |a| ==> Kept(a[i], b[i])
  }

  lemma KeepsTrans(a: seq<Message>, b: seq<Message>, c: seq<Message>)
    requires Keeps(a, b) && Keeps(b, c)
    ensures Keeps(a, c)
  {
    forall i | 0 <= i < |a| ensures Kept(a[i], c[i]) { assert Kept(a[i], b[i]) && Kept(b[i], c[i]); }
  }

  // ------------------------------------------------------------ the emergency pass

  /** A result that can be reduced, with its estimate. */
  datatype Candidate = Candidate(place: Place, weight: nat)

  /** Every result, in order. */
  function Candidates(texts: Texts, messages: seq<Message>): seq<Candidate> {
    if messages == [] then [] else
      var last := |messages| - 1;
      Candidates(texts, messages[..last]) + seq(messages[last].results, j requires 0 <= j =>
        Candidate(Place(last, j), texts.weight(messages[last], j)))
  }

  /** `c` goes behind every candidate at least as heavy. */
  function Insert(sorted: seq<Candidate>, c: Candidate): seq<Candidate> {
    if sorted == [] then [c]
    else if sorted[0].weight >= c.weight then [sorted[0]] + Insert(sorted[1..], c)
    else [c] + sorted
  }

  /** Largest first, ties in order. */
  function LargestFirst(candidates: seq<Candidate>): seq<Candidate> {
    if candidates == [] then []
    else Insert(LargestFirst(candidates[..|candidates| - 1]), candidates[|candidates| - 1])
  }

  predicate Descending(candidates: seq<Candidate>) {
    forall i, j :: 0 <= i < j < |candidates| ==> candidates[i].weight >= candidates[j].weight
  }

  lemma {:induction false} InsertHolds(sorted: seq<Candidate>, c: Candidate)
    ensures multiset(Insert(sorted, c)) == multiset(sorted) + multiset{c}
  {
    if sorted != [] && sorted[0].weight >= c.weight {
      InsertHolds(sorted[1..], c);
      assert sorted == [sorted[0]] + sorted[1..];
    }
  }

  lemma {:induction false} InsertDescends(sorted: seq<Candidate>, c: Candidate)
    requires Descending(sorted)
    ensures Descending(Insert(sorted, c))
  {
    if sorted != [] && sorted[0].weight >= c.weight {
      var rest := Insert(sorted[1..], c);
      InsertDescends(sorted[1..], c);
      InsertHolds(sorted[1..], c);
      forall d | d in rest ensures sorted[0].weight >= d.weight {
        assert d in multiset(rest);
        assert d == c || d in sorted[1..];
      }
    }
  }

  /** The order of the pass: all the candidates, largest first. */
  lemma {:induction false} LargestFirstIs(candidates: seq<Candidate>)
    ensures Descending(LargestFirst(candidates))
    ensures multiset(LargestFirst(candidates)) == multiset(candidates)
  {
    if candidates != [] {
      var n := |candidates| - 1;
      assert candidates == candidates[..n] + [candidates[n]];
      LargestFirstIs(candidates[..n]);
      InsertHolds(LargestFirst(candidates[..n]), candidates[n]);
      InsertDescends(LargestFirst(candidates[..n]), candidates[n]);
    }
  }

  /** The candidates are results of these messages. */
  predicate Fits(candidates: seq<Candidate>, messages: seq<Message>) {
    forall c :: c in candidates ==> c.place.message < |messages| && messages[c.place.message].results > 0
  }

  lemma {:induction false} CandidatesFit(texts: Texts, messages: seq<Message>)
    ensures Fits(Candidates(texts, messages), messages)
  {
    if messages != [] { CandidatesFit(texts, messages[..|messages| - 1]); }
  }

  lemma OrderFits(texts: Texts, messages: seq<Message>)
    ensures Fits(LargestFirst(Candidates(texts, messages)), messages)
  {
    CandidatesFit(texts, messages);
    LargestFirstIs(Candidates(texts, messages));
    forall c | c in LargestFirst(Candidates(texts, messages)) ensures c in Candidates(texts, messages) {
      assert c in multiset(LargestFirst(Candidates(texts, messages)));
    }
  }

  /** A message with one result replaced by its reference, the history being `start`. */
  function Cut(texts: Texts, start: seq<Message>, p: Place, m: Message): Message {
    m.(content := texts.reference(start, p, m.content))
  }

  /** Each candidate in turn, reduced only if that frees something, until `need` is freed. */
  function Trim(texts: Texts, start: seq<Message>, messages: seq<Message>, candidates: seq<Candidate>, need: nat)
    : seq<Message>
    requires Fits(candidates, messages)
    decreases |candidates|
  {
    if candidates == [] || need == 0 then messages else
      var p := candidates[0].place;
      var cut := Cut(texts, start, p, messages[p.message]);
      var was, now := texts.size(messages[p.message]), texts.size(cut);
      if now < was then Trim(texts, start, messages[p.message := cut], candidates[1..], Less(need, was - now))
      else Trim(texts, start, messages, candidates[1..], need)
  }

  lemma {:induction false} TrimKeeps(
    texts: Texts, start: seq<Message>, messages: seq<Message>, candidates: seq<Candidate>, need: nat)
    requires Fits(candidates, messages)
    ensures Keeps(messages, Trim(texts, start, messages, candidates, need))
    decreases |candidates|
  {
    if candidates != [] && need > 0 {
      var p := candidates[0].place;
      var cut := Cut(texts, start, p, messages[p.message]);
      var was, now := texts.size(messages[p.message]), texts.size(cut);
      if now < was {
        var next := messages[p.message := cut];
        TrimKeeps(texts, start, next, candidates[1..], Less(need, was - now));
        KeepsTrans(messages, next, Trim(texts, start, next, candidates[1..], Less(need, was - now)));
      } else {
        TrimKeeps(texts, start, messages, candidates[1..], need);
      }
    }
  }

  /** The pass over a whole history. */
  function Reduced(texts: Texts, messages: seq<Message>, need: nat): (r: seq<Message>)
    ensures Keeps(messages, r)
  {
    var order := LargestFirst(Candidates(texts, messages));
    OrderFits(texts, messages);
    TrimKeeps(texts, messages, messages, order, need);
    Trim(texts, messages, messages, order, need)
  }

  /** Rewriting one message changes the sum by what that message changes. */
  lemma SizesUpdate(texts: Texts, messages: seq<Message>, i: nat, m: Message)
    requires i < |messages|
    ensures Sizes(texts, messages[i := m]) == Sizes(texts, messages)[i := texts.size(m)]
    ensures Sum(Sizes(texts, messages[i := m])) ==
      Sum(Sizes(texts, messages)) - texts.size(messages[i]) + texts.size(m)
  {
    assert Sizes(texts, messages[i := m]) == Sizes(texts, messages)[i := texts.size(m)];
    SumUpdate(Sizes(texts, messages), i, texts.size(m));
  }

  /**
   The pass frees what was asked, or nothing further could be had from it: asked for more, it
   would have come to the same.
   */
  lemma {:induction false} TrimFrees(
    texts: Texts, start: seq<Message>, messages: seq<Message>, candidates: seq<Candidate>, need: nat, more: nat)
    requires Fits(candidates, messages) && need <= more
    ensures var r := Trim(texts, start, messages, candidates, need);
      Sum(Sizes(texts, r)) <= Sum(Sizes(texts, messages)) &&
      (Sum(Sizes(texts, r)) + need <= Sum(Sizes(texts, messages)) ||
       r == Trim(texts, start, messages, candidates, more))
    decreases |candidates|
  {
    if candidates != [] && need > 0 {
      var p := candidates[0].place;
      var cut := Cut(texts, start, p, messages[p.message]);
      var was, now := texts.size(messages[p.message]), texts.size(cut);
      if now < was {
        SizesUpdate(texts, messages, p.message, cut);
        TrimFrees(texts, start, messages[p.message := cut], candidates[1..],
          Less(need, was - now), Less(more, was - now));
      } else {
        TrimFrees(texts, start, messages, candidates[1..], need, more);
      }
    }
  }

  lemma ReducedFrees(texts: Texts, messages: seq<Message>, need: nat, more: nat)
    requires need <= more
    ensures var r := Reduced(texts, messages, need);
      Sum(Sizes(texts, r)) <= Sum(Sizes(texts, messages)) &&
      (Sum(Sizes(texts, r)) + need <= Sum(Sizes(texts, messages)) || r == Reduced(texts, messages, more))
  {
    OrderFits(texts, messages);
    TrimFrees(texts, messages, messages, LargestFirst(Candidates(texts, messages)), need, more);
  }

  /** The emergency pass, the memo of sizes kept in step with the messages. */
  method ReduceResults(texts: Texts, working: seq<Message>, sizes: seq<nat>, excess: nat)
    returns (messages: seq<Message>, memo: seq<nat>)
    requires sizes == Sizes(texts, working)
    ensures messages == Reduced(texts, working, excess)
    ensures memo == Sizes(texts, messages)
  {
    OrderFits(texts, working);
    messages, memo := TrimInOrder(texts, working, sizes, LargestFirst(Candidates(texts, working)), excess);
  }

  method TrimInOrder(
    texts: Texts, working: seq<Message>, sizes: seq<nat>, order: seq<Candidate>, excess: nat)
    returns (messages: seq<Message>, memo: seq<nat>)
    requires sizes == Sizes(texts, working) && Fits(order, working)
    ensures messages == Trim(texts, working, working, order, excess)
    ensures memo == Sizes(texts, messages)
  {
    messages, memo := working, sizes;
    var freed: nat, k := 0, 0;
    assert order[0..] == order;
    while k < |order| && freed < excess
      invariant k <= |order| && memo == Sizes(texts, messages) && Fits(order[k..], messages)
      invariant Trim(texts, working, messages, order[k..], Less(excess, freed)) ==
        Trim(texts, working, working, order, excess)
    {
      var p := order[k].place;
      assert order[k..][0] == order[k] && order[k..][1..] == order[k + 1..];
      var cut := Cut(texts, working, p, messages[p.message]);
      var was, now := memo[p.message], texts.size(cut);
      if now < was {
        SizesUpdate(texts, messages, p.message, cut);
        messages, memo := messages[p.message := cut], memo[p.message := now];
        freed := freed + (was - now);
      }
      k := k + 1;
    }
  }

  // ------------------------------------------------------------ the steps

  /** The budget in estimate units that keeps the provider's count within the window. */
  function Gate(request: Request, empty: bool, estimate: nat, counted: Option<nat>): nat {
    if empty || Min(estimate * CountShare, Max) < request.usable || counted.None? then request.usable
    else
      var c := Plus(counted.value, request.overhead);
      if c > estimate then Scaled(request.usable, estimate, c) else request.usable
  }

  function Scaled(usable: nat, part: nat, whole: nat): nat
    requires whole > 0
  {
    Product(usable, part) / whole
  }

  function Product(a: nat, b: nat): nat {
    a * b
  }

  /** The view of the request, its media normalised. */
  function View(texts: Texts, request: Request): seq<Message> {
    Rewrite(Shown(request.messages), texts.media)
  }

  /** After the cap on single results. */
  function Capped(texts: Texts, request: Request): Draft {
    var view := View(texts, request);
    Draft(if request.capping then RewriteResults(view, texts.cap) else view, request.prompt)
  }

  /** The budget every step is held to until the recounts. */
  function FirstGate(texts: Texts, request: Request, answers: Answers): nat {
    var draft := Capped(texts, request);
    Gate(request, draft.messages == [], Count(texts, request, draft), answers.first)
  }

  /** After pruning. */
  function Pruned(texts: Texts, request: Request, gate: nat): Draft {
    var draft := Capped(texts, request);
    if request.pruning && Count(texts, request, draft) > gate
    then draft.(messages := RewriteResults(draft.messages, texts.prune)) else draft
  }

  /** How many messages the compaction takes away. */
  function Head(texts: Texts, request: Request, answers: Answers, gate: nat): (head: nat)
    ensures head <= |Pruned(texts, request, gate).messages|
    ensures Pruned(texts, request, gate).messages != [] ==> head < |Pruned(texts, request, gate).messages|
  {
    var draft := Pruned(texts, request, gate);
    if !request.preview && request.compacting && answers.compaction.Some? &&
       Count(texts, request, draft) > gate &&
       0 < answers.compaction.value.head < |draft.messages|
    then answers.compaction.value.head else 0
  }

  /** After compacting. */
  function Compacted(texts: Texts, request: Request, answers: Answers, gate: nat): Draft {
    var draft, head := Pruned(texts, request, gate), Head(texts, request, answers, gate);
    if head > 0 then Draft(draft.messages[head..], answers.compaction.value.prompt) else draft
  }

  function Reduce(texts: Texts, draft: Draft, need: nat): Draft {
    draft.(messages := Reduced(texts, draft.messages, need))
  }

  /** After the first emergency pass. */
  function Relieved(texts: Texts, request: Request, answers: Answers, gate: nat): Draft {
    var draft := Compacted(texts, request, answers, gate);
    var count := Count(texts, request, draft);
    if !request.preview && count > gate then Reduce(texts, draft, count - gate) else draft
  }

  /** Whether the reduced request is counted again. */
  predicate Recounted(texts: Texts, request: Request, answers: Answers, gate: nat) {
    !request.preview && gate < request.usable &&
    Count(texts, request, Relieved(texts, request, answers, gate)) < Count(texts, request, Capped(texts, request))
  }

  /** By how much the provider counts a round's request over the window, if it answers. */
  function Over(request: Request, answers: Answers, round: nat): Option<nat> {
    if answers.recount(round).None? then None
    else Some(Less(Plus(answers.recount(round).value, request.overhead), request.usable))
  }

  /** What is left of a draft after `rounds` emergency passes, each asked for what its count is over by. */
  function Left(texts: Texts, request: Request, answers: Answers, start: Draft, rounds: nat): Draft {
    if rounds == 0 then start else
      var draft, over := Left(texts, request, answers, start, rounds - 1), Over(request, answers, rounds - 1);
      var count := Count(texts, request, draft);
      if over.None? then draft else Reduce(texts, draft, Less(count, Less(count, over.value)))
  }

  /** The estimates after so many passes, and the counts of the rounds. */
  function Estimates(texts: Texts, request: Request, answers: Answers, start: Draft): nat -> nat {
    (rounds: nat) => Count(texts, request, Left(texts, request, answers, start, rounds))
  }

  function Overs(request: Request, answers: Answers): nat -> Option<nat> {
    (round: nat) => Over(request, answers, round)
  }

  /**
   The rounds of counting and reducing from `round` on, told from the estimates after so many
   passes and from what the rounds count over the window: how many passes are made, and the
   budget what is left is held to.
   */
  function Settle(estimates: nat -> nat, overs: nat -> Option<nat>, usable: nat, gate: nat, round: nat)
    : (nat, nat)
    requires round <= Recounts
    decreases Recounts - round
  {
    if overs(round).None? then (round, gate)
    else if overs(round).value == 0 then (round, usable)
    else
      var next := Less(estimates(round), overs(round).value);
      if round == Recounts then (round, next)
      else if estimates(round + 1) == estimates(round) then (round + 1, next)
      else Settle(estimates, overs, usable, next, round + 1)
  }

  /** What the rounds make of a draft, and the budget it is held to. */
  function Rounds(texts: Texts, request: Request, answers: Answers, draft: Draft, gate: nat): (Draft, nat) {
    var (rounds, last) := Settle(
      Estimates(texts, request, answers, draft), Overs(request, answers), request.usable, gate, 0);
    (Left(texts, request, answers, draft, rounds), last)
  }

  /** A relieved draft, counted again if that is due. */
  function SettledFrom(
    texts: Texts, request: Request, answers: Answers, draft: Draft, estimate: nat, gate: nat): (Draft, nat)
  {
    if !request.preview && gate < request.usable && Count(texts, request, draft) < estimate
    then Rounds(texts, request, answers, draft, gate) else (draft, gate)
  }

  /** The draft the last check looks at, and the budget it is checked against. */
  function Settled(texts: Texts, request: Request, answers: Answers, gate: nat): (Draft, nat) {
    SettledFrom(texts, request, answers, Relieved(texts, request, answers, gate),
      Count(texts, request, Capped(texts, request)), gate)
  }

  /** A call whose first steps are held to `gate`. */
  function AssembleAt(texts: Texts, request: Request, answers: Answers, gate: nat): Outcome {
    var (draft, last) := Settled(texts, request, answers, gate);
    var count, head := Count(texts, request, draft), Head(texts, request, answers, gate);
    if !request.preview && count > last then Overflow(count, last)
    else Assembled(draft, count, request.usable,
      if head > 0 then Some(Origins(request.messages)[head]) else None)
  }

  /** A whole call. */
  function Assemble(texts: Texts, request: Request, answers: Answers): Outcome {
    AssembleAt(texts, request, answers, FirstGate(texts, request, answers))
  }

  // ------------------------------------------------------------ the answer and the window

  lemma Quotient(usable: nat, product: nat, c: nat)
    requires 0 < c && product <= usable * c
    ensures product / c <= usable
  {
    var q := product / c;
    assert q * c <= product;
    assert (usable + 1) * c > product;
    assert q < usable + 1 by { if q >= usable + 1 { Times(q, usable + 1, c); } }
  }

  lemma Times(a: nat, b: nat, c: nat)
    requires a >= b
    ensures a * c >= b * c
  {
    assert a * c == b * c + (a - b) * c;
  }

  /** The budget of the first steps is never above the window. */
  lemma GateWithin(request: Request, empty: bool, estimate: nat, counted: Option<nat>)
    ensures Gate(request, empty, estimate, counted) <= request.usable
  {
    if counted.Some? {
      var c := Plus(counted.value, request.overhead);
      if c > estimate {
        assert request.usable * estimate <= request.usable * c;
        Quotient(request.usable, request.usable * estimate, c);
      }
    }
  }

  /** The first `rounds` counts are over the window, and the pass after each takes something off. */
  predicate Reaches(estimates: nat -> nat, overs: nat -> Option<nat>, rounds: nat) {
    forall k :: 0 <= k < rounds ==>
      overs(k).Some? && overs(k).value > 0 && estimates(k + 1) != estimates(k)
  }

  /**
   The provider stops answering in round `q`, just after a pass that took off as much as the
   last count asked for and less than the estimate was above the window.
   */
  predicate SlipsAt(estimates: nat -> nat, overs: nat -> Option<nat>, usable: nat, q: nat) {
    0 < q <= Recounts && Reaches(estimates, overs, q) && overs(q).None? &&
    overs(q - 1).value <= estimates(q - 1) - estimates(q) < estimates(q - 1) - usable
  }

  /** The rounds from `round` on end accepted and above the window exactly if the provider stops so. */
  lemma {:induction false} SettleSlips(
    estimates: nat -> nat, overs: nat -> Option<nat>, usable: nat, gate: nat, round: nat)
    requires round <= Recounts && Reaches(estimates, overs, round)
    requires if round == 0 then gate <= usable else gate == Less(estimates(round - 1), overs(round - 1).value)
    ensures var (rounds, last) := Settle(estimates, overs, usable, gate, round);
      usable < estimates(rounds) <= last <==>
      exists q :: round <= q <= Recounts && SlipsAt(estimates, overs, usable, q)
    decreases Recounts - round
  {
    if overs(round).None? {
      if round > 0 && usable < estimates(round) <= gate { assert SlipsAt(estimates, overs, usable, round); }
    } else if overs(round).value > 0 && round < Recounts && estimates(round + 1) != estimates(round) {
      SettleSlips(estimates, overs, usable, Less(estimates(round), overs(round).value), round + 1);
      assert !SlipsAt(estimates, overs, usable, round);
    }
  }

  /** The provider lets a request slip. */
  predicate Slips(texts: Texts, request: Request, answers: Answers, gate: nat) {
    Recounted(texts, request, answers, gate) &&
    exists q :: 0 <= q <= Recounts &&
      SlipsAt(Estimates(texts, request, answers, Relieved(texts, request, answers, gate)),
        Overs(request, answers), request.usable, q)
  }

  lemma WithinAt(texts: Texts, request: Request, answers: Answers, gate: nat)
    requires gate <= request.usable
    ensures var outcome := AssembleAt(texts, request, answers, gate);
      !request.preview && outcome.Assembled? && outcome.count > outcome.usable <==>
      Slips(texts, request, answers, gate)
  {
    SettleSlips(Estimates(texts, request, answers, Relieved(texts, request, answers, gate)),
      Overs(request, answers), request.usable, gate, 0);
  }

  /**
   A call answers a request above the window exactly if it counted again after a relief and the
   provider, having counted the request over the window, stopped answering after a pass that
   satisfied it while the estimate was still above the window.
   */
  lemma WithinExactly(texts: Texts, request: Request, answers: Answers)
    ensures var outcome, gate := Assemble(texts, request, answers), FirstGate(texts, request, answers);
      !request.preview && outcome.Assembled? && outcome.count > outcome.usable <==>
      Slips(texts, request, answers, gate)
  {
    var draft := Capped(texts, request);
    GateWithin(request, draft.messages == [], Count(texts, request, draft), answers.first);
    WithinAt(texts, request, answers, FirstGate(texts, request, answers));
  }

  /** A provider that answers every recount it is asked for never lets a request slip. */
  lemma WithinIfAnswered(texts: Texts, request: Request, answers: Answers)
    requires !request.preview && Assemble(texts, request, answers).Assembled?
    requires forall k: nat :: answers.recount(k).Some? ==> answers.recount(k + 1).Some?
    ensures Assemble(texts, request, answers).count <= request.usable
  {
    WithinExactly(texts, request, answers);
    AnsweredNoSlip(texts, request, answers, FirstGate(texts, request, answers));
  }

  lemma AnsweredNoSlip(texts: Texts, request: Request, answers: Answers, gate: nat)
    requires forall k: nat :: answers.recount(k).Some? ==> answers.recount(k + 1).Some?
    ensures !Slips(texts, request, answers, gate)
  {
    var estimates := Estimates(texts, request, answers, Relieved(texts, request, answers, gate));
    var overs := Overs(request, answers);
    forall q: nat ensures !SlipsAt(estimates, overs, request.usable, q) {
      if 0 < q && Reaches(estimates, overs, q) { assert overs(q - 1).Some? && answers.recount(q - 1 + 1).Some?; }
    }
  }

  // ------------------------------------------------------------ which requests can slip

  /** Asked for more, the pass leaves no larger a history. */
  lemma {:induction false} TrimFalls(
    texts: Texts, start: seq<Message>, messages: seq<Message>, candidates: seq<Candidate>, need: nat, more: nat)
    requires Fits(candidates, messages) && need <= more
    ensures Sum(Sizes(texts, Trim(texts, start, messages, candidates, more))) <=
      Sum(Sizes(texts, Trim(texts, start, messages, candidates, need)))
    decreases |candidates|
  {
    if candidates != [] && need == 0 {
      TrimFrees(texts, start, messages, candidates, more, more);
    } else if candidates != [] {
      var p := candidates[0].place;
      var cut := Cut(texts, start, p, messages[p.message]);
      var was, now := texts.size(messages[p.message]), texts.size(cut);
      if now < was {
        TrimFalls(texts, start, messages[p.message := cut], candidates[1..],
          Less(need, was - now), Less(more, was - now));
      } else {
        TrimFalls(texts, start, messages, candidates[1..], need, more);
      }
    }
  }

  /** The estimate of a history's messages alone. */
  function Bulk(texts: Texts, messages: seq<Message>): nat {
    Sum(Sizes(texts, messages))
  }

  /** What one token's worth of reducing shows: if it takes nothing off, nothing does, and nothing leaves more. */
  lemma OneTokenTells(texts: Texts, messages: seq<Message>, need: nat)
    requires need > 0
    ensures var one, all := Bulk(texts, Reduced(texts, messages, 1)), Bulk(texts, Reduced(texts, messages, need));
      all <= one <= Bulk(texts, messages) && (all < Bulk(texts, messages) ==> one < Bulk(texts, messages))
  {
    OrderFits(texts, messages);
    var order := LargestFirst(Candidates(texts, messages));
    TrimFalls(texts, messages, messages, order, 1, need);
    ReducedFrees(texts, messages, 1, need);
  }

  lemma CountIs(texts: Texts, request: Request, draft: Draft)
    ensures Count(texts, request, draft) ==
      Min(Bulk(texts, draft.messages) + draft.prompt + request.tools + request.overhead, Max)
  {
  }

  lemma CountFalls(texts: Texts, request: Request, a: Draft, b: Draft)
    requires Bulk(texts, b.messages) <= Bulk(texts, a.messages) && a.prompt == b.prompt
    ensures Count(texts, request, b) <= Count(texts, request, a)
    ensures Count(texts, request, b) < Count(texts, request, a) ==> Bulk(texts, b.messages) < Bulk(texts, a.messages)
  {
    CountIs(texts, request, a);
    CountIs(texts, request, b);
  }

  /** A round never raises the estimate. */
  lemma RoundFalls(texts: Texts, request: Request, answers: Answers, start: Draft, k: nat)
    ensures Estimates(texts, request, answers, start)(k + 1) <= Estimates(texts, request, answers, start)(k)
  {
    var draft, next := Left(texts, request, answers, start, k), Left(texts, request, answers, start, k + 1);
    EstimateIs(texts, request, answers, start, k, draft);
    EstimateIs(texts, request, answers, start, k + 1, next);
    if Over(request, answers, k).Some? {
      LeftNext(texts, request, answers, start, k);
      var count, over := Count(texts, request, draft), Over(request, answers, k).value;
      var need := Less(count, Less(count, over));
      ReducedFrees(texts, draft.messages, need, need);
      CountFalls(texts, request, draft, next);
    }
  }

  lemma {:induction false} RoundsFall(texts: Texts, request: Request, answers: Answers, start: Draft, q: nat)
    requires q > 0
    ensures Estimates(texts, request, answers, start)(q) <= Estimates(texts, request, answers, start)(1)
  {
    if q > 1 {
      RoundsFall(texts, request, answers, start, q - 1);
      RoundFalls(texts, request, answers, start, q - 1);
    }
  }

  /** A first round that takes something off, against a pass asked for one token. */
  lemma FirstRound(texts: Texts, request: Request, answers: Answers, start: Draft)
    requires Over(request, answers, 0).Some? && Over(request, answers, 0).value > 0
    requires Estimates(texts, request, answers, start)(1) != Estimates(texts, request, answers, start)(0)
    ensures Estimates(texts, request, answers, start)(1) <= Count(texts, request, Reduce(texts, start, 1))
    ensures Bulk(texts, Reduced(texts, start.messages, 1)) < Bulk(texts, start.messages)
  {
    var next := Left(texts, request, answers, start, 1);
    EstimateIs(texts, request, answers, start, 0, start);
    EstimateIs(texts, request, answers, start, 1, next);
    RoundFalls(texts, request, answers, start, 0);
    LeftNext(texts, request, answers, start, 0);
    var count, over := Count(texts, request, start), Over(request, answers, 0).value;
    var need := Less(count, Less(count, over));
    OneTokenTells(texts, start.messages, need);
    CountFalls(texts, request, start, next);
    CountFalls(texts, request, Reduce(texts, start, 1), next);
  }

  /** A request that slips can be reduced again, and is above the window when reduced by the least. */
  lemma SlipNeeds(texts: Texts, request: Request, answers: Answers, gate: nat)
    requires Slips(texts, request, answers, gate)
    ensures var draft := Relieved(texts, request, answers, gate);
      request.usable < Count(texts, request, Reduce(texts, draft, 1)) &&
      Bulk(texts, Reduced(texts, draft.messages, 1)) < Bulk(texts, draft.messages)
  {
    var draft := Relieved(texts, request, answers, gate);
    var estimates, overs := Estimates(texts, request, answers, draft), Overs(request, answers);
    var q :| 0 <= q <= Recounts && SlipsAt(estimates, overs, request.usable, q);
    assert overs(0).Some? && estimates(0 + 1) != estimates(0);
    FirstRound(texts, request, answers, draft);
    RoundsFall(texts, request, answers, draft, q);
  }

  /** A history whose references cannot be made smaller again is answered within the window. */
  lemma WithinIfSpent(texts: Texts, request: Request, answers: Answers)
    requires !request.preview && Assemble(texts, request, answers).Assembled?
    requires
      var draft := Relieved(texts, request, answers, FirstGate(texts, request, answers));
      Reduced(texts, draft.messages, 1) == draft.messages
    ensures Assemble(texts, request, answers).count <= request.usable
  {
    WithinExactly(texts, request, answers);
    if Slips(texts, request, answers, FirstGate(texts, request, answers)) {
      SlipNeeds(texts, request, answers, FirstGate(texts, request, answers));
    }
  }

  /** The same first count and compaction, with other recounts. */
  function WithCounts(answers: Answers, recount: nat -> Option<nat>): Answers {
    answers.(recount := recount)
  }

  lemma SameBefore(texts: Texts, request: Request, answers: Answers, recount: nat -> Option<nat>, gate: nat)
    ensures var other := WithCounts(answers, recount);
      Relieved(texts, request, other, gate) == Relieved(texts, request, answers, gate) &&
      FirstGate(texts, request, other) == FirstGate(texts, request, answers)
  {
    assert Head(texts, request, WithCounts(answers, recount), gate) == Head(texts, request, answers, gate);
  }

  /** Nothing saturates, and the request's own overhead leaves the provider a count just over the window. */
  predicate Ordinary(texts: Texts, request: Request, draft: Draft) {
    Bulk(texts, draft.messages) + draft.prompt + request.tools + request.overhead <= Max &&
    request.overhead <= request.usable + 1 <= Max
  }

  /** The provider counts one token too many and then does not answer. */
  function OneTooMany(request: Request): nat -> Option<nat>
    requires request.overhead <= request.usable + 1
  {
    (round: nat) => if round == 0 then Some(request.usable + 1 - request.overhead) else None
  }

  lemma OneTooManyOvers(request: Request, answers: Answers)
    requires request.overhead <= request.usable + 1 <= Max && answers.recount == OneTooMany(request)
    ensures Over(request, answers, 0) == Some(1) && Over(request, answers, 1) == None
  {
    assert answers.recount(0) == Some(request.usable + 1 - request.overhead) && answers.recount(1).None?;
  }

  lemma FirstTwo(texts: Texts, request: Request, answers: Answers, draft: Draft)
    requires Over(request, answers, 0) == Some(1) && Count(texts, request, draft) > 0
    ensures Estimates(texts, request, answers, draft)(0) == Count(texts, request, draft)
    ensures Estimates(texts, request, answers, draft)(1) == Count(texts, request, Reduce(texts, draft, 1))
  {
    LeftNext(texts, request, answers, draft, 0);
    EstimateIs(texts, request, answers, draft, 0, draft);
    EstimateIs(texts, request, answers, draft, 1, Reduce(texts, draft, 1));
  }

  lemma SlipsFirst(estimates: nat -> nat, overs: nat -> Option<nat>, usable: nat)
    requires overs(0) == Some(1) && overs(1) == None && usable < estimates(1) < estimates(0)
    ensures SlipsAt(estimates, overs, usable, 1)
  {
    assert estimates(0 + 1) != estimates(0);
  }

  lemma OneTooManySlips(texts: Texts, request: Request, answers: Answers, draft: Draft)
    requires Ordinary(texts, request, draft) && answers.recount == OneTooMany(request)
    requires request.usable < Count(texts, request, Reduce(texts, draft, 1)) < Count(texts, request, draft)
    ensures SlipsAt(Estimates(texts, request, answers, draft), Overs(request, answers), request.usable, 1)
  {
    OneTooManyOvers(request, answers);
    FirstTwo(texts, request, answers, draft);
    SlipsFirst(Estimates(texts, request, answers, draft), Overs(request, answers), request.usable);
  }

  /** The call answers a request above the window. */
  predicate Above(texts: Texts, request: Request, answers: Answers) {
    var outcome := Assemble(texts, request, answers);
    !request.preview && outcome.Assembled? && outcome.count > outcome.usable
  }

  /**
   Which requests can be answered above the window, whatever the provider then counts: exactly
   those that are counted again after a relief and that a pass asked for one token more makes
   smaller and leaves above the window.
   */
  lemma WindowExactly(texts: Texts, request: Request, answers: Answers)
    requires Ordinary(texts, request, Relieved(texts, request, answers, FirstGate(texts, request, answers)))
    ensures var gate := FirstGate(texts, request, answers);
      var draft := Relieved(texts, request, answers, gate);
      (exists recount :: Above(texts, request, WithCounts(answers, recount))) <==>
      Recounted(texts, request, answers, gate) &&
      request.usable < Count(texts, request, Reduce(texts, draft, 1)) < Count(texts, request, draft)
  {
    var gate := FirstGate(texts, request, answers);
    var draft := Relieved(texts, request, answers, gate);
    if recount :| Above(texts, request, WithCounts(answers, recount)) {
      SameBefore(texts, request, answers, recount, gate);
      WithinExactly(texts, request, WithCounts(answers, recount));
      SlipNeeds(texts, request, WithCounts(answers, recount), gate);
      CountIs(texts, request, draft);
      CountIs(texts, request, Reduce(texts, draft, 1));
    }
    if Recounted(texts, request, answers, gate) &&
       request.usable < Count(texts, request, Reduce(texts, draft, 1)) < Count(texts, request, draft) {
      CanSlip(texts, request, answers);
    }
  }

  lemma CanSlip(texts: Texts, request: Request, answers: Answers)
    requires var gate := FirstGate(texts, request, answers);
      var draft := Relieved(texts, request, answers, gate);
      Ordinary(texts, request, draft) && Recounted(texts, request, answers, gate) &&
      request.usable < Count(texts, request, Reduce(texts, draft, 1)) < Count(texts, request, draft)
    ensures Above(texts, request, WithCounts(answers, OneTooMany(request)))
  {
    var gate := FirstGate(texts, request, answers);
    var draft, other := Relieved(texts, request, answers, gate), WithCounts(answers, OneTooMany(request));
    SameBefore(texts, request, answers, OneTooMany(request), gate);
    OneTooManySlips(texts, request, other, draft);
    WithinExactly(texts, request, other);
  }

  // ------------------------------------------------------------ a history of one result

  lemma OneMessage(texts: Texts, request: Request, m: Message, prompt: nat)
    ensures Count(texts, request, Draft([m], prompt)) ==
      Min(texts.size(m) + prompt + request.tools + request.overhead, Max)
  {
    var size := texts.size(m);
    assert Sizes(texts, Draft([m], prompt).messages) == [size];
    assert [size][..0] == [] && Sum([]) == 0 && Sum([size]) == Sum([size][..0]) + size;
  }

  lemma OneReduced(texts: Texts, m: Message, cut: Message, need: nat)
    requires m.results == 1 && need > 0
    requires cut == Cut(texts, [m], Place(0, 0), m) && texts.size(cut) < texts.size(m)
    ensures Reduced(texts, [m], need) == [cut]
  {
    var c := Candidate(Place(0, 0), texts.weight(m, 0));
    OneCandidate(texts, m);
    OneFits(m, c);
    OneTrimmed(texts, m, cut, c, need);
    ReducedIs(texts, [m], [c], [cut], need);
  }

  lemma OneFits(m: Message, c: Candidate)
    requires m.results > 0 && c.place == Place(0, 0)
    ensures Fits([c], [m])
  {
  }

  lemma ReducedIs(texts: Texts, messages: seq<Message>, order: seq<Candidate>, r: seq<Message>, need: nat)
    requires order == LargestFirst(Candidates(texts, messages)) && Fits(order, messages)
    requires Trim(texts, messages, messages, order, need) == r
    ensures Reduced(texts, messages, need) == r
  {
  }

  lemma OneTrimmed(texts: Texts, m: Message, cut: Message, c: Candidate, need: nat)
    requires m.results > 0 && need > 0 && c.place == Place(0, 0)
    requires cut == Cut(texts, [m], c.place, m) && texts.size(cut) < texts.size(m)
    ensures Trim(texts, [m], [m], [c], need) == [cut]
  {
    assert [m][0 := cut] == [cut] && [c][1..] == [];
    assert Trim(texts, [m], [cut], [], Less(need, texts.size(m) - texts.size(cut))) == [cut];
  }

  lemma OneCandidate(texts: Texts, m: Message)
    requires m.results == 1
    ensures LargestFirst(Candidates(texts, [m])) == [Candidate(Place(0, 0), texts.weight(m, 0))]
  {
    var c := Candidate(Place(0, 0), texts.weight(m, 0));
    assert [m][..0] == [] && Candidates(texts, []) == [];
    assert Candidates(texts, [m]) == Candidates(texts, [m][..0]) + [c];
    assert [c][..0] == [] && LargestFirst([]) == [];
    assert Insert([], c) == [c];
  }

  // ------------------------------------------------------------ what the answer holds

  lemma KeepsFrom(a: seq<Message>, b: seq<Message>, from: nat)
    requires Keeps(a, b) && from <= |a|
    ensures Keeps(a[from..], b[from..])
  {
  }

  /** The emergency passes rewrite results only. */
  lemma {:induction false} LeftKeeps(
    texts: Texts, request: Request, answers: Answers, start: Draft, rounds: nat)
    ensures Keeps(start.messages, Left(texts, request, answers, start, rounds).messages)
  {
    if rounds > 0 {
      var before := Left(texts, request, answers, start, rounds - 1);
      LeftKeeps(texts, request, answers, start, rounds - 1);
      KeepsTrans(start.messages, before.messages, Left(texts, request, answers, start, rounds).messages);
    }
  }

  lemma SettledKeeps(texts: Texts, request: Request, answers: Answers, gate: nat)
    ensures Keeps(Compacted(texts, request, answers, gate).messages, Settled(texts, request, answers, gate).0.messages)
  {
    var draft := Relieved(texts, request, answers, gate);
    var rounds := Settle(
      Estimates(texts, request, answers, draft), Overs(request, answers), request.usable, gate, 0).0;
    LeftKeeps(texts, request, answers, draft, rounds);
    KeepsTrans(Compacted(texts, request, answers, gate).messages, draft.messages,
      Left(texts, request, answers, draft, rounds).messages);
  }

  /** The messages from one a model sees on are those from its place in the request on. */
  lemma {:induction false} OriginsSplit(messages: seq<Message>, head: nat)
    requires head < |Shown(messages)|
    ensures var at := Origins(messages)[head];
      !messages[at].custom && Shown(messages[at..]) == Shown(messages)[head..]
  {
    var last := |messages| - 1;
    var front := messages[..last];
    if head < |Shown(front)| {
      OriginsSplit(front, head);
      ShownLast(messages, Origins(front)[head]);
      assert Origins(messages)[head] == Origins(front)[head];
    } else {
      ShownLast(messages, last);
      assert front[last..] == [];
    }
  }

  lemma ShownLast(messages: seq<Message>, from: nat)
    requires from < |messages|
    ensures var last := |messages| - 1;
      Shown(messages[from..]) ==
      Shown(messages[..last][from..]) + if messages[last].custom then [] else [messages[last]]
  {
    var last := |messages| - 1;
    assert messages[from..][..last - from] == messages[..last][from..];
    assert messages[from..][last - from] == messages[last];
  }

  /**
   What is answered is the suffix of the view behind the summarised head, in order and each
   message keeping all but the content of its results. The tail's start is reported as the
   place in the request. There is a message unless there was none, and the count is the
   estimate of what is answered. Where the compacted request is within the budget and no
   recount is over the window, the tail is what pruning left, verbatim.
   */
  lemma AnswersTail(texts: Texts, request: Request, answers: Answers, gate: nat)
    requires AssembleAt(texts, request, answers, gate).Assembled?
    ensures var outcome, head := AssembleAt(texts, request, answers, gate), Head(texts, request, answers, gate);
      head <= |View(texts, request)| &&
      Keeps(View(texts, request)[head..], outcome.draft.messages) &&
      (View(texts, request) != [] ==> outcome.draft.messages != []) &&
      outcome.count == Count(texts, request, outcome.draft) &&
      (Count(texts, request, Compacted(texts, request, answers, gate)) <= gate &&
       Over(request, answers, 0) in {None, Some(0)} ==>
         outcome.draft.messages == Pruned(texts, request, gate).messages[head..]) &&
      (head == 0 <==> outcome.tailStart.None?) &&
      (outcome.tailStart.Some? ==>
        var at := outcome.tailStart.value;
        at < |request.messages| && !request.messages[at].custom &&
        Shown(request.messages[at..]) == Shown(request.messages)[head..])
  {
    var view, head := View(texts, request), Head(texts, request, answers, gate);
    var pruned := Pruned(texts, request, gate).messages;
    var compacted := Compacted(texts, request, answers, gate).messages;
    KeepsTrans(view, Capped(texts, request).messages, pruned);
    KeepsFrom(view, pruned, head);
    assert pruned[head..] == compacted;
    SettledKeeps(texts, request, answers, gate);
    KeepsTrans(view[head..], compacted, Settled(texts, request, answers, gate).0.messages);
    if head > 0 { OriginsSplit(request.messages, head); }
  }

  // ------------------------------------------------------------ the call

  /** The messages a model sees and where they stand in the request. */
  method CollectView(messages: seq<Message>) returns (working: seq<Message>, origins: seq<nat>)
    ensures working == Shown(messages) && origins == Origins(messages)
  {
    working, origins := [], [];
    for i := 0 to |messages|
      invariant working == Shown(messages[..i]) && origins == Origins(messages[..i])
    {
      assert messages[..i + 1][..i] == messages[..i];
      if !messages[i].custom { working, origins := working + [messages[i]], origins + [i]; }
    }
    assert messages[..|messages|] == messages;
  }

  lemma LeftNext(texts: Texts, request: Request, answers: Answers, start: Draft, round: nat)
    requires Over(request, answers, round).Some?
    ensures var estimates, over := Estimates(texts, request, answers, start), Over(request, answers, round).value;
      var draft := Left(texts, request, answers, start, round);
      Left(texts, request, answers, start, round + 1) ==
      Draft(Reduced(texts, draft.messages, Less(estimates(round), Less(estimates(round), over))), draft.prompt)
  {
  }

  lemma EstimateIs(
    texts: Texts, request: Request, answers: Answers, start: Draft, rounds: nat, draft: Draft)
    requires draft == Left(texts, request, answers, start, rounds)
    ensures Estimates(texts, request, answers, start)(rounds) == Count(texts, request, draft)
  {
  }

  /** The estimate of a draft from its memo. */
  method TotalOf(texts: Texts, request: Request, draft: Draft, memo: seq<nat>) returns (count: nat)
    requires memo == Sizes(texts, draft.messages)
    ensures count == Count(texts, request, draft)
  {
    count := Total(memo, draft.prompt, request.tools, request.overhead);
  }

  /** One more emergency pass, asked for what the count is over by. */
  method ReduceAgain(
    texts: Texts, request: Request, ghost answers: Answers, ghost start: Draft,
    draft: Draft, sizes: seq<nat>, count: nat, gate: nat, ghost round: nat)
    returns (next: Draft, memo: seq<nat>, total: nat)
    requires draft == Left(texts, request, answers, start, round) && sizes == Sizes(texts, draft.messages)
    requires count == Estimates(texts, request, answers, start)(round) && Over(request, answers, round).Some?
    requires gate == Less(count, Over(request, answers, round).value)
    ensures next == Left(texts, request, answers, start, round + 1) && memo == Sizes(texts, next.messages)
    ensures total == Estimates(texts, request, answers, start)(round + 1)
  {
    LeftNext(texts, request, answers, start, round);
    var messages;
    messages, memo := ReduceResults(texts, draft.messages, sizes, Less(count, gate));
    next := Draft(messages, draft.prompt);
    total := TotalOf(texts, request, next, memo);
    EstimateIs(texts, request, answers, start, round + 1, next);
  }

  /** Where a round leaves the rounds: settled after so many passes, or with the next round to come. */
  ghost predicate After(
    estimates: nat -> nat, overs: nat -> Option<nat>, usable: nat, gate: nat, round: nat,
    settled: bool, passes: nat, now: nat)
    requires round <= Recounts
  {
    var whole := Settle(estimates, overs, usable, gate, round);
    if settled then whole == (passes, now)
    else passes == round + 1 <= Recounts && whole == Settle(estimates, overs, usable, now, passes)
  }

  lemma RoundAfter(
    estimates: nat -> nat, overs: nat -> Option<nat>, usable: nat, gate: nat, round: nat,
    settled: bool, passes: nat, now: nat)
    requires round <= Recounts
    requires overs(round).None? ==> settled && passes == round && now == gate
    requires overs(round) == Some(0) ==> settled && passes == round && now == usable
    requires overs(round).Some? && overs(round).value > 0 ==> now == Less(estimates(round), overs(round).value)
    requires overs(round).Some? && overs(round).value > 0 && round == Recounts ==> settled && passes == round
    requires overs(round).Some? && overs(round).value > 0 && round < Recounts ==>
      passes == round + 1 && settled == (estimates(round + 1) == estimates(round))
    ensures After(estimates, overs, usable, gate, round, settled, passes, now)
  {
  }

  /** One round: count, and reduce again if the count is over the window. */
  method OneRound(
    texts: Texts, request: Request, answers: Answers, ghost start: Draft,
    was: Draft, sizes: seq<nat>, total: nat, gate: nat, round: nat)
    returns (draft: Draft, memo: seq<nat>, count: nat, now: nat, settled: bool, ghost passes: nat)
    requires round <= Recounts && sizes == Sizes(texts, was.messages)
    requires was == Left(texts, request, answers, start, round)
    requires total == Estimates(texts, request, answers, start)(round)
    ensures memo == Sizes(texts, draft.messages) && draft == Left(texts, request, answers, start, passes)
    ensures !settled ==> count == Estimates(texts, request, answers, start)(passes)
    ensures After(Estimates(texts, request, answers, start), Overs(request, answers), request.usable, gate, round,
      settled, passes, now)
  {
    draft, memo, count, now, settled, passes := was, sizes, total, gate, true, round;
    if answers.recount(round).Some? {
      var counted := Plus(answers.recount(round).value, request.overhead);
      now := if counted <= request.usable then request.usable else Less(total, counted - request.usable);
      if counted > request.usable && round < Recounts {
        draft, memo, count := ReduceAgain(texts, request, answers, start, was, sizes, total, now, round);
        settled, passes := count == total, round + 1;
      }
    }
    RoundAfter(Estimates(texts, request, answers, start), Overs(request, answers), request.usable, gate, round,
      settled, passes, now);
  }

  /** The rounds of counting and reducing. */
  method Recount(
    texts: Texts, request: Request, answers: Answers, start: Draft, sizes: seq<nat>, total: nat, first: nat)
    returns (draft: Draft, memo: seq<nat>, gate: nat)
    requires sizes == Sizes(texts, start.messages) && total == Count(texts, request, start)
    ensures (draft, gate) == Rounds(texts, request, answers, start, first)
    ensures memo == Sizes(texts, draft.messages)
  {
    draft, memo, gate := start, sizes, first;
    var count, round, settled := total, 0, false;
    EstimateIs(texts, request, answers, start, 0, start);
    ghost var estimates, overs := Estimates(texts, request, answers, start), Overs(request, answers);
    ghost var passes := 0;
    while !settled
      invariant memo == Sizes(texts, draft.messages) && draft == Left(texts, request, answers, start, passes)
      invariant !settled ==> round == passes && 0 <= round <= Recounts && count == estimates(round)
      invariant Settle(estimates, overs, request.usable, first, 0) ==
        if settled then (passes, gate) else Settle(estimates, overs, request.usable, gate, round)
      decreases !settled, Recounts - round
    {
      draft, memo, count, gate, settled, passes :=
        OneRound(texts, request, answers, start, draft, memo, count, gate, round);
      if !settled { round := round + 1; }
    }
  }

  /** Pruning and compacting, the memo cut with the messages. */
  method PruneAndCompact(texts: Texts, request: Request, answers: Answers, capped: Draft, gate: nat)
    returns (draft: Draft, memo: seq<nat>, head: nat)
    requires capped == Capped(texts, request)
    ensures draft == Compacted(texts, request, answers, gate) && memo == Sizes(texts, draft.messages)
    ensures head == Head(texts, request, answers, gate)
  {
    draft, memo, head := capped, Sizes(texts, capped.messages), 0;
    var count := TotalOf(texts, request, draft, memo);
    if request.pruning && count > gate {
      draft := draft.(messages := RewriteResults(draft.messages, texts.prune));
      memo := Sizes(texts, draft.messages);
      count := TotalOf(texts, request, draft, memo);
    }
    if !request.preview && count > gate && request.compacting && answers.compaction.Some? {
      var taken := answers.compaction.value;
      if 0 < taken.head < |draft.messages| {
        head := taken.head;
        draft, memo := Draft(draft.messages[head..], taken.prompt), memo[head..];
      }
    }
  }

  /** The first emergency pass. */
  method ReduceFirst(texts: Texts, request: Request, compacted: Draft, sizes: seq<nat>, gate: nat)
    returns (draft: Draft, memo: seq<nat>, count: nat)
    requires sizes == Sizes(texts, compacted.messages)
    ensures draft ==
      if !request.preview && Count(texts, request, compacted) > gate
      then Reduce(texts, compacted, Count(texts, request, compacted) - gate) else compacted
    ensures memo == Sizes(texts, draft.messages) && count == Count(texts, request, draft)
  {
    draft, memo := compacted, sizes;
    count := TotalOf(texts, request, draft, memo);
    if !request.preview && count > gate {
      var messages;
      messages, memo := ReduceResults(texts, draft.messages, memo, count - gate);
      draft := draft.(messages := messages);
      count := TotalOf(texts, request, draft, memo);
    }
  }

  /** Pruning, compacting and the first emergency pass. */
  method Relieve(texts: Texts, request: Request, answers: Answers, capped: Draft, gate: nat)
    returns (draft: Draft, memo: seq<nat>, count: nat, head: nat)
    requires capped == Capped(texts, request)
    ensures draft == Relieved(texts, request, answers, gate) && memo == Sizes(texts, draft.messages)
    ensures count == Count(texts, request, draft) && head == Head(texts, request, answers, gate)
  {
    draft, memo, head := PruneAndCompact(texts, request, answers, capped, gate);
    draft, memo, count := ReduceFirst(texts, request, draft, memo, gate);
  }

  /** The recounts, if they are due. */
  method SettleDraft(texts: Texts, request: Request, answers: Answers,
    relieved: Draft, sizes: seq<nat>, total: nat, estimate: nat, first: nat)
    returns (draft: Draft, count: nat, gate: nat)
    requires sizes == Sizes(texts, relieved.messages) && total == Count(texts, request, relieved)
    ensures (draft, gate) == SettledFrom(texts, request, answers, relieved, estimate, first)
    ensures count == Count(texts, request, draft)
  {
    draft, count, gate := relieved, total, first;
    if !request.preview && gate < request.usable && count < estimate {
      var memo;
      draft, memo, gate := Recount(texts, request, answers, relieved, sizes, total, first);
      count := TotalOf(texts, request, draft, memo);
    }
  }

  /** The steps behind the first count. */
  method AssembleGated(
    texts: Texts, request: Request, answers: Answers, capped: Draft, estimate: nat, origins: seq<nat>, first: nat)
    returns (outcome: Outcome)
    requires capped == Capped(texts, request) && estimate == Count(texts, request, capped)
    requires origins == Origins(request.messages)
    ensures outcome == AssembleAt(texts, request, answers, first)
  {
    var draft, memo, count, head := Relieve(texts, request, answers, capped, first);
    var gate;
    draft, count, gate := SettleDraft(texts, request, answers, draft, memo, count, estimate, first);
    if !request.preview && count > gate { return Overflow(count, gate); }
    return Assembled(draft, count, request.usable, if head > 0 then Some(origins[head]) else None);
  }

  /** A whole call. */
  method AssembleRequest(texts: Texts, request: Request, answers: Answers) returns (outcome: Outcome)
    ensures outcome == Assemble(texts, request, answers)
  {
    var working, origins := CollectView(request.messages);
    var draft := Draft(Rewrite(working, texts.media), request.prompt);
    if request.capping { draft := draft.(messages := RewriteResults(draft.messages, texts.cap)); }
    var estimate := TotalOf(texts, request, draft, Sizes(texts, draft.messages));
    var gate := Gate(request, draft.messages == [], estimate, answers.first);
    outcome := AssembleGated(texts, request, answers, draft, estimate, origins, gate);
  }

  // ------------------------------------------------------------ what each step does, and when

  /** The provider's count is asked for once the estimate reaches a third of the window. */
  predicate Asks(request: Request, empty: bool, estimate: nat, counted: Option<nat>) {
    !empty && request.usable <= 3 * estimate && counted.Some?
  }

  /**
   The budget is the window, unless the provider counts more than the estimate: then it is the
   largest estimate that, at that rate, the provider would count within the window.
   */
  lemma GateExactly(request: Request, empty: bool, estimate: nat, counted: Option<nat>)
    requires request.usable <= 0xFFFF_FFFF_FFFF_FFFF
    ensures var gate := Gate(request, empty, estimate, counted);
      if Asks(request, empty, estimate, counted) &&
         Min(counted.value + request.overhead, 0xFFFF_FFFF_FFFF_FFFF) > estimate
      then
        var c := Min(counted.value + request.overhead, 0xFFFF_FFFF_FFFF_FFFF);
        Product(gate, c) <= Product(request.usable, estimate) < Product(gate, c) + c
      else gate == request.usable
  {
    if counted.Some? {
      var c := Plus(counted.value, request.overhead);
      if c > estimate { Divided(Product(request.usable, estimate), c); }
    }
  }

  lemma Divided(a: nat, c: nat)
    requires c > 0
    ensures Product(a / c, c) <= a < Product(a / c, c) + c
  {
  }

  /** The results of a history as `content` rewrites them, nothing else changed. */
  ghost predicate Rewritten(before: seq<Message>, after: seq<Message>, content: (seq<Message>, nat) -> string) {
    && |after| == |before|
    && forall i :: 0 <= i < |before| ==>
         after[i] == if before[i].results > 0 then before[i].(content := content(before, i)) else before[i]
  }

  /** Single results are capped if the request allows it, and nothing else happens to it first. */
  lemma CappedExactly(texts: Texts, request: Request)
    ensures var view, capped := View(texts, request), Capped(texts, request);
      && capped.prompt == request.prompt
      && (request.capping ==> Rewritten(view, capped.messages, texts.cap))
      && (!request.capping ==> capped.messages == view)
  {
  }

  /** Aged results are pruned exactly if the request allows it and is over the budget. */
  lemma PrunedExactly(texts: Texts, request: Request, gate: nat)
    ensures var capped, pruned := Capped(texts, request), Pruned(texts, request, gate);
      && pruned.prompt == capped.prompt
      && if request.pruning && Count(texts, request, capped) > gate
         then Rewritten(capped.messages, pruned.messages, texts.prune) else pruned.messages == capped.messages
  {
  }

  /** A head is summarised away exactly if the request is still over the budget and a compaction comes to something. */
  lemma CompactedExactly(texts: Texts, request: Request, answers: Answers, gate: nat)
    ensures var pruned, compacted := Pruned(texts, request, gate), Compacted(texts, request, answers, gate);
      if !request.preview && request.compacting && Count(texts, request, pruned) > gate && answers.compaction.Some?
         && 0 < answers.compaction.value.head < |pruned.messages|
      then
        && compacted.messages == pruned.messages[answers.compaction.value.head..]
        && compacted.prompt == answers.compaction.value.prompt
      else compacted == pruned
  {
  }

  /** Results are replaced by references exactly if the request is over the budget even then, by what it is over. */
  lemma RelievedExactly(texts: Texts, request: Request, answers: Answers, gate: nat)
    ensures var compacted := Compacted(texts, request, answers, gate);
      var relieved := Relieved(texts, request, answers, gate);
      && relieved.prompt == compacted.prompt
      && var count := Count(texts, request, compacted);
         relieved.messages == if !request.preview && count > gate then Reduced(texts, compacted.messages, count - gate)
                              else compacted.messages
  {
  }

  /** A pass of the recounts is asked for what the count is over the window, as far as the estimate goes. */
  lemma LeftExactly(texts: Texts, request: Request, answers: Answers, start: Draft, round: nat)
    ensures var draft, next :=
        Left(texts, request, answers, start, round), Left(texts, request, answers, start, round + 1);
      var counted := answers.recount(round);
      && next.prompt == draft.prompt
      && next.messages ==
           if counted.None? then draft.messages
           else Reduced(texts, draft.messages, Min(Excess(request, counted.value), Count(texts, request, draft)))
  {
    var draft := Left(texts, request, answers, start, round);
    if answers.recount(round).Some? {
      var over := Over(request, answers, round).value;
      assert over == Excess(request, answers.recount(round).value);
      AtMost(over, Count(texts, request, draft));
    }
  }

  /** By how much a count, with the request's overhead, is over the window. */
  function Excess(request: Request, counted: nat): nat {
    var c := Min(counted + request.overhead, 0xFFFF_FFFF_FFFF_FFFF);
    if c > request.usable then c - request.usable else 0
  }

  lemma AtMost(over: nat, count: nat)
    ensures Less(count, Less(count, over)) == Min(over, count)
  {
  }

  /** The budget what is left before round `q` is held to, if the provider does not answer it. */
  function GateAt(estimates: nat -> nat, overs: nat -> Option<nat>, gate: nat, q: nat): nat {
    if q == 0 then gate
    else if overs(q - 1).Some? then Less(estimates(q - 1), overs(q - 1).value)
    else gate
  }

  /**
   The recounts, exactly: they go on while the provider counts over the window and each pass
   takes something off, for three passes at most, and end at the first round where that is not so.
   */
  lemma {:induction false} SettleExactly(
    estimates: nat -> nat, overs: nat -> Option<nat>, usable: nat, gate: nat, round: nat) returns (q: nat)
    requires round <= 3 && Reaches(estimates, overs, round)
    ensures round <= q <= 3 && Reaches(estimates, overs, q)
    ensures Settle(estimates, overs, usable, GateAt(estimates, overs, gate, round), round) ==
      if overs(q).None? then (q, GateAt(estimates, overs, gate, q))
      else if overs(q).value == 0 then (q, usable)
      else (if q == 3 then 3 else q + 1, Less(estimates(q), overs(q).value))
    ensures overs(q).None? || overs(q).value == 0 || q == 3 || estimates(q + 1) == estimates(q)
    decreases 3 - round
  {
    q := round;
    if round < 3 && overs(round).Some? && overs(round).value > 0 && estimates(round + 1) != estimates(round) {
      assert GateAt(estimates, overs, gate, round + 1) == Less(estimates(round), overs(round).value);
      q := SettleExactly(estimates, overs, usable, gate, round + 1);
    }
  }

  /**
   What a call answers: the request is counted again exactly if the budget is below the window and the
   steps took something off, and is refused exactly if it is over its last budget. A preview is never
   refused, and a request that fits as it is goes out as it is.
   */
  lemma AnswersExactly(texts: Texts, request: Request, answers: Answers, gate: nat)
    ensures var outcome, draft := AssembleAt(texts, request, answers, gate), Relieved(texts, request, answers, gate);
      var again := !request.preview && gate < request.usable &&
        Count(texts, request, draft) < Count(texts, request, Capped(texts, request));
      var (last, budget) := if again then Rounds(texts, request, answers, draft, gate) else (draft, gate);
      var count := Count(texts, request, last);
      if !request.preview && count > budget then outcome == Overflow(count, budget)
      else outcome.Assembled? && outcome.draft == last && outcome.count == count && outcome.usable == request.usable
    ensures Count(texts, request, Capped(texts, request)) <= gate ==>
      AssembleAt(texts, request, answers, gate) ==
        Assembled(Capped(texts, request), Count(texts, request, Capped(texts, request)), request.usable, None)
  {
  }

  /** The view is what the model sees, each content normalised and nothing else changed. */
  lemma ViewExactly(texts: Texts, request: Request, i: nat)
    requires i < |Shown(request.messages)|
    ensures var shown := Shown(request.messages);
      && |View(texts, request)| == |shown|
      && View(texts, request)[i] == shown[i].(content := texts.media(shown, i))
  {
  }

  predicate Earlier(a: Place, b: Place) {
    a.message < b.message || (a.message == b.message && a.result < b.result)
  }

  ghost predicate InOrder(candidates: seq<Candidate>) {
    forall i, j :: 0 <= i < j < |candidates| ==> Earlier(candidates[i].place, candidates[j].place)
  }

  /** Of equally heavy ones the earlier comes first. */
  ghost predicate TiesInOrder(candidates: seq<Candidate>) {
    forall i, j :: 0 <= i < j < |candidates| && candidates[i].weight == candidates[j].weight ==>
      Earlier(candidates[i].place, candidates[j].place)
  }

  lemma {:induction false} CandidatesInOrder(texts: Texts, messages: seq<Message>)
    ensures InOrder(Candidates(texts, messages))
    ensures forall i :: 0 <= i < |Candidates(texts, messages)| ==>
      Candidates(texts, messages)[i].place.message < |messages|
  {
    if messages != [] { CandidatesInOrder(texts, messages[..|messages| - 1]); }
  }

  lemma {:induction false} InsertInOrder(sorted: seq<Candidate>, c: Candidate)
    requires Descending(sorted) && TiesInOrder(sorted)
    requires forall i :: 0 <= i < |sorted| ==> Earlier(sorted[i].place, c.place)
    ensures TiesInOrder(Insert(sorted, c))
  {
    if sorted != [] && sorted[0].weight >= c.weight {
      var rest := sorted[1..];
      InsertInOrder(rest, c);
      InsertHolds(rest, c);
      var r := Insert(rest, c);
      forall j | 0 <= j < |r| && r[j].weight == sorted[0].weight ensures Earlier(sorted[0].place, r[j].place) {
        assert r[j] in multiset(r);
        if r[j] != c {
          assert r[j] in rest;
          var k :| 0 <= k < |rest| && rest[k] == r[j];
          assert sorted[k + 1] == r[j];
        }
      }
    }
  }

  lemma {:induction false} LargestFirstInOrder(candidates: seq<Candidate>)
    requires InOrder(candidates)
    ensures TiesInOrder(LargestFirst(candidates))
  {
    if candidates != [] {
      var init, c := candidates[..|candidates| - 1], candidates[|candidates| - 1];
      LargestFirstInOrder(init);
      LargestFirstIs(init);
      var sorted := LargestFirst(init);
      forall i | 0 <= i < |sorted| ensures Earlier(sorted[i].place, c.place) {
        assert sorted[i] in multiset(sorted);
        var k :| 0 <= k < |init| && init[k] == sorted[i];
        assert candidates[k] == init[k];
      }
      InsertInOrder(sorted, c);
    }
  }

  /** The pass takes the largest result first, and of equally large ones the earlier. */
  lemma PassOrder(texts: Texts, messages: seq<Message>, i: nat, j: nat)
    requires i < j < |LargestFirst(Candidates(texts, messages))|
    ensures var order := LargestFirst(Candidates(texts, messages));
      || order[i].weight > order[j].weight
      || (order[i].weight == order[j].weight && Earlier(order[i].place, order[j].place))
  {
    CandidatesInOrder(texts, messages);
    LargestFirstInOrder(Candidates(texts, messages));
    LargestFirstIs(Candidates(texts, messages));
  }
}
