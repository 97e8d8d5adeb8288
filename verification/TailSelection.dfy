/**
 Where a compaction cuts a history: everything before the cut is summarised, the tail from the
 cut on is kept verbatim. The tail may begin only at an assistant message or at a user message
 that carries no function result, so that a call and its result stay on one side, and it is
 never empty.
 */
module TailSelection {
  import opened Options

  datatype Role = User | Assistant | FunctionResult | Custom

  type CallId = string

  /**
   A message: its role, the calls it leaves open, the results of earlier messages' calls it
   carries, and its estimated size.
   */
  datatype Message = Message(role: Role, calls: set<CallId>, results: set<CallId>, size: nat)

  /** The tail may start at an assistant message, or at a user message without inline results. */
  predicate SafeCut(m: Message) {
    m.role.Assistant? || (m.role.User? && m.results == {})
  }

  /** The size of the tail from `i` on. */
  function Tail(ms: seq<Message>, i: nat): nat
    requires i <= |ms|
    decreases |ms| - i
  {
    if i == |ms| then 0 else ms[i].size + Tail(ms, i + 1)
  }

  lemma {:induction false} TailShrinks(ms: seq<Message>, i: nat, j: nat)
    requires i <= j <= |ms|
    ensures Tail(ms, j) <= Tail(ms, i)
    decreases j - i
  {
    if i < j { TailShrinks(ms, i + 1, j); }
  }

  /** A place where the history may be cut. */
  predicate Cut(ms: seq<Message>, i: nat) {
    0 < i < |ms| && SafeCut(ms[i])
  }

  /**
   The places to cut, exactly: behind the first message, at an assistant message or at a user
   message that carries no result; never at a function result and never at a custom message.
   */
  lemma CutExactly(ms: seq<Message>, i: nat)
    requires i < |ms|
    ensures Cut(ms, i) <==>
      i > 0 && ms[i].role != FunctionResult && ms[i].role != Custom && (ms[i].role == Assistant || |ms[i].results| == 0)
  {
    assert |ms[i].results| == 0 <==> ms[i].results == {};
  }

  // ------------------------------------------------------------ calls and results

  predicate Mentions(m: Message, c: CallId) {
    c in m.calls || c in m.results
  }

  /** The message at `j` is the first after `i` to speak of the call, and carries its result. */
  ghost predicate AnswersAt(ms: seq<Message>, i: nat, j: nat, c: CallId) {
    i <= j < |ms| && c in ms[j].results && forall m :: i <= m < j ==> !Mentions(ms[m], c)
  }

  /** A call made at `i` has its result at `j`. */
  ghost predicate Pair(ms: seq<Message>, i: nat, j: nat, c: CallId) {
    i < j && i < |ms| && c in ms[i].calls && AnswersAt(ms, i + 1, j, c)
  }

  /** A cut at `k` has a call before it and the call's result behind it. */
  ghost predicate Splits(ms: seq<Message>, k: nat) {
    exists i: nat, j: nat, c :: i < k <= j && Pair(ms, i, j, c)
  }

  /** The calls made before `k` whose result has not come before `k`. */
  function Awaited(ms: seq<Message>, k: nat): set<CallId>
    requires k <= |ms|
  {
    if k == 0 then {} else (Awaited(ms, k - 1) - ms[k - 1].results) + ms[k - 1].calls
  }

  /** The last message before `k` that speaks of the call makes it, at `i`. */
  ghost predicate OpenFrom(ms: seq<Message>, i: nat, k: nat, c: CallId) {
    i < k <= |ms| && c in ms[i].calls && forall m :: i < m < k ==> !Mentions(ms[m], c)
  }

  lemma {:induction false} AwaitedIs(ms: seq<Message>, k: nat, c: CallId)
    requires k <= |ms|
    ensures c in Awaited(ms, k) <==> exists i :: 0 <= i < k && OpenFrom(ms, i, k, c)
  {
    if k > 0 {
      AwaitedIs(ms, k - 1, c);
      if c in ms[k - 1].calls {
        assert OpenFrom(ms, k - 1, k, c);
      } else if c !in ms[k - 1].results && c in Awaited(ms, k - 1) {
        var i :| 0 <= i < k - 1 && OpenFrom(ms, i, k - 1, c);
        assert OpenFrom(ms, i, k, c);
      }
      if i :| 0 <= i < k && OpenFrom(ms, i, k, c) && i < k - 1 {
        assert !Mentions(ms[k - 1], c);
        assert OpenFrom(ms, i, k - 1, c);
      }
    }
  }

  /** A call awaited at `k` gets its result from `k` on. */
  ghost predicate Answered(ms: seq<Message>, k: nat, c: CallId) {
    exists j: nat :: AnswersAt(ms, k, j, c)
  }

  /** A cut separates a call from its result exactly if a call is awaited there and answered after. */
  lemma SplitsExactly(ms: seq<Message>, k: nat)
    requires k <= |ms|
    ensures Splits(ms, k) <==> exists c :: c in Awaited(ms, k) && Answered(ms, k, c)
  {
    if i: nat, j: nat, c :| i < k <= j && Pair(ms, i, j, c) {
      AwaitedIs(ms, k, c);
      assert OpenFrom(ms, i, k, c);
      assert AnswersAt(ms, k, j, c);
    }
    if c :| c in Awaited(ms, k) && Answered(ms, k, c) {
      AwaitedIs(ms, k, c);
      var i :| 0 <= i < k && OpenFrom(ms, i, k, c);
      var j: nat :| AnswersAt(ms, k, j, c);
      assert AnswersAt(ms, i + 1, j, c);
      assert Pair(ms, i, j, c);
    }
  }

  /** Every call gets its result before it is spoken of otherwise. */
  ghost predicate Complete(ms: seq<Message>) {
    forall k, c :: 0 <= k <= |ms| && c in Awaited(ms, k) ==> k < |ms| && Answered(ms, k, c)
  }

  /** No message the tail could start at stands while a call is awaited. */
  ghost predicate Uninterrupted(ms: seq<Message>) {
    forall k :: Cut(ms, k) ==> Awaited(ms, k) == {}
  }

  /** In such a history no cut separates a call from its result. */
  lemma CutKeepsPairs(ms: seq<Message>, k: nat)
    requires Uninterrupted(ms) && (k == 0 || Cut(ms, k))
    ensures !Splits(ms, k)
  {
    SplitsExactly(ms, k);
  }

  /** And of the complete histories it is exactly these that every cut leaves whole. */
  lemma PairsKeptExactly(ms: seq<Message>)
    requires Complete(ms)
    ensures (forall k :: Cut(ms, k) ==> !Splits(ms, k)) <==> Uninterrupted(ms)
  {
    forall k: nat | Cut(ms, k) ensures Splits(ms, k) <==> Awaited(ms, k) != {} {
      SplitsExactly(ms, k);
      if c :| c in Awaited(ms, k) { assert Answered(ms, k, c); }
    }
  }

  /** Another answer between a call and its result is a place to cut that separates the two. */
  lemma AssistantBetweenSplits(c: CallId) returns (ms: seq<Message>)
    ensures |ms| == 4 && Cut(ms, 2) && Splits(ms, 2)
  {
    ms := [Message(User, {}, {}, 1), Message(Assistant, {c}, {}, 1), Message(Assistant, {}, {}, 1),
           Message(FunctionResult, {}, {c}, 1)];
    assert AnswersAt(ms, 2, 3, c);
    assert Pair(ms, 1, 3, c);
  }

  // ------------------------------------------------------------ turns

  /** How many turns begin at or after `k`. */
  function Users(ms: seq<Message>, k: nat): nat
    requires k <= |ms|
    decreases |ms| - k
  {
    if k == |ms| then 0 else (if ms[k].role.User? then 1 else 0) + Users(ms, k + 1)
  }

  /** The first user message at or after `k`, or the end. */
  function NextUser(ms: seq<Message>, k: nat): (r: nat)
    requires k <= |ms|
    ensures k <= r <= |ms| && (forall m :: k <= m < r ==> !ms[m].role.User?) && (r < |ms| ==> ms[r].role.User?)
    decreases |ms| - k
  {
    if k == |ms| || ms[k].role.User? then k else NextUser(ms, k + 1)
  }

  lemma {:induction false} NoUsers(ms: seq<Message>, i: nat, j: nat)
    requires i <= j <= |ms| && forall k :: i <= k < j ==> !ms[k].role.User?
    ensures Users(ms, i) == Users(ms, j)
    decreases j - i
  {
    if i < j { NoUsers(ms, i + 1, j); }
  }

  /** The turns of a history: where its user messages are. */
  ghost predicate Turns(ms: seq<Message>, starts: seq<nat>) {
    && (forall i :: 0 <= i < |starts| ==> starts[i] < |ms| && ms[starts[i]].role.User?)
    && (forall i, j :: 0 <= i < j < |starts| ==> starts[i] < starts[j])
    && (forall k :: 0 <= k < |ms| && ms[k].role.User? ==> k in starts)
  }

  function End(ms: seq<Message>, starts: seq<nat>, t: nat): nat {
    if t + 1 < |starts| then starts[t + 1] else |ms|
  }

  /** The turn at `t` is the last but so many, and ends where the next one begins. */
  lemma {:induction false} TurnIs(ms: seq<Message>, starts: seq<nat>, t: nat)
    requires Turns(ms, starts) && t < |starts|
    ensures starts[t] < End(ms, starts, t) <= |ms| && NextUser(ms, starts[t] + 1) == End(ms, starts, t)
    ensures Users(ms, starts[t]) == |starts| - t
    decreases |starts| - t
  {
    var next := End(ms, starts, t);
    forall k | starts[t] + 1 <= k < next ensures !ms[k].role.User? {
      forall u | 0 <= u < |starts| ensures starts[u] != k {
        assert u < t ==> starts[u] < starts[t];
        assert u > t + 1 ==> starts[t + 1] < starts[u];
      }
    }
    assert t + 1 < |starts| ==> starts[t] < starts[t + 1];
    NoUsers(ms, starts[t] + 1, next);
    if t + 1 < |starts| { TurnIs(ms, starts, t + 1); }
  }

  method TurnStarts(ms: seq<Message>) returns (starts: seq<nat>)
    ensures Turns(ms, starts)
  {
    starts := [];
    for k := 0 to |ms|
      invariant forall i :: 0 <= i < |starts| ==> starts[i] < k && ms[starts[i]].role.User?
      invariant forall i, j :: 0 <= i < j < |starts| ==> starts[i] < starts[j]
      invariant forall j :: 0 <= j < k && ms[j].role.User? ==> j in starts
    {
      if ms[k].role.User? { starts := starts + [k]; }
    }
  }

  // ------------------------------------------------------------ the parts of the search

  /** The newest cut, if there is one. */
  method LatestCut(ms: seq<Message>) returns (r: Option<nat>)
    ensures r.Some? ==> Cut(ms, r.value) && forall k :: r.value < k < |ms| ==> !Cut(ms, k)
    ensures r.None? ==> forall k :: !Cut(ms, k)
  {
    var i := |ms|;
    while i > 1
      invariant 0 <= i <= |ms|
      invariant forall k :: i <= k < |ms| ==> !Cut(ms, k)
    {
      i := i - 1;
      if SafeCut(ms[i]) { return Some(i); }
    }
    return None;
  }

  /** A cut inside a turn whose tail fits, with room left by what follows the turn. */
  predicate FitsInside(ms: seq<Message>, start: nat, end: nat, budget: nat, k: nat)
    requires end <= |ms|
  {
    start < k < end && SafeCut(ms[k]) && Tail(ms, k) <= budget && Tail(ms, end) < budget
  }

  /** The oldest such cut. */
  method SplitTurn(ms: seq<Message>, start: nat, end: nat, budget: nat) returns (r: Option<nat>)
    requires start <= end <= |ms| && Tail(ms, end) <= budget
    ensures SplitAt(ms, start, end, budget, r)
  {
    var room := budget - Tail(ms, end);
    if room == 0 || end - start <= 1 { return None; }
    for k := start + 1 to end
      invariant forall j :: 0 <= j < k ==> !FitsInside(ms, start, end, budget, j)
    {
      if SafeCut(ms[k]) && Tail(ms, k) - Tail(ms, end) <= room { return Some(k); }
    }
    return None;
  }

  // ------------------------------------------------------------ the selection

  /**
   Where a tail within the budget may begin: at a safe user message of the recent turns, or
   inside the recent turn that does not fit, at a safe cut from which on it does.
   */
  ghost predicate Candidate(ms: seq<Message>, budget: nat, turns: nat, k: nat) {
    k < |ms| && SafeCut(ms[k]) && Tail(ms, k) <= budget &&
    if ms[k].role.User? then Users(ms, k) <= turns
    else exists u :: 0 <= u < k && SplitsTurn(ms, budget, turns, u, k)
  }

  predicate SplitsTurn(ms: seq<Message>, budget: nat, turns: nat, u: nat, k: nat)
    requires u < |ms|
  {
    ms[u].role.User? && Users(ms, u) <= turns && Tail(ms, u) > budget &&
    FitsInside(ms, u, NextUser(ms, u + 1), budget, k)
  }

  /** The oldest candidate, if there is one. */
  ghost predicate Oldest(ms: seq<Message>, budget: nat, turns: nat, keep: Option<nat>) {
    if keep.Some? then
      Candidate(ms, budget, turns, keep.value) && forall k :: 0 <= k < keep.value ==> !Candidate(ms, budget, turns, k)
    else forall k :: 0 <= k < |ms| ==> !Candidate(ms, budget, turns, k)
  }

  /** The oldest safe turn from `t` on. */
  ghost predicate OldestTurn(ms: seq<Message>, starts: seq<nat>, t: nat, keep: Option<nat>)
    requires Turns(ms, starts)
  {
    if keep.Some? then
      exists u :: t <= u < |starts| && OldestTurnAt(ms, starts, t, u) && starts[u] == keep.value
    else forall v :: t <= v < |starts| ==> !SafeCut(ms[starts[v]])
  }

  ghost predicate OldestTurnAt(ms: seq<Message>, starts: seq<nat>, t: nat, u: nat)
    requires Turns(ms, starts) && u < |starts|
  {
    SafeCut(ms[starts[u]]) && forall v :: t <= v < u ==> !SafeCut(ms[starts[v]])
  }

  /** A candidate at a user message is a recent turn's start; no turn after one that fits is split. */
  lemma CandidateTurn(ms: seq<Message>, starts: seq<nat>, budget: nat, turns: nat, k: nat) returns (t: nat)
    requires Turns(ms, starts) && Candidate(ms, budget, turns, k)
    ensures t < |starts| && |starts| - t <= turns
    ensures ms[k].role.User? ==> starts[t] == k
    ensures !ms[k].role.User? ==>
      Tail(ms, starts[t]) > budget && FitsInside(ms, starts[t], End(ms, starts, t), budget, k)
  {
    var u := k;
    if !ms[k].role.User? { u :| 0 <= u < k && SplitsTurn(ms, budget, turns, u, k); }
    t :| 0 <= t < |starts| && starts[t] == u;
    TurnIs(ms, starts, t);
  }

  /** The turns from `t` on are recent and fit. */
  ghost predicate Fit(ms: seq<Message>, starts: seq<nat>, budget: nat, turns: nat, t: nat)
    requires Turns(ms, starts)
  {
    |starts| - t <= turns && forall v :: t <= v < |starts| ==> Tail(ms, starts[v]) <= budget
  }

  lemma TurnCandidate(ms: seq<Message>, starts: seq<nat>, budget: nat, turns: nat, t: nat, k: nat)
    requires Turns(ms, starts) && t <= |starts| && OldestTurn(ms, starts, t, Some(k))
    requires Fit(ms, starts, budget, turns, t)
    ensures Candidate(ms, budget, turns, k)
  {
    var u :| t <= u < |starts| && OldestTurnAt(ms, starts, t, u) && starts[u] == k;
    TurnIs(ms, starts, u);
  }

  lemma OldestFirst(ms: seq<Message>, starts: seq<nat>, t: nat, v: nat, keep: Option<nat>)
    requires Turns(ms, starts) && t <= v < |starts| && OldestTurn(ms, starts, t, keep) && SafeCut(ms[starts[v]])
    ensures keep.Some? && keep.value <= starts[v]
  {
    if keep.Some? {
      var u :| t <= u < |starts| && OldestTurnAt(ms, starts, t, u) && starts[u] == keep.value;
      assert u <= v;
    }
  }

  /** When all recent turns fit, the oldest safe one is the oldest candidate. */
  lemma AllFit(ms: seq<Message>, starts: seq<nat>, budget: nat, turns: nat, t: nat, keep: Option<nat>)
    requires Turns(ms, starts) && t <= |starts| && OldestTurn(ms, starts, t, keep)
    requires (t == 0 || |starts| - t >= turns) && Fit(ms, starts, budget, turns, t)
    ensures Oldest(ms, budget, turns, keep)
  {
    forall k: nat | Candidate(ms, budget, turns, k) ensures keep.Some? && keep.value <= k {
      var v := CandidateTurn(ms, starts, budget, turns, k);
      assert t <= v && Tail(ms, starts[v]) <= budget;
      OldestFirst(ms, starts, t, v, keep);
    }
    if keep.Some? { TurnCandidate(ms, starts, budget, turns, t, keep.value); }
  }

  /** The turn at `t` is split at its oldest fitting cut, if it has one. */
  ghost predicate SplitAt(ms: seq<Message>, start: nat, end: nat, budget: nat, split: Option<nat>)
    requires end <= |ms|
  {
    if split.Some? then
      FitsInside(ms, start, end, budget, split.value) &&
      forall k :: 0 <= k < split.value ==> !FitsInside(ms, start, end, budget, k)
    else forall k :: 0 <= k < |ms| ==> !FitsInside(ms, start, end, budget, k)
  }

  /**
   When a recent turn does not fit, the oldest candidate is its oldest fitting cut, and without
   one the oldest safe turn behind it.
   */
  lemma FirstUnfit(
    ms: seq<Message>, starts: seq<nat>, budget: nat, turns: nat, t: nat, split: Option<nat>, keep: Option<nat>)
    requires Turns(ms, starts) && t < |starts| && |starts| - t <= turns && Fit(ms, starts, budget, turns, t + 1)
    requires OldestTurn(ms, starts, t + 1, keep) && Tail(ms, starts[t]) > budget
    requires End(ms, starts, t) <= |ms| && SplitAt(ms, starts[t], End(ms, starts, t), budget, split)
    ensures Oldest(ms, budget, turns, if split.Some? then split else keep)
  {
    TurnIs(ms, starts, t);
    forall k: nat | Candidate(ms, budget, turns, k)
      ensures FitsInside(ms, starts[t], End(ms, starts, t), budget, k) ||
        (keep.Some? && keep.value <= k && End(ms, starts, t) <= k)
    {
      BehindUnfit(ms, starts, budget, turns, t, keep, k);
    }
    if split.Some? {
      assert SplitsTurn(ms, budget, turns, starts[t], split.value);
      assert !ms[split.value].role.User?;
    } else if keep.Some? {
      TurnCandidate(ms, starts, budget, turns, t + 1, keep.value);
    }
  }

  /** No candidate lies before a turn that does not fit. */
  lemma NotBefore(ms: seq<Message>, starts: seq<nat>, budget: nat, turns: nat, t: nat, v: nat, k: nat)
    requires Turns(ms, starts) && v < t < |starts| && Tail(ms, starts[t]) > budget && k < |ms|
    requires Tail(ms, k) <= budget
    ensures k != starts[v] && !FitsInside(ms, starts[v], NextUser(ms, starts[v] + 1), budget, k)
  {
    TurnIs(ms, starts, v);
    assert v + 1 == t || starts[v + 1] < starts[t];
    if k <= starts[t] { TailShrinks(ms, k, starts[t]); }
  }

  lemma BehindLater(ms: seq<Message>, starts: seq<nat>, t: nat, keep: Option<nat>, v: nat)
    requires Turns(ms, starts) && t < v < |starts| && End(ms, starts, t) <= |ms|
    requires OldestTurn(ms, starts, t + 1, keep) && SafeCut(ms[starts[v]])
    ensures keep.Some? && keep.value <= starts[v] && End(ms, starts, t) <= starts[v]
  {
    OldestFirst(ms, starts, t + 1, v, keep);
    assert v == t + 1 || starts[t + 1] < starts[v];
  }

  lemma BehindUnfit(
    ms: seq<Message>, starts: seq<nat>, budget: nat, turns: nat, t: nat, keep: Option<nat>, k: nat)
    requires Turns(ms, starts) && t < |starts| && End(ms, starts, t) <= |ms|
    requires OldestTurn(ms, starts, t + 1, keep) && Tail(ms, starts[t]) > budget
    requires Fit(ms, starts, budget, turns, t + 1) && Candidate(ms, budget, turns, k)
    ensures FitsInside(ms, starts[t], End(ms, starts, t), budget, k) ||
      (keep.Some? && keep.value <= k && End(ms, starts, t) <= k)
  {
    var v := CandidateTurn(ms, starts, budget, turns, k);
    TurnIs(ms, starts, v);
    if v < t {
      NotBefore(ms, starts, budget, turns, t, v, k);
    } else if v > t {
      assert Tail(ms, starts[v]) <= budget && starts[v] == k;
      BehindLater(ms, starts, t, keep, v);
    }
  }

  /** Whole recent turns while they fit, then a part of the first one that does not. */
  method KeepRecent(ms: seq<Message>, starts: seq<nat>, budget: nat, turns: nat) returns (keep: Option<nat>)
    requires Turns(ms, starts)
    ensures Oldest(ms, budget, turns, keep)
  {
    keep := None;
    var t, end := |starts|, |ms|;
    while t > 0 && |starts| - t < turns
      invariant 0 <= t <= |starts| && end == if t == |starts| then |ms| else starts[t]
      invariant end <= |ms| && Tail(ms, end) <= budget
      invariant Fit(ms, starts, budget, turns, t) && OldestTurn(ms, starts, t, keep)
    {
      t := t - 1;
      TurnIs(ms, starts, t);
      assert end == End(ms, starts, t);
      if Tail(ms, starts[t]) <= budget {
        end := starts[t];
        KeepsOn(ms, starts, t, keep);
        if SafeCut(ms[starts[t]]) { keep := Some(starts[t]); }
      } else {
        var split := SplitTurn(ms, starts[t], end, budget);
        FirstUnfit(ms, starts, budget, turns, t, split, keep);
        return if split.Some? then split else keep;
      }
    }
    AllFit(ms, starts, budget, turns, t, keep);
  }

  lemma KeepsOn(ms: seq<Message>, starts: seq<nat>, t: nat, keep: Option<nat>)
    requires Turns(ms, starts) && t < |starts| && OldestTurn(ms, starts, t + 1, keep)
    ensures OldestTurn(ms, starts, t, if SafeCut(ms[starts[t]]) then Some(starts[t]) else keep)
  {
    if SafeCut(ms[starts[t]]) {
      assert OldestTurnAt(ms, starts, t, t);
    } else if keep.Some? {
      var u :| t + 1 <= u < |starts| && OldestTurnAt(ms, starts, t + 1, u) && starts[u] == keep.value;
      assert OldestTurnAt(ms, starts, t, u);
    }
  }

  /** The newest of the places that satisfy the cut, or the beginning when none does. */
  ghost predicate NewestOf(ms: seq<Message>, turnsOnly: bool, start: nat) {
    if start > 0 then
      Place(ms, turnsOnly, start) && forall k :: start < k < |ms| ==> !Place(ms, turnsOnly, k)
    else forall k :: 0 < k < |ms| ==> !Place(ms, turnsOnly, k)
  }

  predicate Place(ms: seq<Message>, turnsOnly: bool, k: nat) {
    Cut(ms, k) && (turnsOnly ==> ms[k].role.User?)
  }

  /** When nothing recent fits: the newest safe turn above the beginning, or else the newest cut. */
  method KeepSome(ms: seq<Message>, starts: seq<nat>) returns (start: nat)
    requires Turns(ms, starts)
    ensures start == 0 || Cut(ms, start)
    ensures if exists k :: 0 < k < |ms| && Place(ms, true, k) then NewestOf(ms, true, start)
      else NewestOf(ms, false, start)
  {
    var t := |starts|;
    while t > 0
      invariant 0 <= t <= |starts|
      invariant forall v :: t <= v < |starts| ==> !Place(ms, true, starts[v])
    {
      t := t - 1;
      if starts[t] > 0 && SafeCut(ms[starts[t]]) {
        NewestTurn(ms, starts, t);
        return starts[t];
      }
    }
    forall k | 0 < k < |ms| ensures !Place(ms, true, k) {
      if ms[k].role.User? { var v :| 0 <= v < |starts| && starts[v] == k; }
    }
    var cut := LatestCut(ms);
    return if cut.Some? then cut.value else 0;
  }

  lemma NewestTurn(ms: seq<Message>, starts: seq<nat>, t: nat)
    requires Turns(ms, starts) && t < |starts| && Place(ms, true, starts[t])
    requires forall v :: t < v < |starts| ==> !Place(ms, true, starts[v])
    ensures NewestOf(ms, true, starts[t])
  {
    forall k | starts[t] < k < |ms| ensures !Place(ms, true, k) {
      if ms[k].role.User? { var v :| 0 <= v < |starts| && starts[v] == k; }
    }
  }

  /** Where the tail begins: see `Select`. */
  ghost predicate BeginsTail(ms: seq<Message>, budget: nat, turns: nat, start: nat) {
    if exists k :: 0 <= k < |ms| && ms[k].role.User? then
      if exists k :: 0 <= k < |ms| && Candidate(ms, budget, turns, k) then Oldest(ms, budget, turns, Some(start))
      else if exists k :: 0 < k < |ms| && Place(ms, true, k) then NewestOf(ms, true, start)
      else NewestOf(ms, false, start)
    else if exists k :: 0 <= k < |ms| && FitsInside(ms, 0, |ms|, budget, k) then
      SplitAt(ms, 0, |ms|, budget, Some(start))
    else NewestOf(ms, false, start)
  }

  /**
   The verbatim tail. With no turns to keep there is none. Otherwise it begins at the oldest
   place of the recent turns from which on it is within the budget: a safe turn, or a safe cut
   in the first turn that does not fit. If there is no such place it begins at the newest safe
   turn, or else at the newest cut, or is the whole history. A history without user messages
   counts as one turn. The tail is not empty unless the history is, and no call is separated
   from its result in a history where no call is awaited at a place to cut.
   */
  method Select(ms: seq<Message>, budget: nat, turns: nat) returns (start: Option<nat>)
    ensures start.None? <==> turns == 0
    ensures start.Some? ==> (start.value == 0 || Cut(ms, start.value)) && (ms != [] ==> start.value < |ms|)
    ensures start.Some? && Uninterrupted(ms) ==> !Splits(ms, start.value)
    ensures start.Some? ==> BeginsTail(ms, budget, turns, start.value)
  {
    if turns == 0 { return None; }
    var starts := TurnStarts(ms);
    if starts == [] {
      var split := SplitTurn(ms, 0, |ms|, budget);
      if split.None? { split := LatestCut(ms); }
      start := Some(if split.Some? then split.value else 0);
    } else {
      assert ms[starts[0]].role.User?;
      start := KeepRecent(ms, starts, budget, turns);
      if start.None? {
        var some := KeepSome(ms, starts);
        start := Some(some);
      }
    }
    if Uninterrupted(ms) { CutKeepsPairs(ms, start.value); }
  }

  /**
   Cutting deeper until the tail fits a ceiling: the earliest safe cut from the selected one on
   whose tail fits, and if there is none the smallest tail that can be cut.
   */
  method FitTail(ms: seq<Message>, start: nat, ceiling: nat) returns (r: nat)
    requires start <= |ms| && (start == 0 || Cut(ms, start))
    ensures start <= r <= |ms| && (r == 0 || Cut(ms, r)) && (ms != [] ==> r < |ms|)
    ensures Tail(ms, r) > ceiling ==> forall k :: start < k && Cut(ms, k) ==> Tail(ms, k) > ceiling && k <= r
    ensures Tail(ms, r) <= ceiling ==> forall k :: start < k < r && Cut(ms, k) ==> Tail(ms, k) > ceiling
  {
    if Tail(ms, start) <= ceiling { return start; }
    for k := start + 1 to |ms|
      invariant forall j :: start < j < k && Cut(ms, j) ==> Tail(ms, j) > ceiling
    {
      if SafeCut(ms[k]) && Tail(ms, k) <= ceiling { return k; }
    }
    var latest := LatestCut(ms);
    return if latest.Some? && latest.value > start then latest.value else start;
  }
}
