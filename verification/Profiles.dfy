/**
 Agent profiles that extend one another. Resolving a profile walks its `extends` chain,
 at most eight hops, and refuses loops, chains that are too deep and unknown parents.
 Lists are inherited additively, root first; the prompt is the parents' prompt followed
 by the profile's own body.
 */
module Profiles {
  import opened Options
  import opened Text

  type Id = string

  datatype Profile = Profile(base: Option<Id>, functions: seq<string>, body: string)

  /** The profiles the directory serves, by id. */
  type Catalog = map<Id, Profile>

  const MAX_DEPTH: nat := 8

  datatype Problem = Loop | TooDeep | Unknown(parent: Id)
  datatype Resolution = Chain(ids: seq<Id>) | Failed(problem: Problem)

  // ------------------------------------------------------------ what the chain is

  /** The profile `hops` steps up from `id`, when there is one in the catalog. */
  function Up(catalog: Catalog, id: Id, hops: nat): Option<Id>
    decreases hops
  {
    if id !in catalog then None
    else if hops == 0 then Some(id)
    else if catalog[id].base.Some? then Up(catalog, catalog[id].base.value, hops - 1)
    else None
  }

  /** The top of the chain is `hops` steps up: a profile that extends nothing. */
  predicate RootAt(catalog: Catalog, id: Id, hops: nat) {
    var top := Up(catalog, id, hops);
    top.Some? && top.value in catalog && catalog[top.value].base.None?
  }

  lemma {:induction false} UpStep(catalog: Catalog, id: Id, hops: nat)
    ensures Up(catalog, id, hops).Some? ==> Up(catalog, id, hops).value in catalog
    ensures Up(catalog, id, hops + 1) ==
      (var at := Up(catalog, id, hops);
       if at.Some? && at.value in catalog && catalog[at.value].base.Some? && catalog[at.value].base.value in catalog
       then catalog[at.value].base else None)
    decreases hops
  {
    if id in catalog && catalog[id].base.Some? {
      var parent := catalog[id].base.value;
      if hops > 0 { UpStep(catalog, parent, hops - 1); }
      else if parent in catalog { assert Up(catalog, parent, 0) == Some(parent); }
    }
  }

  lemma {:induction false} UpFrom(catalog: Catalog, id: Id, a: nat, b: nat)
    requires Up(catalog, id, a).Some?
    ensures Up(catalog, id, a + b) == Up(catalog, Up(catalog, id, a).value, b)
    decreases a
  {
    if a > 0 { UpFrom(catalog, catalog[id].base.value, a - 1, b); }
  }

  /** A chain that has come back to a profile goes on for ever. */
  lemma {:induction false} LoopNeverEnds(catalog: Catalog, id: Id, from: nat, period: nat, hops: nat)
    requires period > 0 && Up(catalog, id, from).Some? && Up(catalog, id, from) == Up(catalog, id, from + period)
    ensures !RootAt(catalog, id, hops)
    decreases hops
  {
    if RootAt(catalog, id, hops) {
      if hops < from + period {
        UpFrom(catalog, id, hops, from + period - hops);
      } else {
        var b := hops - period - from;
        UpFrom(catalog, id, from + period, b);
        UpFrom(catalog, id, from, b);
        LoopNeverEnds(catalog, id, from, period, hops - period);
      }
    }
  }

  // ------------------------------------------------------------ resolving

  /** The first `n + 1` profiles of the chain, nearest first. */
  ghost predicate Walked(catalog: Catalog, child: Id, chain: seq<Id>) {
    && |chain| > 0
    && (forall i :: 0 <= i < |chain| ==> Up(catalog, child, i) == Some(chain[i]))
    && (forall i :: 0 <= i < |chain| ==> chain[i] in catalog)
    && (forall i, j :: 0 <= i < j < |chain| ==> chain[i] != chain[j])
  }

  /** The chain stops after these profiles, for the reason given. */
  ghost predicate Stopped(catalog: Catalog, chain: seq<Id>, problem: Problem)
    requires |chain| > 0 && chain[|chain| - 1] in catalog
  {
    var parent := catalog[chain[|chain| - 1]].base;
    parent.Some? &&
    match problem
    case Loop => parent.value in chain
    case TooDeep => parent.value !in chain && |chain| > MAX_DEPTH
    case Unknown(p) => parent == Some(p) && p !in chain && |chain| <= MAX_DEPTH && p !in catalog
  }

  /** Following the chain of `child`, one profile at a time. */
  method ResolveChain(catalog: Catalog, child: Id) returns (r: Resolution)
    requires child in catalog
    ensures r.Chain? ==>
      && Walked(catalog, child, r.ids) && |r.ids| <= MAX_DEPTH + 1
      && RootAt(catalog, child, |r.ids| - 1)
    ensures r.Failed? ==>
      exists chain :: Walked(catalog, child, chain) && |chain| <= MAX_DEPTH + 1 && Stopped(catalog, chain, r.problem)
    ensures r.Chain? <==> exists n: nat :: n <= 8 && RootAt(catalog, child, n)
  {
    var chain := [child];
    while catalog[chain[|chain| - 1]].base.Some?
      invariant Walked(catalog, child, chain) && |chain| <= MAX_DEPTH + 1
      decreases MAX_DEPTH + 1 - |chain|
    {
      var parent := catalog[chain[|chain| - 1]].base.value;
      UpStep(catalog, child, |chain| - 1);
      var problem: Problem;
      if parent in chain {
        problem := Loop;
      } else if |chain| > MAX_DEPTH {
        problem := TooDeep;
      } else if parent in catalog {
        assert Up(catalog, child, |chain|) == Some(parent);
        chain := chain + [parent];
        continue;
      } else {
        problem := Unknown(parent);
      }
      assert Stopped(catalog, chain, problem);
      StoppedNoRoot(catalog, child, chain, problem);
      return Failed(problem);
    }
    assert RootAt(catalog, child, |chain| - 1);
    return Chain(chain);
  }

  /** A chain that stops with a problem has no root within the allowed depth. */
  lemma StoppedNoRoot(catalog: Catalog, child: Id, chain: seq<Id>, problem: Problem)
    requires Walked(catalog, child, chain) && |chain| <= MAX_DEPTH + 1 && Stopped(catalog, chain, problem)
    ensures forall n: nat :: n <= MAX_DEPTH ==> !RootAt(catalog, child, n)
  {
    var last := |chain| - 1;
    UpStep(catalog, child, last);
    forall n: nat | n <= MAX_DEPTH ensures !RootAt(catalog, child, n) {
      if n <= last {
        NotTheTop(catalog, child, chain, n);
      } else if problem.Loop? {
        var i :| 0 <= i < |chain| && chain[i] == catalog[chain[last]].base.value;
        LoopNeverEnds(catalog, child, i, last + 1 - i, n);
      } else if problem.Unknown? {
        UpGone(catalog, child, last + 1, n);
      }
    }
  }

  lemma NotTheTop(catalog: Catalog, child: Id, chain: seq<Id>, n: nat)
    requires Walked(catalog, child, chain) && n < |chain|
    requires catalog[chain[|chain| - 1]].base.Some?
    ensures !RootAt(catalog, child, n)
  {
    if n + 1 < |chain| {
      UpStep(catalog, child, n);
      assert Up(catalog, child, n + 1) == Some(chain[n + 1]);
    }
    assert Up(catalog, child, n) == Some(chain[n]);
  }

  lemma {:induction false} UpGone(catalog: Catalog, id: Id, a: nat, b: nat)
    requires Up(catalog, id, a).None? && a <= b
    ensures Up(catalog, id, b).None?
    decreases b
  {
    if a < b { UpGone(catalog, id, a, b - 1); UpStep(catalog, id, b - 1); }
  }

  /** The resolved chain as a function: there is only one way to walk up. */
  function ChainOf(catalog: Catalog, id: Id, hops: nat): (r: seq<Id>)
    requires Up(catalog, id, hops).Some?
    ensures |r| == hops + 1 && r[0] == id
    decreases hops
  {
    if hops == 0 then [id] else [id] + ChainOf(catalog, catalog[id].base.value, hops - 1)
  }

  lemma {:induction false} ChainOfAt(catalog: Catalog, id: Id, hops: nat, i: nat)
    requires Up(catalog, id, hops).Some? && i <= hops
    ensures Up(catalog, id, i) == Some(ChainOf(catalog, id, hops)[i])
    decreases hops
  {
    if hops > 0 && i > 0 { ChainOfAt(catalog, catalog[id].base.value, hops - 1, i - 1); }
  }

  /** What `ResolveChain` returns for a profile whose root is in reach. */
  lemma WalkedIsChain(catalog: Catalog, child: Id, ids: seq<Id>)
    requires Walked(catalog, child, ids)
    ensures ids == ChainOf(catalog, child, |ids| - 1)
  {
    var hops := |ids| - 1;
    assert Up(catalog, child, hops) == Some(ids[hops]);
    forall i | 0 <= i < |ids| ensures ids[i] == ChainOf(catalog, child, hops)[i] {
      ChainOfAt(catalog, child, hops, i);
      assert Up(catalog, child, i) == Some(ids[i]);
    }
  }

  // ------------------------------------------------------------ inherited lists

  /** The lists of a chain one after the other, the root's first. */
  function RootFirst(catalog: Catalog, chain: seq<Id>): seq<string> {
    if chain == [] then []
    else RootFirst(catalog, chain[1..]) + (if chain[0] in catalog then catalog[chain[0]].functions else [])
  }

  /** First occurrences only, in order. */
  function Distinct(s: seq<string>): seq<string> {
    if s == [] then []
    else
      var init := Distinct(s[..|s| - 1]);
      if s[|s| - 1] in init then init else init + [s[|s| - 1]]
  }

  /** Keeps what occurs, once each, in order of first occurrence. */
  lemma {:induction false} DistinctIs(s: seq<string>)
    ensures forall x :: x in Distinct(s) <==> x in s
    ensures forall i, j :: 0 <= i < j < |Distinct(s)| ==> Distinct(s)[i] != Distinct(s)[j]
    ensures forall i, j :: 0 <= i < j < |Distinct(s)| ==>
      exists k :: 0 <= k < |s| && s[k] == Distinct(s)[i] && Distinct(s)[j] !in s[..k]
  {
    if s != [] {
      var init := s[..|s| - 1];
      DistinctIs(init);
      assert s == init + [s[|s| - 1]];
      var d := Distinct(s);
      forall i, j | 0 <= i < j < |d| ensures exists k :: 0 <= k < |s| && s[k] == d[i] && d[j] !in s[..k] {
        var e := Distinct(init);
        assert j < |e| ==> e[i] != e[j];
        DistinctOrder(s, i, j);
      }
    }
  }

  lemma DistinctOrder(s: seq<string>, i: nat, j: nat)
    requires s != [] && i < j < |Distinct(s)|
    requires var init := s[..|s| - 1];
      && (forall x :: x in Distinct(init) <==> x in init)
      && (j < |Distinct(init)| ==>
            exists k :: 0 <= k < |init| && init[k] == Distinct(init)[i] && Distinct(init)[j] !in init[..k])
    ensures exists k :: 0 <= k < |s| && s[k] == Distinct(s)[i] && Distinct(s)[j] !in s[..k]
  {
    var init := s[..|s| - 1];
    var d := Distinct(init);
    if j < |d| {
      var k :| 0 <= k < |init| && init[k] == d[i] && d[j] !in init[..k];
      assert s[..k] == init[..k] && s[k] == init[k];
    } else {
      assert d[i] in init;
      var k :| 0 <= k < |init| && init[k] == d[i];
      assert s[k] == init[k];
      assert forall x :: x in s[..k] ==> x in init by {
        assert s[..k] == init[..k];
      }
    }
  }

  lemma {:induction false} DistinctPrefix(a: seq<string>, b: seq<string>)
    ensures Distinct(a) <= Distinct(a + b)
  {
    if b == [] {
      assert a + b == a;
    } else {
      var init := b[..|b| - 1];
      DistinctPrefix(a, init);
      assert (a + b)[..|a + b| - 1] == a + init;
    }
  }

  /** `union_root_first`: one pass with a set of what has been seen. */
  method UnionRootFirst(lists: seq<string>) returns (r: seq<string>)
    ensures r == Distinct(lists)
  {
    var seen: set<string> := {};
    r := [];
    for i := 0 to |lists|
      invariant r == Distinct(lists[..i])
      invariant forall x :: x in seen <==> x in r
    {
      assert lists[..i + 1][..i] == lists[..i];
      if lists[i] !in seen {
        r := r + [lists[i]];
        seen := seen + {lists[i]};
      }
    }
    assert lists[..|lists|] == lists;
  }

  /** A child adds to what its parent resolves to and removes nothing from it. */
  lemma ChildExtendsParent(catalog: Catalog, child: Id, hops: nat)
    requires RootAt(catalog, child, hops) && catalog[child].base.Some?
    ensures var parent := catalog[child].base.value;
      && hops > 0 && RootAt(catalog, parent, hops - 1)
      && Distinct(RootFirst(catalog, ChainOf(catalog, parent, hops - 1)))
         <= Distinct(RootFirst(catalog, ChainOf(catalog, child, hops)))
  {
    var parent := catalog[child].base.value;
    var up := ChainOf(catalog, parent, hops - 1);
    var chain := ChainOf(catalog, child, hops);
    assert chain[1..] == up;
    DistinctPrefix(RootFirst(catalog, up), catalog[child].functions);
  }

  // ------------------------------------------------------------ the prompt

  function TrimEnd(s: string): string {
    if s != [] && s[|s| - 1] == '\n' then TrimEnd(s[..|s| - 1]) else s
  }

  /** A body added to the prompt so far; a blank body adds nothing. */
  function Append(prompt: Option<string>, body: string): Option<string> {
    if Blank(body) then prompt
    else if prompt.None? then Some(body)
    else Some(TrimEnd(prompt.value) + "\n\n" + body)
  }

  /** What `get` serves, seen from a profile: its parent's prompt, then its own body. */
  function PromptOf(catalog: Catalog, id: Id, hops: nat): Option<string>
    requires Up(catalog, id, hops).Some?
    decreases hops
  {
    var parent := if hops == 0 then None else PromptOf(catalog, catalog[id].base.value, hops - 1);
    Append(parent, catalog[id].body)
  }

  lemma {:induction false} PromptOfSuffix(catalog: Catalog, id: Id, hops: nat, i: nat)
    requires Up(catalog, id, hops).Some? && i <= hops
    ensures Up(catalog, id, i).Some? && Up(catalog, Up(catalog, id, i).value, hops - i).Some?
    ensures i < hops ==>
      PromptOf(catalog, Up(catalog, id, i).value, hops - i) ==
        Append(PromptOf(catalog, catalog[Up(catalog, id, i).value].base.value, hops - i - 1),
          catalog[Up(catalog, id, i).value].body)
  {
    ChainOfAt(catalog, id, hops, i);
    UpFrom(catalog, id, i, hops - i);
  }

  /** `compose_prompt`: the loop over the chain, from the root down to the profile. */
  method ComposePrompt(catalog: Catalog, chain: seq<Id>) returns (prompt: string)
    requires |chain| > 0 && Walked(catalog, chain[0], chain)
    ensures prompt == (var p := PromptOf(catalog, chain[0], |chain| - 1); if p.Some? then p.value else "")
  {
    var acc: Option<string> := None;
    var hops := |chain| - 1;
    WalkedIsChain(catalog, chain[0], chain);
    var i := |chain|;
    while i > 0
      invariant 0 <= i <= |chain|
      invariant i == |chain| ==> acc == None
      invariant i < |chain| ==> Up(catalog, chain[i], hops - i).Some? && acc == PromptOf(catalog, chain[i], hops - i)
    {
      i := i - 1;
      assert Up(catalog, chain[0], i) == Some(chain[i]);
      PromptOfSuffix(catalog, chain[0], hops, i);
      if i < hops {
        UpStep(catalog, chain[0], i);
        assert Up(catalog, chain[0], i + 1) == Some(chain[i + 1]);
      }
      var body := catalog[chain[i]].body;
      if !Blank(body) {
        acc := Some(if acc.None? then body else TrimEnd(acc.value) + "\n\n" + body);
      }
    }
    prompt := if acc.Some? then acc.value else "";
  }

  // ------------------------------------------------------------ what a profile resolves to

  /** `f` is among the functions of the profile `i` hops up. */
  predicate ListedAt(catalog: Catalog, id: Id, i: nat, f: string) {
    var at := Up(catalog, id, i);
    at.Some? && at.value in catalog && f in catalog[at.value].functions
  }

  lemma {:induction false} ListedExactly(catalog: Catalog, id: Id, hops: nat, f: string)
    requires Up(catalog, id, hops).Some?
    ensures f in RootFirst(catalog, ChainOf(catalog, id, hops)) <==>
      exists i :: 0 <= i <= hops && ListedAt(catalog, id, i, f)
    decreases hops
  {
    var chain := ChainOf(catalog, id, hops);
    assert Up(catalog, id, 0) == Some(id);
    assert ListedAt(catalog, id, 0, f) <==> f in catalog[id].functions;
    if hops > 0 {
      var parent := catalog[id].base.value;
      assert chain[1..] == ChainOf(catalog, parent, hops - 1);
      ListedExactly(catalog, parent, hops - 1, f);
      forall i: nat | i < hops ensures ListedAt(catalog, id, i + 1, f) <==> ListedAt(catalog, parent, i, f) {
        assert Up(catalog, id, i + 1) == Up(catalog, parent, i);
      }
      if i :| 0 <= i <= hops - 1 && ListedAt(catalog, parent, i, f) { assert ListedAt(catalog, id, i + 1, f); }
      if i :| 0 < i <= hops && ListedAt(catalog, id, i, f) { assert ListedAt(catalog, parent, i - 1, f); }
    }
  }

  /**
   A profile's resolved functions are exactly those listed by the profile or by one it extends,
   each once.
   */
  lemma ResolvedExactly(catalog: Catalog, id: Id, hops: nat, f: string)
    requires RootAt(catalog, id, hops)
    ensures var resolved := Distinct(RootFirst(catalog, ChainOf(catalog, id, hops)));
      && (f in resolved <==> exists i :: 0 <= i <= hops && ListedAt(catalog, id, i, f))
      && forall i, j :: 0 <= i < j < |resolved| ==> resolved[i] != resolved[j]
  {
    ListedExactly(catalog, id, hops, f);
    DistinctIs(RootFirst(catalog, ChainOf(catalog, id, hops)));
  }

  /** Trailing newlines go, and only those. */
  lemma {:induction false} TrimEndIs(s: string)
    ensures TrimEnd(s) <= s && (TrimEnd(s) != "" ==> TrimEnd(s)[|TrimEnd(s)| - 1] != '\n')
    ensures forall i :: |TrimEnd(s)| <= i < |s| ==> s[i] == '\n'
  {
    if s != [] && s[|s| - 1] == '\n' { TrimEndIs(s[..|s| - 1]); }
  }

  lemma {:induction false} TrimEndAfter(front: string, s: string)
    requires !Blank(s)
    ensures TrimEnd(front + s) == front + TrimEnd(s)
  {
    assert s != [];
    if s[|s| - 1] == '\n' {
      var init := s[..|s| - 1];
      assert !Blank(init) by {
        var i :| 0 <= i < |s| && !Space(s[i]);
        assert init[i] == s[i];
      }
      TrimEndAfter(front, init);
      assert (front + s)[..|front + s| - 1] == front + init;
    }
  }

  /** The bodies of a chain that say something, the root's first. */
  function Bodies(catalog: Catalog, id: Id, hops: nat): (r: seq<string>)
    requires Up(catalog, id, hops).Some?
    ensures forall i :: 0 <= i < |r| ==> !Blank(r[i])
    decreases hops
  {
    var own := if Blank(catalog[id].body) then [] else [catalog[id].body];
    (if hops == 0 then [] else Bodies(catalog, catalog[id].base.value, hops - 1)) + own
  }

  /** Texts as paragraphs: a blank line between two, and the last as it is. */
  function Joined(bodies: seq<string>): string
    requires bodies != []
  {
    if |bodies| == 1 then bodies[0] else TrimEnd(bodies[0]) + "\n\n" + Joined(bodies[1..])
  }

  lemma {:induction false} JoinedEnds(bodies: seq<string>, last: string)
    requires bodies != [] && forall i :: 0 <= i < |bodies| ==> !Blank(bodies[i])
    ensures Joined(bodies + [last]) == TrimEnd(Joined(bodies)) + "\n\n" + last
    ensures !Blank(Joined(bodies))
  {
    var all := bodies + [last];
    if |bodies| == 1 {
      assert all[1..] == [last];
    } else {
      var rest := bodies[1..];
      JoinedEnds(rest, last);
      assert all[1..] == rest + [last];
      var front := TrimEnd(bodies[0]) + "\n\n";
      TrimEndAfter(front, Joined(rest));
      var i :| 0 <= i < |Joined(rest)| && !Space(Joined(rest)[i]);
      assert Joined(bodies)[|front| + i] == Joined(rest)[i];
      assert front + (TrimEnd(Joined(rest)) + "\n\n" + last) == (front + TrimEnd(Joined(rest))) + "\n\n" + last;
    }
  }

  /** The prompt served for a profile is the bodies of its chain that are not blank, root first, as paragraphs. */
  lemma {:induction false} PromptJoins(catalog: Catalog, id: Id, hops: nat)
    requires Up(catalog, id, hops).Some?
    ensures var bodies := Bodies(catalog, id, hops);
      PromptOf(catalog, id, hops) == if bodies == [] then None else Some(Joined(bodies))
    decreases hops
  {
    var own := catalog[id].body;
    if hops == 0 {
      assert [] + [own] == [own];
    } else {
      var parent := catalog[id].base.value;
      var above := Bodies(catalog, parent, hops - 1);
      PromptJoins(catalog, parent, hops - 1);
      if Blank(own) { assert above + [] == above; }
      else if above == [] { assert above + [own] == [own]; }
      else { JoinedEnds(above, own); }
    }
  }

  /** The profile `i` hops up has a body that is not blank. */
  predicate SpeaksAt(catalog: Catalog, id: Id, i: nat) {
    var at := Up(catalog, id, i);
    at.Some? && at.value in catalog && !Blank(catalog[at.value].body)
  }

  /** A body of one's own comes last and unchanged; there is a prompt exactly if some profile of the chain has one. */
  lemma {:induction false} OwnBodyLast(catalog: Catalog, id: Id, hops: nat)
    requires Up(catalog, id, hops).Some?
    ensures var prompt, own := PromptOf(catalog, id, hops), catalog[id].body;
      !Blank(own) ==> prompt.Some? && |own| <= |prompt.value| && prompt.value[|prompt.value| - |own|..] == own
    ensures PromptOf(catalog, id, hops).Some? <==> exists i :: 0 <= i <= hops && SpeaksAt(catalog, id, i)
    decreases hops
  {
    assert Up(catalog, id, 0) == Some(id);
    assert SpeaksAt(catalog, id, 0) <==> !Blank(catalog[id].body);
    if hops > 0 {
      var parent := catalog[id].base.value;
      OwnBodyLast(catalog, parent, hops - 1);
      forall i: nat | i < hops ensures SpeaksAt(catalog, id, i + 1) <==> SpeaksAt(catalog, parent, i) {
        assert Up(catalog, id, i + 1) == Up(catalog, parent, i);
      }
      if i :| 0 <= i <= hops - 1 && SpeaksAt(catalog, parent, i) { assert SpeaksAt(catalog, id, i + 1); }
      if i :| 0 < i <= hops && SpeaksAt(catalog, id, i) { assert SpeaksAt(catalog, parent, i - 1); }
    }
  }
}
