/**
 Wide choices as a tournament. More options than fit one row are cut, in order, into near-equal
 groups; each group is asked as a row of its own, and the winners meet in the next round until
 they fit one row, whose answer is the question's. Eliminated options answer zero.
 */
module Tournament {
  type Label = string

  const GROUP: nat := 16

  // ------------------------------------------------------------ groups

  function Parts(n: nat): nat { (n + GROUP - 1) / GROUP }

  /** Where group `i` begins. */
  function Cut(i: nat, n: nat, parts: nat): nat
    requires parts > 0
  {
    i * n / parts
  }

  lemma MulMono(a: nat, b: nat, d: nat)
    requires a <= b
    ensures a * d <= b * d
  {
  }

  lemma Distribute(i: nat, q: nat, d: nat, r: nat)
    ensures i * (q * d + r) == (i * q) * d + i * r
  {
  }

  lemma Collect(a: nat, b: nat, d: nat)
    ensures (a + b) * d == a * d + b * d
  {
  }

  /** Division with a known quotient and remainder. */
  lemma DivIs(a: nat, d: nat, q: nat, r: nat)
    requires d > 0 && a == q * d + r && r < d
    ensures a / d == q
  {
    var b := a / d;
    Collect(q, 1, d);
    Collect(b, 1, d);
    if b > q { MulMono(q + 1, b, d); }
    if b < q { MulMono(b + 1, q, d); }
  }

  /** A cut is the even share plus what the remainder has added up to so far. */
  lemma CutIs(i: nat, n: nat, parts: nat)
    requires parts > 0
    ensures Cut(i, n, parts) == i * (n / parts) + i * (n % parts) / parts
  {
    var q, r := n / parts, n % parts;
    var m := i * r;
    DivMod(n, parts);
    DivMod(m, parts);
    CutWith(i, n, parts, q, r, m / parts, m % parts);
  }

  lemma DivMod(a: nat, d: nat)
    requires d > 0
    ensures a == (a / d) * d + a % d && a % d < d
  {
  }

  lemma CutWith(i: nat, n: nat, parts: nat, q: nat, r: nat, c: nat, e: nat)
    requires n == q * parts + r && i * r == c * parts + e && e < parts
    ensures Cut(i, n, parts) == i * q + c
  {
    CutSum(i, n, parts, q, r, c, e);
    DivIs(i * n, parts, i * q + c, e);
  }

  lemma CutSum(i: nat, n: nat, parts: nat, q: nat, r: nat, c: nat, e: nat)
    requires n == q * parts + r && i * r == c * parts + e
    ensures i * n == (i * q + c) * parts + e
  {
    Distribute(i, q, parts, r);
    Collect(i * q, c, parts);
  }

  /** The remainder adds nothing or one from one cut to the next. */
  lemma StepIs(m: nat, r: nat, parts: nat)
    requires r < parts
    ensures 0 <= (m + r) / parts - m / parts <= 1
    ensures r == 0 ==> (m + r) / parts == m / parts
  {
    var c, e := m / parts, m % parts;
    Collect(c, 1, parts);
    if e + r < parts { DivIs(m + r, parts, c, e + r); }
    else { DivIs(m + r, parts, c + 1, e + r - parts); }
  }

  /** Group sizes differ by at most one. */
  lemma GroupSize(i: nat, n: nat, parts: nat)
    requires parts > 0
    ensures var size := Cut(i + 1, n, parts) - Cut(i, n, parts);
      n / parts <= size <= n / parts + (if n % parts == 0 then 0 else 1)
  {
    CutIs(i, n, parts);
    CutIs(i + 1, n, parts);
    Collect(i, 1, n / parts);
    Collect(i, 1, n % parts);
    StepIs(i * (n % parts), n % parts, parts);
  }

  lemma CutEnds(n: nat, parts: nat)
    requires parts > 0
    ensures Cut(0, n, parts) == 0 && Cut(parts, n, parts) == n
  {
    DivIs(parts * n, parts, n, 0);
  }

  /** All the cuts: where each group begins, and the end. */
  function CutsTo(n: nat, parts: nat, k: nat): (r: seq<nat>)
    requires parts > 0
    ensures |r| == k + 1
  {
    if k == 0 then [Cut(0, n, parts)] else CutsTo(n, parts, k - 1) + [Cut(k, n, parts)]
  }

  /** Cuts from zero to `n` whose steps are `least` or one more, one more only if `uneven`. */
  ghost predicate EvenCuts(cuts: seq<nat>, least: nat, uneven: bool) {
    && |cuts| > 0 && cuts[0] == 0
    && forall i :: 0 < i < |cuts| ==>
         cuts[i - 1] + least <= cuts[i] <= cuts[i - 1] + least + (if uneven then 1 else 0)
  }

  lemma {:induction false} CutsEven(n: nat, parts: nat, k: nat)
    requires parts > 0
    ensures EvenCuts(CutsTo(n, parts, k), n / parts, n % parts != 0)
    ensures CutsTo(n, parts, k)[k] == Cut(k, n, parts)
  {
    CutEnds(n, parts);
    if k > 0 {
      CutsEven(n, parts, k - 1);
      GroupSize(k - 1, n, parts);
    }
  }

  /** The pieces between cuts. */
  function Slices(labels: seq<Label>, cuts: seq<nat>): seq<seq<Label>>
    requires |cuts| > 0 && Ordered(cuts, |labels|)
  {
    if |cuts| == 1 then []
    else
      var k := |cuts| - 1;
      Slices(labels, cuts[..k]) + [labels[cuts[k - 1]..cuts[k]]]
  }

  predicate Ordered(cuts: seq<nat>, n: nat) {
    (forall i :: 0 < i < |cuts| ==> cuts[i - 1] <= cuts[i]) && forall i :: 0 <= i < |cuts| ==> cuts[i] <= n
  }

  function Concat(groups: seq<seq<Label>>): seq<Label> {
    if groups == [] then [] else Concat(groups[..|groups| - 1]) + groups[|groups| - 1]
  }

  lemma ConcatMore(groups: seq<seq<Label>>, last: seq<Label>)
    ensures Concat(groups + [last]) == Concat(groups) + last
  {
    assert (groups + [last])[..|groups|] == groups;
  }

  lemma {:induction false} SlicesAre(labels: seq<Label>, cuts: seq<nat>)
    requires |cuts| > 0 && Ordered(cuts, |labels|) && cuts[0] == 0
    ensures Concat(Slices(labels, cuts)) == labels[..cuts[|cuts| - 1]]
  {
    if |cuts| > 1 {
      var k := |cuts| - 1;
      SlicesAre(labels, cuts[..k]);
      var front, last := Slices(labels, cuts[..k]), labels[cuts[k - 1]..cuts[k]];
      ConcatMore(front, last);
      assert labels[..cuts[k - 1]] + last == labels[..cuts[k]];
    }
  }

  lemma {:induction false} SliceSizes(labels: seq<Label>, cuts: seq<nat>)
    requires |cuts| > 0 && Ordered(cuts, |labels|)
    ensures |Slices(labels, cuts)| == |cuts| - 1
    ensures forall i :: 0 <= i < |cuts| - 1 ==> |Slices(labels, cuts)[i]| == cuts[i + 1] - cuts[i]
  {
    if |cuts| > 1 {
      var k := |cuts| - 1;
      SliceSizes(labels, cuts[..k]);
      var front, last := Slices(labels, cuts[..k]), labels[cuts[k - 1]..cuts[k]];
      forall i | 0 <= i < k ensures |(front + [last])[i]| == cuts[i + 1] - cuts[i] {
        assert i < k - 1 ==> |front[i]| == cuts[..k][i + 1] - cuts[..k][i];
      }
    }
  }

  lemma {:induction false} EvenOrdered(cuts: seq<nat>, least: nat, uneven: bool, i: nat)
    requires EvenCuts(cuts, least, uneven) && i < |cuts|
    ensures cuts[i] <= cuts[|cuts| - 1]
    decreases |cuts| - i
  {
    if i < |cuts| - 1 {
      EvenOrdered(cuts, least, uneven, i + 1);
      assert cuts[(i + 1) - 1] <= cuts[i + 1];
    }
  }

  function Groups(labels: seq<Label>): seq<seq<Label>> {
    if labels == [] then []
    else
      var cuts := CutsTo(|labels|, Parts(|labels|), Parts(|labels|));
      if Ordered(cuts, |labels|) then Slices(labels, cuts) else []
  }

  /**
   The groups partition the options in order: as few groups as can be, none empty, none above
   the limit, and no two of sizes more than one apart.
   */
  lemma GroupsPartition(labels: seq<Label>)
    ensures var g := Groups(labels);
      && Concat(g) == labels
      && |g| == Parts(|labels|)
      && (forall i :: 0 <= i < |g| ==> 1 <= |g[i]| <= 16)
      && (forall i, j :: 0 <= i < |g| && 0 <= j < |g| ==> |g[i]| <= |g[j]| + 1)
  {
    if labels != [] {
      var n, parts := |labels|, Parts(|labels|);
      var cuts := CutsTo(n, parts, parts);
      CutsEven(n, parts, parts);
      CutEnds(n, parts);
      assert cuts[|cuts| - 1] == n;
      forall i | 0 <= i < |cuts| ensures cuts[i] <= n { EvenOrdered(cuts, n / parts, n % parts != 0, i); }
      ShareBound(n, parts);
      EvenSlices(labels, cuts, n / parts, n % parts != 0);
    }
  }

  lemma EvenSlices(labels: seq<Label>, cuts: seq<nat>, least: nat, uneven: bool)
    requires EvenCuts(cuts, least, uneven) && cuts[|cuts| - 1] == |labels|
    requires forall i :: 0 <= i < |cuts| ==> cuts[i] <= |labels|
    ensures Ordered(cuts, |labels|) && Concat(Slices(labels, cuts)) == labels && |Slices(labels, cuts)| == |cuts| - 1
    ensures forall i :: 0 <= i < |cuts| - 1 ==> least <= |Slices(labels, cuts)[i]| <= least + (if uneven then 1 else 0)
  {
    SlicesAre(labels, cuts);
    SliceSizes(labels, cuts);
    assert labels[..|labels|] == labels;
    forall i | 0 <= i < |cuts| - 1 ensures least <= |Slices(labels, cuts)[i]| <= least + (if uneven then 1 else 0) {
      assert cuts[(i + 1) - 1] + least <= cuts[i + 1];
    }
  }

  /** The even share is at least one and, rounded up, at most the limit. */
  lemma ShareBound(n: nat, parts: nat)
    requires n > 0 && parts == Parts(n)
    ensures parts > 0 && 1 <= n / parts && n / parts + (if n % parts == 0 then 0 else 1) <= GROUP
  {
    var q := n / parts;
    Collect(GROUP, 1, parts);
    MulMono(if q > GROUP then GROUP + 1 else q, q, parts);
  }

  // ------------------------------------------------------------ rounds

  /** Whatever the model prefers: its score of an option in the row it is asked in. */
  datatype Preference = Preference(score: (seq<Label>, Label) -> int)

  /** The first of the equally good best ones of a row. */
  function Best(p: Preference, row: seq<Label>): (r: Label)
    requires row != []
    ensures r in row
  {
    BestOf(p, row, row)
  }

  function BestOf(p: Preference, row: seq<Label>, some: seq<Label>): (r: Label)
    requires some != []
    ensures r in some
  {
    if |some| == 1 then some[0]
    else
      var init := BestOf(p, row, some[..|some| - 1]);
      var last := some[|some| - 1];
      if p.score(row, last) > p.score(row, init) then last else init
  }

  function Winners(p: Preference, groups: seq<seq<Label>>): (r: seq<Label>)
    requires forall i :: 0 <= i < |groups| ==> groups[i] != []
    ensures |r| == |groups| && forall i :: 0 <= i < |r| ==> r[i] in groups[i]
  {
    if groups == [] then [] else Winners(p, groups[..|groups| - 1]) + [Best(p, groups[|groups| - 1])]
  }

  /** The finalists, and the rows asked before the final. */
  function Play(p: Preference, labels: seq<Label>): (r: (seq<Label>, nat))
    decreases |labels|
  {
    if |labels| <= GROUP then (labels, 0)
    else
      GroupsPartition(labels);
      var winners := Winners(p, Groups(labels));
      var (finalists, rows) := Play(p, winners);
      (finalists, rows + |winners|)
  }

  /** Where in a row its best option stands: none scores higher, and every earlier one scores less. */
  ghost predicate BestAt(p: Preference, row: seq<Label>, some: seq<Label>, b: nat) {
    && b < |some|
    && (forall i :: 0 <= i < |some| ==> p.score(row, some[i]) <= p.score(row, some[b]))
    && (forall i :: 0 <= i < b ==> p.score(row, some[i]) < p.score(row, some[b]))
  }

  lemma {:induction false} BestOfIs(p: Preference, row: seq<Label>, some: seq<Label>) returns (b: nat)
    requires some != []
    ensures BestAt(p, row, some, b) && BestOf(p, row, some) == some[b]
  {
    if |some| == 1 {
      b := 0;
    } else {
      var init := some[..|some| - 1];
      b := BestOfIs(p, row, init);
      forall i | 0 <= i < |init| ensures p.score(row, some[i]) <= p.score(row, init[b]) { assert some[i] == init[i]; }
      forall i | 0 <= i < b ensures p.score(row, some[i]) < p.score(row, init[b]) { assert some[i] == init[i]; }
      if p.score(row, some[|some| - 1]) > p.score(row, init[b]) { b := |some| - 1; }
    }
  }

  /** Every group sends the first of its equally best options, and no other. */
  lemma {:induction false} WinnersAre(p: Preference, groups: seq<seq<Label>>, i: nat) returns (b: nat)
    requires (forall i :: 0 <= i < |groups| ==> groups[i] != []) && i < |groups|
    ensures BestAt(p, groups[i], groups[i], b) && Winners(p, groups)[i] == groups[i][b]
  {
    if i < |groups| - 1 {
      b := WinnersAre(p, groups[..|groups| - 1], i);
    } else {
      b := BestOfIs(p, groups[i], groups[i]);
    }
  }

  /** An option that scores higher than every other one in each row it is asked in. */
  ghost predicate Favourite(p: Preference, x: Label) {
    forall row: seq<Label>, y :: x in row && y in row && y != x ==> p.score(row, y) < p.score(row, x)
  }

  lemma {:induction false} InSome(groups: seq<seq<Label>>, x: Label) returns (i: nat)
    requires x in Concat(groups)
    ensures i < |groups| && x in groups[i]
  {
    i := |groups| - 1;
    if x !in groups[i] { i := InSome(groups[..i], x); }
  }

  /** Cutting the options into groups costs a favourite nothing: it is in the final. */
  lemma {:induction false} FavouriteStays(p: Preference, labels: seq<Label>, x: Label)
    requires AllDifferent(labels) && x in labels && Favourite(p, x)
    ensures x in Play(p, labels).0
    decreases |labels|
  {
    if |labels| > GROUP {
      GroupsPartition(labels);
      RoundKeeps(p, labels);
      var g := Groups(labels);
      var i := InSome(g, x);
      var b := WinnersAre(p, g, i);
      var a :| 0 <= a < |g[i]| && g[i][a] == x;
      assert g[i][b] in g[i] && p.score(g[i], x) <= p.score(g[i], g[i][b]);
      assert Winners(p, g)[i] == x;
      FavouriteStays(p, Winners(p, g), x);
    }
  }

  lemma {:induction false} InConcat(groups: seq<seq<Label>>, i: nat, x: Label)
    requires i < |groups| && x in groups[i]
    ensures x in Concat(groups)
  {
    if i < |groups| - 1 { InConcat(groups[..|groups| - 1], i, x); }
  }

  ghost predicate AllDifferent(s: seq<Label>) {
    forall i, j :: 0 <= i < j < |s| ==> s[i] != s[j]
  }

  /** Winners of different groups are different, when the options are. */
  lemma {:induction false} WinnersDiffer(p: Preference, groups: seq<seq<Label>>)
    requires (forall i :: 0 <= i < |groups| ==> groups[i] != []) && AllDifferent(Concat(groups))
    ensures AllDifferent(Winners(p, groups))
  {
    if groups != [] {
      var init, last := groups[..|groups| - 1], groups[|groups| - 1];
      var front := Concat(init);
      assert AllDifferent(front) by {
        forall i, j | 0 <= i < j < |front| ensures front[i] != front[j] {
          assert Concat(groups)[i] == front[i] && Concat(groups)[j] == front[j];
        }
      }
      WinnersDiffer(p, init);
      var w := Winners(p, init);
      forall i | 0 <= i < |w| ensures w[i] != Best(p, last) {
        InConcat(init, i, w[i]);
        var a :| 0 <= a < |front| && front[a] == w[i];
        var b :| 0 <= b < |last| && last[b] == Best(p, last);
        assert Concat(groups)[a] == front[a] && Concat(groups)[|front| + b] == last[b];
      }
    }
  }

  lemma RoundKeeps(p: Preference, labels: seq<Label>)
    requires labels != [] && AllDifferent(labels)
    ensures forall i :: 0 <= i < |Groups(labels)| ==> Groups(labels)[i] != []
    ensures var winners := Winners(p, Groups(labels));
      && |winners| == Parts(|labels|) && AllDifferent(winners)
      && forall x :: x in winners ==> x in labels
  {
    GroupsPartition(labels);
    var g := Groups(labels);
    WinnersDiffer(p, g);
    var winners := Winners(p, g);
    forall x | x in winners ensures x in labels {
      var i :| 0 <= i < |winners| && winners[i] == x;
      InConcat(g, i, x);
    }
  }

  /**
   A tournament ends with at least one and at most a row's worth of finalists, all of them
   options and all different.
   */
  lemma {:induction false} PlayEnds(p: Preference, labels: seq<Label>)
    requires labels != [] && AllDifferent(labels)
    ensures var finalists := Play(p, labels).0;
      1 <= |finalists| <= 16 && AllDifferent(finalists) && forall x :: x in finalists ==> x in labels
    decreases |labels|
  {
    if |labels| > GROUP {
      RoundKeeps(p, labels);
      PlayEnds(p, Winners(p, Groups(labels)));
    }
  }

  /**
   Up to two hundred and fifty-six options one round is enough: each group sends one finalist,
   and the rows are one per group, the fewest that hold them, plus the final.
   */
  lemma OneRound(p: Preference, labels: seq<Label>)
    requires 16 < |labels| <= 256 && AllDifferent(labels)
    ensures var (finalists, rows) := Play(p, labels);
      && |finalists| == rows == Parts(|labels|) <= 16
      && (rows - 1) * 16 < |labels| <= rows * 16
      && forall i :: 0 <= i < |finalists| ==> i < |Groups(labels)| && finalists[i] in Groups(labels)[i]
  {
    RoundKeeps(p, labels);
  }

  // ------------------------------------------------------------ the answer

  function Sum(w: seq<real>): real {
    if w == [] then 0.0 else Sum(w[..|w| - 1]) + w[|w| - 1]
  }

  /** The readout of a row: each option's positive weight over their sum. */
  function Scaled(w: seq<real>, total: real): (r: seq<real>)
    requires total > 0.0
    ensures |r| == |w| && forall i :: 0 <= i < |w| ==> r[i] == w[i] / total
  {
    if w == [] then [] else Scaled(w[..|w| - 1], total) + [w[|w| - 1] / total]
  }

  lemma Fractions(a: real, b: real, c: real)
    requires c > 0.0
    ensures a / c + b / c == (a + b) / c
  {
  }

  lemma {:induction false} SumScaled(w: seq<real>, total: real)
    requires total > 0.0
    ensures Sum(Scaled(w, total)) == Sum(w) / total
  {
    if w != [] {
      var s := Scaled(w, total);
      assert s[..|s| - 1] == Scaled(w[..|w| - 1], total);
      SumScaled(w[..|w| - 1], total);
      Fractions(Sum(w[..|w| - 1]), w[|w| - 1], total);
    }
  }

  lemma {:induction false} SumPositive(w: seq<real>)
    requires forall i :: 0 <= i < |w| ==> w[i] >= 0.0
    ensures Sum(w) >= 0.0
    ensures (exists i :: 0 <= i < |w| && w[i] > 0.0) ==> Sum(w) > 0.0
  {
    if w != [] {
      var init := w[..|w| - 1];
      SumPositive(init);
      if i :| 0 <= i < |w| && w[i] > 0.0 { assert i < |init| ==> init[i] > 0.0; }
    }
  }

  function Zeros(labels: seq<Label>): (r: map<Label, real>)
    ensures forall x :: x in r <==> x in labels
    ensures forall x :: x in r ==> r[x] == 0.0
  {
    if labels == [] then map[] else Zeros(labels[..|labels| - 1])[labels[|labels| - 1] := 0.0]
  }

  /** Every option's probability: the first `k` finalists filled in, the others zero. */
  function Filled(labels: seq<Label>, finalists: seq<Label>, ps: seq<real>, k: nat): (r: map<Label, real>)
    requires |ps| == |finalists| && k <= |ps|
    requires forall i :: 0 <= i < |finalists| ==> finalists[i] in labels
    ensures forall x :: x in r <==> x in labels
  {
    if k == 0 then Zeros(labels) else Filled(labels, finalists, ps, k - 1)[finalists[k - 1] := ps[k - 1]]
  }

  function Total(labels: seq<Label>, m: map<Label, real>): real {
    if labels == [] then 0.0
    else Total(labels[..|labels| - 1], m) + (if labels[|labels| - 1] in m then m[labels[|labels| - 1]] else 0.0)
  }

  lemma {:induction false} TotalZero(labels: seq<Label>, m: map<Label, real>)
    requires forall x :: x in labels && x in m ==> m[x] == 0.0
    ensures Total(labels, m) == 0.0
  {
    if labels != [] { TotalZero(labels[..|labels| - 1], m); }
  }

  lemma {:induction false} TotalUpdate(labels: seq<Label>, m: map<Label, real>, x: Label, v: real)
    requires AllDifferent(labels) && x in m && m[x] == 0.0
    ensures Total(labels, m[x := v]) == Total(labels, m) + (if x in labels then v else 0.0)
  {
    if labels != [] {
      var init, last := labels[..|labels| - 1], labels[|labels| - 1];
      assert labels == init + [last];
      TotalUpdate(init, m, x, v);
    }
  }

  lemma {:induction false} FilledAt(labels: seq<Label>, finalists: seq<Label>, ps: seq<real>, k: nat)
    requires AllDifferent(finalists) && |ps| == |finalists| && k <= |ps|
    requires forall i :: 0 <= i < |finalists| ==> finalists[i] in labels
    ensures forall i :: 0 <= i < |ps| ==> Filled(labels, finalists, ps, k)[finalists[i]] == if i < k then ps[i] else 0.0
    ensures forall x :: x in labels && x !in finalists ==> Filled(labels, finalists, ps, k)[x] == 0.0
  {
    if k > 0 { FilledAt(labels, finalists, ps, k - 1); }
  }

  lemma NotYetFilled(labels: seq<Label>, finalists: seq<Label>, ps: seq<real>, k: nat)
    requires AllDifferent(finalists) && |ps| == |finalists| && k < |ps|
    requires forall i :: 0 <= i < |finalists| ==> finalists[i] in labels
    ensures Filled(labels, finalists, ps, k)[finalists[k]] == 0.0
  {
    FilledAt(labels, finalists, ps, k);
  }

  lemma {:induction false} FilledTotal(labels: seq<Label>, finalists: seq<Label>, ps: seq<real>, k: nat)
    requires AllDifferent(labels) && AllDifferent(finalists) && |ps| == |finalists| && k <= |ps|
    requires forall i :: 0 <= i < |finalists| ==> finalists[i] in labels
    ensures Total(labels, Filled(labels, finalists, ps, k)) == Sum(ps[..k])
  {
    if k == 0 {
      TotalZero(labels, Zeros(labels));
    } else {
      FilledTotal(labels, finalists, ps, k - 1);
      NotYetFilled(labels, finalists, ps, k - 1);
      TotalUpdate(labels, Filled(labels, finalists, ps, k - 1), finalists[k - 1], ps[k - 1]);
      assert ps[..k][..k - 1] == ps[..k - 1];
    }
  }

  lemma ShareIs(a: real, total: real)
    requires total > 0.0 && a >= 0.0
    ensures a / total >= 0.0 && (a > 0.0 <==> a / total > 0.0)
    ensures total / total == 1.0
  {
  }

  /** Weights scaled by their sum add up to one and are positive where they were. */
  lemma ScaledIs(w: seq<real>)
    requires forall i :: 0 <= i < |w| ==> w[i] >= 0.0
    requires exists i :: 0 <= i < |w| && w[i] > 0.0
    ensures Sum(w) > 0.0 && Sum(Scaled(w, Sum(w))) == 1.0
    ensures forall i :: 0 <= i < |w| ==> Scaled(w, Sum(w))[i] >= 0.0 && (Scaled(w, Sum(w))[i] > 0.0 <==> w[i] > 0.0)
  {
    SumPositive(w);
    SumScaled(w, Sum(w));
    ShareIs(0.0, Sum(w));
    forall i | 0 <= i < |w|
      ensures Scaled(w, Sum(w))[i] >= 0.0 && (Scaled(w, Sum(w))[i] > 0.0 <==> w[i] > 0.0)
    {
      ShareIs(w[i], Sum(w));
    }
  }

  /**
   The answer to a wide choice is a distribution over all its options: it adds up to one, is
   nowhere negative, is zero on every eliminated option, and on a finalist is its weight's share
   of all the weights, positive exactly if the weight is.
   */
  lemma AnswerIsDistribution(labels: seq<Label>, finalists: seq<Label>, w: seq<real>)
    requires AllDifferent(labels) && AllDifferent(finalists) && |w| == |finalists|
    requires forall i :: 0 <= i < |finalists| ==> finalists[i] in labels
    requires forall i :: 0 <= i < |w| ==> w[i] >= 0.0
    requires exists i :: 0 <= i < |w| && w[i] > 0.0
    ensures Sum(w) > 0.0
    ensures var answer := Filled(labels, finalists, Scaled(w, Sum(w)), |w|);
      && Total(labels, answer) == 1.0
      && (forall x :: x in labels && x !in finalists ==> answer[x] == 0.0)
      && forall i :: 0 <= i < |w| ==>
           && answer[finalists[i]] == w[i] / Sum(w) && answer[finalists[i]] >= 0.0
           && (answer[finalists[i]] > 0.0 <==> w[i] > 0.0)
  {
    ScaledIs(w);
    SharesFill(labels, finalists, w, Scaled(w, Sum(w)));
  }

  lemma SharesFill(labels: seq<Label>, finalists: seq<Label>, w: seq<real>, ps: seq<real>)
    requires AllDifferent(labels) && AllDifferent(finalists) && |ps| == |finalists| == |w|
    requires forall i :: 0 <= i < |finalists| ==> finalists[i] in labels
    requires Sum(ps) == 1.0 && forall i :: 0 <= i < |w| ==> ps[i] >= 0.0 && (ps[i] > 0.0 <==> w[i] > 0.0)
    ensures var answer := Filled(labels, finalists, ps, |w|);
      && Total(labels, answer) == 1.0
      && (forall x :: x in labels && x !in finalists ==> answer[x] == 0.0)
      && forall i :: 0 <= i < |w| ==>
           answer[finalists[i]] == ps[i] >= 0.0 && (answer[finalists[i]] > 0.0 <==> w[i] > 0.0)
  {
    FilledIs(labels, finalists, ps);
  }

  lemma FilledIs(labels: seq<Label>, finalists: seq<Label>, ps: seq<real>)
    requires AllDifferent(labels) && AllDifferent(finalists) && |ps| == |finalists|
    requires forall i :: 0 <= i < |finalists| ==> finalists[i] in labels
    ensures var answer := Filled(labels, finalists, ps, |ps|);
      && Total(labels, answer) == Sum(ps)
      && (forall x :: x in labels && x !in finalists ==> answer[x] == 0.0)
      && forall i :: 0 <= i < |ps| ==> answer[finalists[i]] == ps[i]
  {
    FilledTotal(labels, finalists, ps, |ps|);
    FilledAt(labels, finalists, ps, |ps|);
    assert ps[..|ps|] == ps;
  }

  /** The answer of a tournament, whatever its rounds preferred: its finalists meet these conditions. */
  lemma TournamentAnswer(p: Preference, labels: seq<Label>, w: seq<real>)
    requires labels != [] && AllDifferent(labels) && |w| == |Play(p, labels).0|
    requires forall i :: 0 <= i < |w| ==> w[i] >= 0.0
    requires exists i :: 0 <= i < |w| && w[i] > 0.0
    ensures Sum(w) > 0.0 && forall i :: 0 <= i < |w| ==> Play(p, labels).0[i] in labels
    ensures var finalists := Play(p, labels).0;
      var answer := Filled(labels, finalists, Scaled(w, Sum(w)), |w|);
      && Total(labels, answer) == 1.0
      && (forall x :: x in labels && x !in finalists ==> answer[x] == 0.0)
      && forall i :: 0 <= i < |w| ==>
           && answer[finalists[i]] == w[i] / Sum(w) && answer[finalists[i]] >= 0.0
           && (answer[finalists[i]] > 0.0 <==> w[i] > 0.0)
  {
    PlayEnds(p, labels);
    var finalists := Play(p, labels).0;
    forall i | 0 <= i < |finalists| ensures finalists[i] in labels { assert finalists[i] in finalists; }
    AnswerIsDistribution(labels, finalists, w);
  }
}
