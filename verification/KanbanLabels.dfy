/**
 A ticket's labels: trimmed, none blank, and none twice in any ASCII case. An edit replaces
 the set, then removes labels, then adds some.
 */
module KanbanLabels {
  import opened Options
  import opened Text
  import Names = KanbanNames

  predicate Same(a: string, b: string) { Names.Fold(a) == Names.Fold(b) }

  /** The label is among them, in whatever case. */
  predicate Knows(labels: seq<string>, name: string) {
    exists i :: 0 <= i < |labels| && Same(labels[i], name)
  }

  lemma KnowsMore(labels: seq<string>, more: string, x: string)
    ensures Knows(labels + [more], x) <==> Knows(labels, x) || Same(more, x)
  {
    var all := labels + [more];
    assert all[|labels|] == more;
    if i :| 0 <= i < |labels| && Same(labels[i], x) { assert all[i] == labels[i]; }
  }

  /** What a ticket may carry. */
  predicate Tidy(labels: seq<string>) {
    && (forall i :: 0 <= i < |labels| ==> labels[i] != "" && Trimmed(labels[i]))
    && (forall i, j :: 0 <= i < j < |labels| ==> !Same(labels[i], labels[j]))
  }

  lemma TidyMore(labels: seq<string>, x: string)
    requires Tidy(labels) && x != "" && Trimmed(x) && !Knows(labels, x)
    ensures Tidy(labels + [x])
  {
  }

  /** Labels with `gone` dropped in any case. */
  function Keep(labels: seq<string>, gone: string): (r: seq<string>)
    ensures forall i :: 0 <= i < |r| ==> !Same(r[i], gone)
    ensures |r| <= |labels|
    ensures |r| == |labels| ==> r == labels
  {
    if labels == [] then []
    else
      var init := Keep(labels[..|labels| - 1], gone);
      var last := labels[|labels| - 1];
      if Same(last, gone) then init else init + [last]
  }

  lemma {:induction false} KeepKnows(labels: seq<string>, gone: string, x: string)
    ensures Knows(Keep(labels, gone), x) <==> Knows(labels, x) && !Same(gone, x)
  {
    if labels != [] {
      var init, last := labels[..|labels| - 1], labels[|labels| - 1];
      KeepKnows(init, gone, x);
      KnowsMore(init, last, x);
      KnowsMore(Keep(init, gone), last, x);
      assert labels == init + [last];
    }
  }

  /** What is kept are the labels that differ from the one taken away, as they are. */
  lemma {:induction false} KeepIs(labels: seq<string>, gone: string)
    ensures forall l :: l in Keep(labels, gone) <==> l in labels && !Same(l, gone)
  {
    if labels != [] {
      KeepIs(labels[..|labels| - 1], gone);
      assert labels == labels[..|labels| - 1] + [labels[|labels| - 1]];
    }
  }

  lemma {:induction false} KeepTidy(labels: seq<string>, gone: string)
    requires Tidy(labels)
    ensures Tidy(Keep(labels, gone))
  {
    if labels != [] {
      var init, last := labels[..|labels| - 1], labels[|labels| - 1];
      KeepTidy(init, gone);
      KeepKnows(init, gone, last);
      assert !Knows(init, last);
      if !Same(last, gone) { TidyMore(Keep(init, gone), last); }
    }
  }

  /** Labels as given, trimmed; blank ones and repeats in any case are dropped. */
  function Clean(given: seq<string>): seq<string> {
    if given == [] then []
    else Plus(Clean(given[..|given| - 1]), Trim(given[|given| - 1]))
  }

  function Plus(labels: seq<string>, x: string): seq<string> {
    if x == "" || Knows(labels, x) then labels else labels + [x]
  }

  lemma {:induction false} CleanTidy(given: seq<string>)
    ensures Tidy(Clean(given))
  {
    if given != [] {
      var init, last := given[..|given| - 1], Trim(given[|given| - 1]);
      CleanTidy(init);
      TrimIs(given[|given| - 1]);
      if last != "" && !Knows(Clean(init), last) { TidyMore(Clean(init), last); }
    }
  }

  lemma PlusKnows(labels: seq<string>, more: string, x: string)
    requires x != ""
    ensures Knows(Plus(labels, more), x) <==> Knows(labels, x) || Same(more, x)
  {
    KnowsMore(labels, more, x);
    if Same(more, x) { KnowsSame(labels, more, x); }
  }

  /** Cleaned labels are tidy, and a label is among them exactly if it was given. */
  lemma {:induction false} CleanIs(given: seq<string>, x: string)
    requires x != ""
    ensures Tidy(Clean(given))
    ensures Knows(Clean(given), x) <==> exists i :: 0 <= i < |given| && Same(Trim(given[i]), x)
  {
    CleanTidy(given);
    if given != [] {
      var init := given[..|given| - 1];
      CleanIs(init, x);
      PlusKnows(Clean(init), Trim(given[|given| - 1]), x);
      if i :| 0 <= i < |init| && Same(Trim(init[i]), x) { assert given[i] == init[i]; }
      if i :| 0 <= i < |given| && Same(Trim(given[i]), x) { assert i < |init| ==> init[i] == given[i]; }
    }
  }

  lemma KnowsSame(labels: seq<string>, a: string, b: string)
    requires Same(a, b)
    ensures Knows(labels, a) <==> Knows(labels, b)
  {
    if i :| 0 <= i < |labels| && Same(labels[i], a) { assert Same(labels[i], b); }
    if i :| 0 <= i < |labels| && Same(labels[i], b) { assert Same(labels[i], a); }
  }

  function Minus(labels: seq<string>, gone: seq<string>): seq<string> {
    if gone == [] then labels else Keep(Minus(labels, gone[..|gone| - 1]), gone[|gone| - 1])
  }

  function Joined(labels: seq<string>, added: seq<string>): seq<string> {
    if added == [] then labels else Plus(Joined(labels, added[..|added| - 1]), added[|added| - 1])
  }

  /** An edit: the labels replaced, if others are given, then some removed, then some added. */
  function EditLabels(
    labels: seq<string>, replace: Option<seq<string>>, remove: seq<string>, add: seq<string>): seq<string>
  {
    Joined(Minus(if replace.Some? then Clean(replace.value) else labels, Clean(remove)), Clean(add))
  }

  lemma {:induction false} MinusIs(labels: seq<string>, gone: seq<string>, x: string)
    requires Tidy(labels)
    ensures Tidy(Minus(labels, gone))
    ensures Knows(Minus(labels, gone), x) <==> Knows(labels, x) && !Knows(gone, x)
  {
    if gone != [] {
      var init, last := gone[..|gone| - 1], gone[|gone| - 1];
      MinusIs(labels, init, x);
      KeepTidy(Minus(labels, init), last);
      KeepKnows(Minus(labels, init), last, x);
      KnowsMore(init, last, x);
      assert gone == init + [last];
    }
  }

  lemma {:induction false} JoinedIs(labels: seq<string>, added: seq<string>, x: string)
    requires Tidy(labels) && Tidy(added)
    ensures Tidy(Joined(labels, added))
    ensures Knows(Joined(labels, added), x) <==> Knows(labels, x) || Knows(added, x)
  {
    if added != [] {
      var init, last := added[..|added| - 1], added[|added| - 1];
      JoinedIs(labels, init, x);
      KnowsMore(init, last, x);
      KnowsMore(Joined(labels, init), last, x);
      assert added == init + [last];
      if Same(last, x) { KnowsSame(Joined(labels, init), last, x); }
      if !Knows(Joined(labels, init), last) { TidyMore(Joined(labels, init), last); }
    }
  }

  /**
   After an edit the labels are tidy again, and a label is among them exactly if it is among
   those added, or among those kept and not among those removed.
   */
  lemma EditIs(
    labels: seq<string>, replace: Option<seq<string>>, remove: seq<string>, add: seq<string>, x: string)
    requires Tidy(labels)
    ensures Tidy(EditLabels(labels, replace, remove, add))
    ensures Knows(EditLabels(labels, replace, remove, add), x) <==>
      Knows(Clean(add), x) ||
      (Knows(if replace.Some? then Clean(replace.value) else labels, x) && !Knows(Clean(remove), x))
  {
    var base := if replace.Some? then Clean(replace.value) else labels;
    if replace.Some? { CleanTidy(replace.value); }
    CleanTidy(remove);
    CleanTidy(add);
    MinusIs(base, Clean(remove), x);
    JoinedIs(Minus(base, Clean(remove)), Clean(add), x);
  }

  /** The clean-up as the loop does it. */
  method CleanLabels(given: seq<string>) returns (r: seq<string>)
    ensures r == Clean(given)
  {
    r := [];
    for i := 0 to |given|
      invariant r == Clean(given[..i])
    {
      assert given[..i + 1][..i] == given[..i];
      r := Plus(r, Trim(given[i]));
    }
    assert given[..|given|] == given;
  }
}
