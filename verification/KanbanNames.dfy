/**
 Projects and releases are referred to by id or by name, ignoring case. A new name must
 differ from every other name and every other id of its kind, so that a reference never
 means two things.
 */
module KanbanNames {
  import opened Options

  type Names = map<string, string>

  function Lower(c: char): char {
    if 'A' <= c <= 'Z' then c - 'A' + 'a' else c
  }

  /** ASCII case folded away. */
  function Fold(s: string): (r: string)
    ensures |r| == |s|
  {
    if s == "" then "" else Fold(s[..|s| - 1]) + [Lower(s[|s| - 1])]
  }

  /** The same letter, or the two cases of one. */
  predicate SameLetter(a: char, b: char) {
    || a == b
    || ('A' <= a <= 'Z' && b as int == a as int + 32)
    || ('A' <= b <= 'Z' && a as int == b as int + 32)
  }

  lemma LowerExactly(a: char, b: char)
    ensures Lower(a) == Lower(b) <==> SameLetter(a, b)
  {
    assert 'a' as int == 'A' as int + 32;
  }

  lemma {:induction false} FoldAt(s: string, i: nat)
    requires i < |s|
    ensures Fold(s)[i] == Lower(s[i])
  {
    if i < |s| - 1 { FoldAt(s[..|s| - 1], i); }
  }

  /** Two texts are the same with case folded away exactly if they are letter by letter. */
  lemma FoldExactly(s: string, t: string)
    ensures Fold(s) == Fold(t) <==> |s| == |t| && forall i :: 0 <= i < |s| ==> SameLetter(s[i], t[i])
  {
    if |s| == |t| {
      forall i | 0 <= i < |s| ensures Fold(s)[i] == Fold(t)[i] <==> SameLetter(s[i], t[i]) {
        FoldAt(s, i);
        FoldAt(t, i);
        LowerExactly(s[i], t[i]);
      }
    }
  }

  predicate Matches(id: string, name: string, reference: string) {
    Fold(id) == Fold(reference) || Fold(name) == Fold(reference)
  }

  /** The lookup: exactly that id, else an id in another case, else a name. */
  ghost function Find(names: Names, reference: string): (r: Option<string>)
    ensures r.Some? ==> r.value in names && Matches(r.value, names[r.value], reference)
  {
    if reference == "" then None
    else if reference in names then Some(reference)
    else if id :| id in names && Fold(id) == Fold(reference) then Some(id)
    else if id :| id in names && Fold(names[id]) == Fold(reference) then Some(id)
    else None
  }

  /** The name is nobody else's name and nobody else's id. */
  predicate Free(names: Names, name: string, except: Option<string>) {
    forall e :: e in names && except != Some(e) ==> Fold(names[e]) != Fold(name) && Fold(e) != Fold(name)
  }

  /** A generated id: not the id and not the name of anything. */
  predicate FreshId(names: Names, id: string) {
    id != "" && forall e :: e in names ==> Fold(e) != Fold(id) && Fold(names[e]) != Fold(id)
  }

  ghost predicate Apart(names: Names, a: string, b: string)
    requires a in names && b in names
  {
    Fold(names[a]) != Fold(names[b]) && Fold(a) != Fold(names[b]) && Fold(a) != Fold(b)
  }

  ghost predicate Unambiguous(names: Names) {
    forall a, b :: a in names && b in names && a != b ==> Apart(names, a, b)
  }

  /** Every reference finds the one entity it matches, by id or by name. */
  lemma FindIs(names: Names, id: string, reference: string)
    requires Unambiguous(names) && id in names
    ensures Find(names, reference) == Some(id) <==> reference != "" && Matches(id, names[id], reference)
  {
    var r := Find(names, reference);
    if r.Some? && r.value != id {
      assert Apart(names, id, r.value) && Apart(names, r.value, id);
    }
  }

  /** Taking the name keeps references unambiguous exactly when it is free. */
  lemma AddName(names: Names, id: string, name: string)
    requires Unambiguous(names) && FreshId(names, id)
    ensures Unambiguous(names[id := name]) <==> Free(names, name, None)
  {
    var next := names[id := name];
    assert id !in names;
    if Free(names, name, None) {
      forall a, b | a in next && b in next && a != b ensures Apart(next, a, b) {
        if a != id && b != id { assert Apart(names, a, b); }
      }
    } else {
      var e :| e in names && !(Fold(names[e]) != Fold(name) && Fold(e) != Fold(name));
      assert next[e] == names[e] && next[id] == name;
      assert !Apart(next, e, id);
    }
  }

  lemma Rename(names: Names, id: string, name: string)
    requires Unambiguous(names) && id in names
    ensures Unambiguous(names[id := name]) <==> Free(names, name, Some(id))
  {
    var next := names[id := name];
    if Free(names, name, Some(id)) {
      forall a, b | a in next && b in next && a != b ensures Apart(next, a, b) {
        assert Apart(names, a, b) && Apart(names, b, a);
      }
    } else {
      var e :| e in names && e != id && !(Fold(names[e]) != Fold(name) && Fold(e) != Fold(name));
      assert next[e] == names[e] && next[id] == name;
      assert !Apart(next, e, id);
    }
  }

  lemma DropName(names: Names, id: string)
    requires Unambiguous(names)
    ensures Unambiguous(names - {id})
  {
    forall a, b | a in names - {id} && b in names - {id} && a != b ensures Apart(names - {id}, a, b) {
      assert Apart(names, a, b);
    }
  }

  /** The scan behind every reference. */
  method FindEntity(names: Names, reference: string) returns (r: Option<string>)
    requires Unambiguous(names)
    ensures r == Find(names, reference)
  {
    if reference == "" { return None; }
    if reference in names { return Some(reference); }
    var todo := names.Keys;
    while todo != {}
      invariant todo <= names.Keys
      invariant forall e :: e in names && e !in todo ==> !Matches(e, names[e], reference)
    {
      var e :| e in todo;
      if Fold(e) == Fold(reference) || Fold(names[e]) == Fold(reference) {
        FindIs(names, e, reference);
        return Some(e);
      }
      todo := todo - {e};
    }
    return None;
  }
}
