/**
 Columns as the board shows them. A column lists its live tickets by `order`, then by age;
 moving a ticket renumbers the column it lands in and the one it leaves.
 */
module KanbanLanes {
  import opened Options
  import opened KanbanModel

  predicate InLane(tickets: Tickets, id: Id, status: Status) {
    id in tickets && tickets[id].Live() && tickets[id].status == status
  }

  predicate AllIn(tickets: Tickets, ids: seq<Id>) {
    forall i :: 0 <= i < |ids| ==> ids[i] in tickets
  }

  /** Display order: by `order`, then the older one first. */
  predicate Before(t: Ticket, u: Ticket) {
    t.order < u.order || (t.order == u.order && t.createdAt <= u.createdAt)
  }

  function Insert(tickets: Tickets, sorted: seq<Id>, id: Id): (r: seq<Id>)
    requires AllIn(tickets, sorted) && id in tickets
    ensures AllIn(tickets, r)
  {
    if sorted == [] then [id]
    else
      var last := sorted[|sorted| - 1];
      if Before(tickets[last], tickets[id]) then sorted + [id]
      else Insert(tickets, sorted[..|sorted| - 1], id) + [last]
  }

  /** The column as displayed: a stable sort of the rows that are in it. */
  function Column(tickets: Tickets, rows: seq<Id>, status: Status): (r: seq<Id>)
    ensures AllIn(tickets, r)
  {
    if rows == [] then []
    else
      var init := Column(tickets, rows[..|rows| - 1], status);
      var last := rows[|rows| - 1];
      if InLane(tickets, last, status) then Insert(tickets, init, last) else init
  }

  ghost predicate Sorted(tickets: Tickets, ids: seq<Id>)
    requires AllIn(tickets, ids)
  {
    forall i, j :: 0 <= i < j < |ids| ==> Before(tickets[ids[i]], tickets[ids[j]])
  }

  lemma {:induction false} InsertIs(tickets: Tickets, sorted: seq<Id>, id: Id)
    requires AllIn(tickets, sorted) && id in tickets && Sorted(tickets, sorted)
    requires Distinct(sorted) && id !in sorted
    ensures Sorted(tickets, Insert(tickets, sorted, id)) && Distinct(Insert(tickets, sorted, id))
    ensures forall x :: x in Insert(tickets, sorted, id) <==> x in sorted || x == id
  {
    if sorted != [] {
      var init, last := sorted[..|sorted| - 1], sorted[|sorted| - 1];
      assert sorted == init + [last];
      if !Before(tickets[last], tickets[id]) {
        InsertIs(tickets, init, id);
        var r := Insert(tickets, init, id);
        forall i | 0 <= i < |r| ensures Before(tickets[r[i]], tickets[last]) && r[i] != last {
          assert r[i] in r;
        }
      }
    }
  }

  lemma {:induction false} ColumnIs(tickets: Tickets, rows: seq<Id>, status: Status)
    requires Distinct(rows)
    ensures var c := Column(tickets, rows, status);
      && Sorted(tickets, c) && Distinct(c)
      && forall id :: id in c <==> id in rows && InLane(tickets, id, status)
  {
    if rows != [] {
      var init, last := rows[..|rows| - 1], rows[|rows| - 1];
      ColumnIs(tickets, init, status);
      assert rows == init + [last];
      if InLane(tickets, last, status) {
        InsertIs(tickets, Column(tickets, init, status), last);
      }
    }
  }

  // ------------------------------------------------------------ renumbering

  function Renumber(tickets: Tickets, ids: seq<Id>): Tickets {
    if ids == [] then tickets
    else
      var m := Renumber(tickets, ids[..|ids| - 1]);
      var last := ids[|ids| - 1];
      if last in m then m[last := m[last].(order := |ids|)] else m
  }

  lemma {:induction false} RenumberKeys(tickets: Tickets, ids: seq<Id>)
    ensures Renumber(tickets, ids).Keys == tickets.Keys
  {
    if ids != [] { RenumberKeys(tickets, ids[..|ids| - 1]); }
  }

  lemma {:induction false} RenumberOther(tickets: Tickets, ids: seq<Id>, id: Id)
    requires id in tickets && id !in ids
    ensures id in Renumber(tickets, ids) && Renumber(tickets, ids)[id] == tickets[id]
  {
    if ids != [] { RenumberOther(tickets, ids[..|ids| - 1], id); }
  }

  lemma {:induction false} RenumberAt(tickets: Tickets, ids: seq<Id>, i: nat)
    requires AllIn(tickets, ids) && Distinct(ids) && i < |ids|
    ensures ids[i] in Renumber(tickets, ids) && Renumber(tickets, ids)[ids[i]] == tickets[ids[i]].(order := i + 1)
  {
    var n := |ids| - 1;
    var init := ids[..n];
    if i < n {
      RenumberAt(tickets, init, i);
      assert ids[i] == init[i] && ids[i] != ids[n];
    } else {
      RenumberOther(tickets, init, ids[n]);
    }
  }

  lemma RenumberIs(tickets: Tickets, ids: seq<Id>)
    requires AllIn(tickets, ids) && Distinct(ids)
    ensures Renumber(tickets, ids).Keys == tickets.Keys
    ensures forall i :: 0 <= i < |ids| ==> Renumber(tickets, ids)[ids[i]] == tickets[ids[i]].(order := i + 1)
    ensures forall id :: id in tickets && id !in ids ==> Renumber(tickets, ids)[id] == tickets[id]
  {
    RenumberKeys(tickets, ids);
    forall i | 0 <= i < |ids| ensures Renumber(tickets, ids)[ids[i]] == tickets[ids[i]].(order := i + 1) {
      RenumberAt(tickets, ids, i);
    }
    forall id | id in tickets && id !in ids ensures Renumber(tickets, ids)[id] == tickets[id] {
      RenumberOther(tickets, ids, id);
    }
  }

  method RenumberLane(tickets: Tickets, ids: seq<Id>) returns (r: Tickets)
    ensures r == Renumber(tickets, ids)
  {
    r := tickets;
    for i := 0 to |ids|
      invariant r == Renumber(tickets, ids[..i])
    {
      assert ids[..i + 1][..i] == ids[..i];
      if ids[i] in r {
        r := r[ids[i] := r[ids[i]].(order := i + 1)];
      }
    }
    assert ids[..|ids|] == ids;
  }

  // ------------------------------------------------------------ numbered columns show in their order

  ghost predicate Numbered(tickets: Tickets, ids: seq<Id>) {
    AllIn(tickets, ids) && forall i :: 0 <= i < |ids| ==> tickets[ids[i]].order == i + 1
  }

  lemma {:induction false} DistinctCard(s: seq<Id>)
    requires Distinct(s)
    ensures |set x | x in s| == |s|
  {
    if s != [] {
      var init, last := s[..|s| - 1], s[|s| - 1];
      DistinctCard(init);
      assert s == init + [last];
      assert (set x | x in s) == (set x | x in init) + {last};
      assert last !in init;
    }
  }

  lemma SameLength(a: seq<Id>, b: seq<Id>)
    requires Distinct(a) && Distinct(b) && forall x :: x in a <==> x in b
    ensures |a| == |b|
  {
    DistinctCard(a);
    DistinctCard(b);
    assert (set x | x in a) == (set x | x in b);
  }

  /** In a sorted arrangement of numbered tickets, the ticket at `i` has at least number `i + 1`. */
  lemma {:induction false} AtLeast(tickets: Tickets, ids: seq<Id>, c: seq<Id>, i: nat)
    requires Numbered(tickets, ids) && AllIn(tickets, c) && Sorted(tickets, c) && Distinct(c)
    requires forall x :: x in c ==> x in ids
    requires i < |c|
    ensures tickets[c[i]].order >= i + 1
  {
    assert c[i] in c;
    if i > 0 {
      AtLeast(tickets, ids, c, i - 1);
      assert c[i - 1] in c && c[i - 1] != c[i];
      assert tickets[c[i - 1]].order < tickets[c[i]].order;
    }
  }

  lemma {:induction false} AtMost(tickets: Tickets, ids: seq<Id>, c: seq<Id>, i: nat)
    requires Numbered(tickets, ids) && AllIn(tickets, c) && Sorted(tickets, c) && Distinct(c)
    requires forall x :: x in c ==> x in ids
    requires i < |c| == |ids|
    ensures tickets[c[i]].order <= i + 1
    decreases |c| - i
  {
    assert c[i] in c;
    if i + 1 < |c| {
      AtMost(tickets, ids, c, i + 1);
      assert c[i + 1] in c && c[i] != c[i + 1];
      assert tickets[c[i]].order < tickets[c[i + 1]].order;
    }
  }

  /** A column whose tickets are numbered 1, 2, ... is displayed in that order. */
  lemma NumberedShows(tickets: Tickets, rows: seq<Id>, status: Status, ids: seq<Id>)
    requires Distinct(rows) && Distinct(ids) && Numbered(tickets, ids)
    requires forall id :: id in ids <==> id in rows && InLane(tickets, id, status)
    ensures Column(tickets, rows, status) == ids
  {
    var c := Column(tickets, rows, status);
    ColumnIs(tickets, rows, status);
    SameLength(c, ids);
    forall i | 0 <= i < |c| ensures c[i] == ids[i] {
      AtLeast(tickets, ids, c, i);
      AtMost(tickets, ids, c, i);
      assert c[i] in c;
    }
  }

  // ------------------------------------------------------------ moving

  function Without(ids: seq<Id>, id: Id): seq<Id> {
    if ids == [] then []
    else Without(ids[..|ids| - 1], id) + (if ids[|ids| - 1] == id then [] else [ids[|ids| - 1]])
  }

  lemma {:induction false} WithoutIs(ids: seq<Id>, id: Id)
    requires Distinct(ids)
    ensures Distinct(Without(ids, id))
    ensures forall x :: x in Without(ids, id) <==> x in ids && x != id
  {
    if ids != [] {
      var init, last := ids[..|ids| - 1], ids[|ids| - 1];
      WithoutIs(init, id);
      assert ids == init + [last];
      DistinctInsert(Without(init, id), |Without(init, id)|, last);
      assert Without(init, id) + [last] + [] == Without(init, id) + [last];
    }
  }

  lemma DistinctInsert(s: seq<Id>, k: nat, x: Id)
    requires Distinct(s) && k <= |s|
    ensures x !in s ==> Distinct(s[..k] + [x] + s[k..])
    ensures k == |s| ==> s[..k] + [x] + s[k..] == s + [x]
  {
    var r := s[..k] + [x] + s[k..];
    if x !in s {
      assert forall i :: 0 <= i < |s| ==> s[i] != x;
      forall i, j | 0 <= i < j < |r| ensures r[i] != r[j] {
        assert i < k ==> r[i] == s[i];
        assert i > k ==> r[i] == s[i - 1];
        assert j < k ==> r[j] == s[j];
        assert j > k ==> r[j] == s[j - 1];
      }
    }
  }

  /** A column is shown by number, and tickets of one number by age. */
  lemma ShownInOrder(tickets: Tickets, rows: seq<Id>, status: Status, i: nat, j: nat)
    requires Distinct(rows) && i < j < |Column(tickets, rows, status)|
    ensures var t, u := Column(tickets, rows, status)[i], Column(tickets, rows, status)[j];
      && t in tickets && u in tickets && tickets[t].order <= tickets[u].order
      && (tickets[t].order == tickets[u].order ==> tickets[t].createdAt <= tickets[u].createdAt)
  {
    ColumnIs(tickets, rows, status);
  }

  /** The column with `id` at the wanted place: the end when none is given or it is past the end. */
  function Placed(column: seq<Id>, id: Id, index: Option<nat>): seq<Id> {
    var others := Without(column, id);
    var k := if index.Some? && index.value < |others| then index.value else |others|;
    others[..k] + [id] + others[k..]
  }

  lemma PlacedIs(column: seq<Id>, id: Id, index: Option<nat>)
    requires Distinct(column)
    ensures Distinct(Placed(column, id, index))
    ensures forall x :: x in Placed(column, id, index) <==> x in column || x == id
  {
    WithoutIs(column, id);
    var others := Without(column, id);
    var k := if index.Some? && index.value < |others| then index.value else |others|;
    assert others == others[..k] + others[k..];
    DistinctInsert(others, k, id);
  }

  /** The tickets after moving `id` to a column it is not already shown at that place of. */
  function Relocated(tickets: Tickets, rows: seq<Id>, id: Id, status: Status, ordered: seq<Id>, at: Time): Tickets
    requires id in tickets
  {
    var numbered := Renumber(tickets, ordered);
    if id !in numbered then tickets
    else
      var moved := numbered[id := numbered[id].(status := status, updatedAt := at)];
      var from := tickets[id].status;
      if from == status then moved else Renumber(moved, Column(moved, rows, from))
  }

  function Move(tickets: Tickets, rows: seq<Id>, id: Id, status: Status, index: Option<nat>, at: Time): Tickets
    requires id in tickets
  {
    var column := Column(tickets, rows, status);
    var ordered := Placed(column, id, index);
    if tickets[id].status == status && column == ordered then tickets
    else Relocated(tickets, rows, id, status, ordered, at)
  }

  /** Only numbers differ between the two, and only of tickets listed in `ids`. */
  ghost predicate OnlyNumbers(a: Tickets, b: Tickets, ids: seq<Id>) {
    && a.Keys == b.Keys
    && (forall id :: id in a ==> b[id] == a[id].(order := b[id].order))
    && (forall id :: id in a && id !in ids ==> b[id] == a[id])
  }

  lemma RenumberOnly(tickets: Tickets, ids: seq<Id>)
    requires AllIn(tickets, ids) && Distinct(ids)
    ensures OnlyNumbers(tickets, Renumber(tickets, ids), ids)
    ensures Numbered(Renumber(tickets, ids), ids)
  {
    RenumberIs(tickets, ids);
    var r := Renumber(tickets, ids);
    forall id | id in tickets ensures r[id] == tickets[id].(order := r[id].order) {
      if id in ids {
        var i :| 0 <= i < |ids| && ids[i] == id;
        assert r[ids[i]] == tickets[ids[i]].(order := i + 1);
      }
    }
  }

  /** What a move leaves: the ticket in its new column, everybody else with at most a new number. */
  lemma RelocatedIs(tickets: Tickets, rows: seq<Id>, id: Id, status: Status, ordered: seq<Id>, at: Time)
    requires Distinct(rows) && id in rows && id in tickets && tickets[id].Live()
    requires Distinct(ordered) && AllIn(tickets, ordered) && id in ordered
    requires forall x :: x in ordered && x != id ==> InLane(tickets, x, status)
    ensures var r := Relocated(tickets, rows, id, status, ordered, at);
      && r.Keys == tickets.Keys
      && r[id] == tickets[id].(status := status, updatedAt := at, order := r[id].order)
      && (forall x :: x in tickets && x != id ==> r[x] == tickets[x].(order := r[x].order))
      && Numbered(r, ordered)
  {
    RenumberOnly(tickets, ordered);
    var numbered := Renumber(tickets, ordered);
    var moved := numbered[id := numbered[id].(status := status, updatedAt := at)];
    var from := tickets[id].status;
    if from != status {
      var column := Column(moved, rows, from);
      ColumnIs(moved, rows, from);
      RenumberOnly(moved, column);
      forall x | x in ordered ensures x !in column {
        assert !InLane(moved, x, from);
      }
    }
  }

  /**
   After a move that changes anything, the column shows the ticket at the place asked for
   and the others in the order they had.
   */
  lemma MoveShows(tickets: Tickets, rows: seq<Id>, id: Id, status: Status, index: Option<nat>, at: Time)
    requires Distinct(rows) && id in rows && id in tickets && tickets[id].Live()
    ensures Column(Move(tickets, rows, id, status, index, at), rows, status) ==
      Placed(Column(tickets, rows, status), id, index)
  {
    var column := Column(tickets, rows, status);
    ColumnIs(tickets, rows, status);
    PlacedIs(column, id, index);
    var ordered := Placed(column, id, index);
    if !(tickets[id].status == status && column == ordered) {
      PlacedAllIn(tickets, column, id, index);
      RelocatedIs(tickets, rows, id, status, ordered, at);
      var r := Relocated(tickets, rows, id, status, ordered, at);
      forall x ensures x in ordered <==> x in rows && InLane(r, x, status) {
        assert x in column <==> x in rows && InLane(tickets, x, status);
      }
      NumberedShows(r, rows, status, ordered);
    }
  }

  lemma PlacedAllIn(tickets: Tickets, column: seq<Id>, id: Id, index: Option<nat>)
    requires Distinct(column) && AllIn(tickets, column) && id in tickets
    ensures AllIn(tickets, Placed(column, id, index)) && id in Placed(column, id, index)
  {
    PlacedIs(column, id, index);
    var ordered := Placed(column, id, index);
    forall i | 0 <= i < |ordered| ensures ordered[i] in tickets { assert ordered[i] in ordered; }
  }

  /** A move changes no other ticket but for its number, and stamps the moved one. */
  lemma MoveChanges(tickets: Tickets, rows: seq<Id>, id: Id, status: Status, index: Option<nat>, at: Time)
    requires Distinct(rows) && id in rows && id in tickets && tickets[id].Live()
    ensures var r := Move(tickets, rows, id, status, index, at);
      && r.Keys == tickets.Keys
      && (r == tickets || r[id] == tickets[id].(status := status, updatedAt := at, order := r[id].order))
      && (forall x :: x in tickets && x != id ==> r[x] == tickets[x].(order := r[x].order))
  {
    var column := Column(tickets, rows, status);
    ColumnIs(tickets, rows, status);
    PlacedIs(column, id, index);
    var ordered := Placed(column, id, index);
    if !(tickets[id].status == status && column == ordered) {
      PlacedAllIn(tickets, column, id, index);
      RelocatedIs(tickets, rows, id, status, ordered, at);
    }
  }

  // ------------------------------------------------------------ the column left behind

  lemma {:induction false} AppendLast(tickets: Tickets, s: seq<Id>, x: Id)
    requires AllIn(tickets, s) && x in tickets && forall i :: 0 <= i < |s| ==> Before(tickets[s[i]], tickets[x])
    ensures Insert(tickets, s, x) == s + [x]
  {
  }

  lemma {:induction false} InsertWithout(tickets: Tickets, s: seq<Id>, x: Id, id: Id)
    requires AllIn(tickets, s) && AllIn(tickets, Without(s, id)) && Sorted(tickets, s) && x in tickets && x != id &&
      Distinct(s)
    ensures Insert(tickets, Without(s, id), x) == Without(Insert(tickets, s, x), id)
  {
    if s != [] {
      var init, last := s[..|s| - 1], s[|s| - 1];
      WithoutIs(init, id);
      if Before(tickets[last], tickets[x]) {
        assert (s + [x])[..|s|] == s;
        forall i | 0 <= i < |Without(s, id)| ensures Before(tickets[Without(s, id)[i]], tickets[x]) {
          WithoutIs(s, id);
          assert Without(s, id)[i] in Without(s, id);
        }
        AppendLast(tickets, Without(s, id), x);
      } else {
        var r := Insert(tickets, init, x);
        assert (r + [last])[..|r|] == r;
        assert AllIn(tickets, Without(init, id)) by {
          forall i | 0 <= i < |Without(init, id)| ensures Without(init, id)[i] in tickets {
            assert Without(init, id)[i] in Without(init, id);
          }
        }
        InsertWithout(tickets, init, x, id);
        var w := Without(init, id);
        assert Insert(tickets, s, x) == r + [last];
        assert Without(r + [last], id) == Without(r, id) + (if last == id then [] else [last]);
        if last == id {
          assert Without(s, id) == w;
        } else {
          assert Without(s, id) == w + [last];
          assert (w + [last])[..|w|] == w;
        }
      }
    }
  }

  /** Tickets that agree on a column, except that `id` has left it. */
  ghost predicate LeftBy(a: Tickets, b: Tickets, rows: seq<Id>, status: Status, id: Id) {
    && (forall x :: x in rows && x != id ==> (InLane(a, x, status) <==> InLane(b, x, status)))
    && (forall x :: x in rows && x != id && InLane(a, x, status) ==> a[x] == b[x])
    && !InLane(b, id, status)
  }

  lemma {:induction false} InsertSame(a: Tickets, b: Tickets, s: seq<Id>, x: Id)
    requires AllIn(a, s) && AllIn(b, s) && x in a && x in b && a[x] == b[x]
    requires forall i :: 0 <= i < |s| ==> a[s[i]] == b[s[i]]
    ensures Insert(a, s, x) == Insert(b, s, x)
  {
    if s != [] { InsertSame(a, b, s[..|s| - 1], x); }
  }

  lemma {:induction false} ColumnLeft(a: Tickets, b: Tickets, rows: seq<Id>, status: Status, id: Id)
    requires Distinct(rows) && LeftBy(a, b, rows, status, id)
    ensures Column(b, rows, status) == Without(Column(a, rows, status), id)
  {
    if rows != [] {
      var init, last := rows[..|rows| - 1], rows[|rows| - 1];
      assert rows == init + [last];
      ColumnLeft(a, b, init, status, id);
      ColumnIs(a, init, status);
      ColumnIs(b, init, status);
      var ca, cb := Column(a, init, status), Column(b, init, status);
      if last == id {
        if InLane(a, id, status) { InsertGone(a, ca, id); }
      } else if InLane(a, last, status) {
        WithoutIs(ca, id);
        assert AllIn(a, cb) && forall i :: 0 <= i < |cb| ==> a[cb[i]] == b[cb[i]] by {
          forall i | 0 <= i < |cb| ensures cb[i] in a && a[cb[i]] == b[cb[i]] { assert cb[i] in cb; }
        }
        InsertSame(a, b, cb, last);
        InsertWithout(a, ca, last, id);
      }
    }
  }

  lemma {:induction false} InsertGone(tickets: Tickets, s: seq<Id>, id: Id)
    requires AllIn(tickets, s) && id in tickets
    ensures Without(Insert(tickets, s, id), id) == Without(s, id)
  {
    var r := Insert(tickets, s, id);
    if s != [] {
      var init, last := s[..|s| - 1], s[|s| - 1];
      if Before(tickets[last], tickets[id]) {
        assert (s + [id])[..|s|] == s;
      } else {
        InsertGone(tickets, init, id);
        assert r[..|r| - 1] == Insert(tickets, init, id);
      }
    }
  }

  /** A move to another column leaves the rest of the old one in its order, numbered from one. */
  lemma MoveLeaves(tickets: Tickets, rows: seq<Id>, id: Id, status: Status, index: Option<nat>, at: Time)
    requires Distinct(rows) && id in rows && id in tickets && tickets[id].Live() && tickets[id].status != status
    ensures var r := Move(tickets, rows, id, status, index, at);
      var left := Without(Column(tickets, rows, tickets[id].status), id);
      Column(r, rows, tickets[id].status) == left && Numbered(r, left)
  {
    var from := tickets[id].status;
    var column := Column(tickets, rows, status);
    ColumnIs(tickets, rows, status);
    PlacedIs(column, id, index);
    var ordered := Placed(column, id, index);
    PlacedAllIn(tickets, column, id, index);
    RenumberOnly(tickets, ordered);
    var numbered := Renumber(tickets, ordered);
    var moved := numbered[id := numbered[id].(status := status, updatedAt := at)];
    forall x | x in rows && x != id ensures InLane(tickets, x, from) <==> InLane(moved, x, from) {
      assert x in tickets ==> moved[x].status == tickets[x].status;
    }
    forall x | x in rows && x != id && InLane(tickets, x, from) ensures tickets[x] == moved[x] {
      assert x !in ordered;
    }
    ColumnLeft(tickets, moved, rows, from, id);
    LeftNumbered(moved, rows, from);
  }

  lemma LeftNumbered(moved: Tickets, rows: seq<Id>, from: Status)
    requires Distinct(rows)
    ensures var left := Column(moved, rows, from);
      var r := Renumber(moved, left);
      Numbered(r, left) && Column(r, rows, from) == left
  {
    var left := Column(moved, rows, from);
    ColumnIs(moved, rows, from);
    RenumberOnly(moved, left);
    var r := Renumber(moved, left);
    forall x ensures x in left <==> x in rows && InLane(r, x, from) {
      assert x in moved ==> r[x].status == moved[x].status && r[x].deletedAt == moved[x].deletedAt;
    }
    NumberedShows(r, rows, from, left);
  }

  // ------------------------------------------------------------ which tickets a move renumbers

  /** The number of a ticket in a column: its place from one, and 0 if it is not there. */
  function PlaceIn(ids: seq<Id>, x: Id): nat {
    if ids == [] then 0
    else if ids[|ids| - 1] == x then |ids|
    else PlaceIn(ids[..|ids| - 1], x)
  }

  lemma {:induction false} PlaceInIs(ids: seq<Id>, x: Id, i: nat)
    requires Distinct(ids) && i < |ids| && ids[i] == x
    ensures PlaceIn(ids, x) == i + 1
  {
    if i < |ids| - 1 { PlaceInIs(ids[..|ids| - 1], x, i); }
  }

  lemma NumberedPlace(tickets: Tickets, ids: seq<Id>, x: Id)
    requires Numbered(tickets, ids) && Distinct(ids) && x in ids
    ensures tickets[x].order == PlaceIn(ids, x)
  {
    var i :| 0 <= i < |ids| && ids[i] == x;
    PlaceInIs(ids, x, i);
  }

  /** A move of a ticket to where it is already shown. */
  predicate InPlace(tickets: Tickets, rows: seq<Id>, id: Id, status: Status, index: Option<nat>)
    requires id in tickets
  {
    var column := Column(tickets, rows, status);
    tickets[id].status == status && column == Placed(column, id, index)
  }

  /**
   The tickets other than the moved one that a move gives a new number: those of the target
   column and of the column left whose place there comes to differ from their number.
   */
  predicate Renumbered(tickets: Tickets, rows: seq<Id>, id: Id, status: Status, index: Option<nat>, x: Id)
    requires id in tickets && x in tickets
  {
    var from := tickets[id].status;
    !InPlace(tickets, rows, id, status, index) &&
    ((InLane(tickets, x, status) &&
      tickets[x].order != PlaceIn(Placed(Column(tickets, rows, status), id, index), x)) ||
     (from != status && InLane(tickets, x, from) &&
      tickets[x].order != PlaceIn(Without(Column(tickets, rows, from), id), x)))
  }

  /** Tickets outside both columns keep their number. */
  lemma ElsewhereKept(tickets: Tickets, rows: seq<Id>, id: Id, status: Status, ordered: seq<Id>, at: Time, x: Id)
    requires Distinct(rows) && id in tickets && x in tickets && x != id && x !in ordered
    requires Distinct(ordered) && AllIn(tickets, ordered) && id in ordered
    requires tickets[id].status != status ==> !InLane(tickets, x, tickets[id].status)
    ensures var r := Relocated(tickets, rows, id, status, ordered, at); x in r && r[x] == tickets[x]
  {
    RenumberOnly(tickets, ordered);
    var numbered := Renumber(tickets, ordered);
    var moved := numbered[id := numbered[id].(status := status, updatedAt := at)];
    var from := tickets[id].status;
    assert moved[x] == tickets[x];
    if from != status {
      ColumnIs(moved, rows, from);
      RenumberOther(moved, Column(moved, rows, from), x);
    }
  }

  /** A move changes another ticket exactly if it gives it a new number. */
  lemma MoveRenumbersExactly(
    tickets: Tickets, rows: seq<Id>, id: Id, status: Status, index: Option<nat>, at: Time, x: Id)
    requires Distinct(rows) && id in rows && id in tickets && tickets[id].Live()
    requires x in rows && x in tickets && x != id
    ensures var r := Move(tickets, rows, id, status, index, at);
      x in r && (r[x] != tickets[x] <==> Renumbered(tickets, rows, id, status, index, x))
  {
    var from, column := tickets[id].status, Column(tickets, rows, status);
    ColumnIs(tickets, rows, status);
    PlacedIs(column, id, index);
    MoveChanges(tickets, rows, id, status, index, at);
    if !InPlace(tickets, rows, id, status, index) {
      PlacedAllIn(tickets, column, id, index);
      if InLane(tickets, x, status) {
        TargetPlace(tickets, rows, id, status, index, at, x);
      } else if from != status && InLane(tickets, x, from) {
        LeftPlace(tickets, rows, id, status, index, at, x);
      } else {
        ElsewhereKept(tickets, rows, id, status, Placed(column, id, index), at, x);
      }
    }
  }

  lemma TargetPlace(tickets: Tickets, rows: seq<Id>, id: Id, status: Status, index: Option<nat>, at: Time, x: Id)
    requires Distinct(rows) && id in rows && id in tickets && tickets[id].Live()
    requires x in rows && InLane(tickets, x, status) && !InPlace(tickets, rows, id, status, index)
    ensures var r := Move(tickets, rows, id, status, index, at);
      x in r && r[x].order == PlaceIn(Placed(Column(tickets, rows, status), id, index), x)
  {
    var column := Column(tickets, rows, status);
    var ordered := Placed(column, id, index);
    ColumnIs(tickets, rows, status);
    PlacedIs(column, id, index);
    PlacedAllIn(tickets, column, id, index);
    RelocatedIs(tickets, rows, id, status, ordered, at);
    NumberedPlace(Relocated(tickets, rows, id, status, ordered, at), ordered, x);
  }

  lemma LeftPlace(tickets: Tickets, rows: seq<Id>, id: Id, status: Status, index: Option<nat>, at: Time, x: Id)
    requires Distinct(rows) && id in rows && id in tickets && tickets[id].Live() && tickets[id].status != status
    requires x in rows && x != id && InLane(tickets, x, tickets[id].status)
    ensures var r := Move(tickets, rows, id, status, index, at);
      x in r && r[x].order == PlaceIn(Without(Column(tickets, rows, tickets[id].status), id), x)
  {
    var left := Without(Column(tickets, rows, tickets[id].status), id);
    MoveLeaves(tickets, rows, id, status, index, at);
    ColumnIs(tickets, rows, tickets[id].status);
    WithoutIs(Column(tickets, rows, tickets[id].status), id);
    NumberedPlace(Move(tickets, rows, id, status, index, at), left, x);
  }
}
