/**
 The kanban board: tickets with at most one parent, project and release each, soft delete,
 and the rules every relation is checked by before the board is touched.
 */
module KanbanModel {
  import opened Options

  type Id = string
  type Status = string
  /** Milliseconds. */
  type Time = int

  datatype Ticket = Ticket(
    title: string, status: Status, labels: seq<string>,
    parent: Option<Id>, project: Option<Id>, release: Option<Id>,
    order: nat, createdAt: Time, updatedAt: Time, deletedAt: Option<Time>)
  {
    predicate Live() { deletedAt.None? }
  }

  datatype Project = Project(name: string, archivedAt: Option<Time>, updatedAt: Time)
  datatype Release = Release(name: string, releasedAt: Option<Time>, updatedAt: Time)

  type Tickets = map<Id, Ticket>

  /** `rows` are the tickets in the order they were created. */
  datatype Board = Board(tickets: Tickets, rows: seq<Id>, projects: map<Id, Project>, releases: map<Id, Release>)

  const EMPTY := Board(map[], [], map[], map[])

  datatype Config = Config(columns: seq<Status>, defaultStatus: Status, done: Status, canceled: Option<Status>) {
    predicate Canceled(t: Ticket) { canceled == Some(t.status) }
  }

  /** Why a call is refused. The stored board is then left as it was. */
  datatype Refusal =
    | UnknownTicket | UnknownParent | ChildDeleted | OwnParent | ParentDeleted | ParentIsSubtask | HasSubtasks
    | UnknownProject | ProjectArchived | UnknownRelease
    | UnknownStatus | MoveDeleted | CommentDeleted
    | AlreadyReleased | OpenTickets(count: nat) | IntoItself | TargetReleased | StillUsed
    | NameTaken | TitleRequired

  datatype Outcome = Written(board: Board) | Refused(why: Refusal)

  /** What a patch does to a relation. */
  datatype Wanted = Untouched | Clear | To(id: Id)

  // ------------------------------------------------------------ parents

  predicate HasLiveChildren(tickets: Tickets, id: Id) {
    exists c :: c in tickets && tickets[c].Live() && tickets[c].parent == Some(id)
  }

  /** May `id` become the parent of `child` (of a new ticket when there is no child yet)? */
  function CheckParent(tickets: Tickets, child: Option<Id>, id: Id): Option<Refusal>
    requires child.Some? ==> child.value in tickets
  {
    if id !in tickets then Some(UnknownParent)
    else if child.Some? && !tickets[child.value].Live() then Some(ChildDeleted)
    else if child == Some(id) then Some(OwnParent)
    else if !tickets[id].Live() then Some(ParentDeleted)
    else if tickets[id].parent.Some? then Some(ParentIsSubtask)
    else if child.Some? && HasLiveChildren(tickets, child.value) then Some(HasSubtasks)
    else None
  }

  /** A ticket written at `at`, when it exists. */
  function Touch(tickets: Tickets, id: Option<Id>, at: Time): Tickets {
    if id.Some? && id.value in tickets then tickets[id.value := tickets[id.value].(updatedAt := at)] else tickets
  }

  /** Point `child` at `next`; the old and the new parent are written too. */
  function Reparent(tickets: Tickets, child: Id, next: Option<Id>, at: Time): Tickets
    requires child in tickets
  {
    var from := tickets[child].parent;
    Touch(Touch(tickets[child := tickets[child].(parent := next)], from, at), next, at)
  }

  // ------------------------------------------------------------ what every write keeps

  ghost predicate Distinct(rows: seq<Id>) {
    forall i, j :: 0 <= i < j < |rows| ==> rows[i] != rows[j]
  }

  ghost predicate Listed(b: Board) {
    Distinct(b.rows) && forall id :: id in b.rows <==> id in b.tickets
  }

  /** Every reference is to something that exists. */
  ghost predicate Refers(b: Board) {
    forall id :: id in b.tickets ==>
      var t := b.tickets[id];
      && (t.parent.Some? ==> t.parent.value in b.tickets)
      && (t.project.Some? ==> t.project.value in b.projects)
      && (t.release.Some? ==> t.release.value in b.releases)
  }

  /** The parent of a live subtask is no subtask: the live hierarchy is one level deep. */
  ghost predicate OneLevel(tickets: Tickets) {
    forall id :: id in tickets && tickets[id].Live() && tickets[id].parent.Some? ==>
      tickets[id].parent.value in tickets && tickets[tickets[id].parent.value].parent.None?
  }

  /** Ranks that fall from every child, deleted or not, to its parent. */
  ghost predicate Ranks(tickets: Tickets, rank: map<Id, nat>) {
    && (forall id :: id in tickets ==> id in rank)
    && (forall id :: id in tickets && tickets[id].parent.Some? && tickets[id].parent.value in tickets ==>
          rank[tickets[id].parent.value] < rank[id])
  }

  ghost predicate Acyclic(tickets: Tickets) {
    exists rank :: Ranks(tickets, rank)
  }

  /** The ticket `n` parents up. */
  function Ancestor(tickets: Tickets, id: Id, n: nat): Option<Id>
    decreases n
  {
    if n == 0 then Some(id)
    else if id in tickets && tickets[id].parent.Some? then Ancestor(tickets, tickets[id].parent.value, n - 1)
    else None
  }

  /** In a ranked board nobody is an ancestor of itself, and no chain is longer than its rank. */
  lemma {:induction false} RanksEndChains(tickets: Tickets, rank: map<Id, nat>, id: Id, n: nat)
    requires Ranks(tickets, rank) && id in tickets
    requires Ancestor(tickets, id, n).Some? && Ancestor(tickets, id, n).value in tickets
    requires forall t :: t in tickets && tickets[t].parent.Some? ==> tickets[t].parent.value in tickets
    ensures rank[Ancestor(tickets, id, n).value] + n <= rank[id]
    decreases n
  {
    if n > 0 { RanksEndChains(tickets, rank, tickets[id].parent.value, n - 1); }
  }

  lemma NoOwnAncestor(tickets: Tickets, id: Id, n: nat)
    requires Acyclic(tickets) && id in tickets && n > 0
    requires forall t :: t in tickets && tickets[t].parent.Some? ==> tickets[t].parent.value in tickets
    ensures Ancestor(tickets, id, n) != Some(id)
  {
    var rank :| Ranks(tickets, rank);
    if Ancestor(tickets, id, n) == Some(id) { RanksEndChains(tickets, rank, id, n); }
  }

  // ------------------------------------------------------------ changes to the links

  /** Same tickets, same parents, same live ones. */
  ghost predicate SameLinks(a: Tickets, b: Tickets) {
    a.Keys == b.Keys && forall id :: id in a ==> a[id].parent == b[id].parent && a[id].deletedAt == b[id].deletedAt
  }

  lemma SameLinksKeep(a: Tickets, b: Tickets)
    requires SameLinks(a, b)
    ensures OneLevel(a) ==> OneLevel(b)
    ensures Acyclic(a) ==> Acyclic(b)
  {
    if Acyclic(a) {
      var rank :| Ranks(a, rank);
      assert Ranks(b, rank);
    }
  }

  /** Only `child`'s parent differs. */
  ghost predicate Relinked(a: Tickets, b: Tickets, child: Id, next: Option<Id>) {
    && child in a && a.Keys == b.Keys
    && (forall id :: id in a ==> a[id].deletedAt == b[id].deletedAt)
    && (forall id :: id in a && id != child ==> a[id].parent == b[id].parent)
    && b[child].parent == next
  }

  lemma ReparentRelinks(tickets: Tickets, child: Id, next: Option<Id>, at: Time)
    requires child in tickets
    ensures Relinked(tickets, Reparent(tickets, child, next, at), child, next)
  {
  }

  /** Hanging `child` below a root that is not itself: ranks shift up by one and the root drops to zero. */
  lemma AttachRanks(a: Tickets, b: Tickets, child: Id, p: Id, rank: map<Id, nat>)
    requires Relinked(a, b, child, Some(p)) && p in a && p != child && a[p].parent.None?
    requires Ranks(a, rank)
    ensures Acyclic(b)
  {
    var next: map<Id, nat> := map id | id in rank :: if id == p then 0 else rank[id] + 1;
    assert Ranks(b, next);
  }

  lemma DetachRanks(a: Tickets, b: Tickets, child: Id)
    requires Relinked(a, b, child, None) && Acyclic(a)
    ensures Acyclic(b)
  {
    var rank :| Ranks(a, rank);
    assert Ranks(b, rank);
  }

  /** An accepted attach keeps the hierarchy one level deep and the whole relation acyclic. */
  lemma AttachKeeps(a: Tickets, b: Tickets, child: Id, p: Id)
    requires Relinked(a, b, child, Some(p)) && OneLevel(a) && Acyclic(a)
    requires CheckParent(a, Some(child), p).None?
    ensures OneLevel(b) && Acyclic(b)
  {
    var rank :| Ranks(a, rank);
    AttachRanks(a, b, child, p, rank);
    forall id | id in b && b[id].Live() && b[id].parent.Some?
      ensures b[id].parent.value in b && b[b[id].parent.value].parent.None?
    {
      if id != child {
        assert a[id].Live() && a[id].parent == b[id].parent;
        assert b[id].parent.value != child;
      }
    }
  }

  lemma DetachKeeps(a: Tickets, b: Tickets, child: Id)
    requires Relinked(a, b, child, None) && OneLevel(a) && Acyclic(a)
    ensures OneLevel(b) && Acyclic(b)
  {
    DetachRanks(a, b, child);
  }

  /** A new ticket below nothing, or below a live root. */
  lemma AddKeeps(a: Tickets, id: Id, t: Ticket)
    requires id !in a && OneLevel(a) && Acyclic(a) && t.Live()
    requires t.parent.Some? ==> CheckParent(a, None, t.parent.value).None?
    requires forall x :: x in a && a[x].parent.Some? ==> a[x].parent.value in a
    ensures OneLevel(a[id := t]) && Acyclic(a[id := t])
  {
    var rank :| Ranks(a, rank);
    var r := if t.parent.Some? then rank[t.parent.value] + 1 else 0;
    assert Ranks(a[id := t], rank[id := r]);
  }

  lemma DeleteKeeps(a: Tickets, id: Id, t: Ticket)
    requires id in a && OneLevel(a) && Acyclic(a) && t.parent == a[id].parent && !t.Live()
    ensures OneLevel(a[id := t]) && Acyclic(a[id := t])
  {
    var rank :| Ranks(a, rank);
    assert Ranks(a[id := t], rank);
  }

  /** Coming back to life, below nothing or below a root. */
  lemma ReviveKeeps(a: Tickets, id: Id, t: Ticket)
    requires id in a && OneLevel(a) && Acyclic(a) && t.parent == a[id].parent && t.Live()
    requires t.parent.Some? ==> t.parent.value in a && a[t.parent.value].parent.None?
    ensures OneLevel(a[id := t]) && Acyclic(a[id := t])
  {
    var rank :| Ranks(a, rank);
    assert Ranks(a[id := t], rank);
  }
}
