/**
 What each write does, field by field: when it is accepted, which ticket it changes and how, and
 which it leaves alone.
 */
module KanbanEffects {
  import opened Options
  import opened KanbanModel
  import opened KanbanLanes
  import opened KanbanPlan
  import opened KanbanBoard
  import opened Text
  import Labels = KanbanLabels
  import Names = KanbanNames

  // ------------------------------------------------------------ parents and places

  /** A ticket that may have subtasks: it is there, live and no subtask itself. */
  predicate CanHold(tickets: Tickets, id: Id) {
    id in tickets && tickets[id].deletedAt.None? && tickets[id].parent.None?
  }

  /** A ticket that may become a subtask: live, and without a live subtask of its own. */
  predicate CanHang(tickets: Tickets, id: Id) {
    id in tickets && tickets[id].deletedAt.None? &&
    forall c :: c in tickets && tickets[c].deletedAt.None? ==> tickets[c].parent != Some(id)
  }

  /** Exactly when a parent is accepted. */
  lemma ParentAccepted(tickets: Tickets, child: Option<Id>, id: Id)
    requires child.Some? ==> child.value in tickets
    ensures CheckParent(tickets, child, id).None? <==>
      CanHold(tickets, id) && (child.Some? ==> CanHang(tickets, child.value) && child.value != id)
  {
  }

  /** What a parent that is not accepted is refused for. */
  lemma ParentRefused(tickets: Tickets, child: Option<Id>, id: Id)
    requires child.Some? ==> child.value in tickets
    ensures var why := CheckParent(tickets, child, id);
      var gone := child.Some? && tickets[child.value].deletedAt.Some?;
      && (why == Some(UnknownParent) <==> id !in tickets)
      && (why == Some(ChildDeleted) <==> id in tickets && gone)
      && (why == Some(OwnParent) <==> id in tickets && !gone && child == Some(id))
      && (why == Some(ParentDeleted) <==> id in tickets && !gone && child != Some(id) && tickets[id].deletedAt.Some?)
      && (why == Some(ParentIsSubtask) <==>
            id in tickets && !gone && child != Some(id) && tickets[id].deletedAt.None? && tickets[id].parent.Some?)
      && (why == Some(HasSubtasks) <==>
            && CanHold(tickets, id) && !gone && child.Some? && child != Some(id)
            && exists c :: c in tickets && tickets[c].deletedAt.None? && tickets[c].parent == child)
  {
  }

  /** The bottom of a column but for one ticket: above every other number there, and no higher than need be. */
  ghost predicate Bottom(tickets: Tickets, status: Status, except: Id, order: nat) {
    && (forall x :: x in tickets && x != except && tickets[x].deletedAt.None? && tickets[x].status == status ==>
          tickets[x].order < order)
    && (order == 1 ||
        exists x :: x in tickets && x != except && tickets[x].deletedAt.None? && tickets[x].status == status &&
          tickets[x].order + 1 == order)
  }

  lemma {:induction false} NextOrderTight(tickets: Tickets, rows: seq<Id>, status: Status, except: Option<Id>)
    ensures var r := NextOrder(tickets, rows, status, except);
      r == 1 || exists i :: 0 <= i < |rows| && JustAbove(tickets, rows[i], status, except, r)
  {
    if rows != [] {
      var init := rows[..|rows| - 1];
      NextOrderTight(tickets, init, status, except);
      var r := NextOrder(tickets, init, status, except);
      if i :| 0 <= i < |init| && JustAbove(tickets, init[i], status, except, r) { assert rows[i] == init[i]; }
    }
  }

  predicate JustAbove(tickets: Tickets, x: Id, status: Status, except: Option<Id>, order: nat) {
    InLane(tickets, x, status) && except != Some(x) && tickets[x].order + 1 == order
  }

  lemma NextOrderIsBottom(tickets: Tickets, rows: seq<Id>, status: Status, except: Id)
    requires forall x :: x in rows <==> x in tickets
    ensures Bottom(tickets, status, except, NextOrder(tickets, rows, status, Some(except)))
  {
    var r := NextOrder(tickets, rows, status, Some(except));
    NextOrderTight(tickets, rows, status, Some(except));
    forall x | x in tickets && x != except && InLane(tickets, x, status) ensures tickets[x].order < r {
      var i :| 0 <= i < |rows| && rows[i] == x;
    }
    if r != 1 {
      var i :| 0 <= i < |rows| && JustAbove(tickets, rows[i], status, Some(except), r);
      assert rows[i] in rows;
    }
  }

  /** Two sets of tickets that agree on a column but for one ticket have the same bottom. */
  lemma SameBottom(a: Tickets, b: Tickets, status: Status, except: Id, order: nat)
    requires a.Keys == b.Keys && Bottom(a, status, except, order)
    requires forall x :: x in a && x != except ==>
      b[x].deletedAt == a[x].deletedAt && b[x].status == a[x].status && b[x].order == a[x].order
    ensures Bottom(b, status, except, order)
  {
    if order != 1 {
      var x :| x in a && x != except && a[x].deletedAt.None? && a[x].status == status && a[x].order + 1 == order;
      assert b[x].order + 1 == order;
    }
  }

  // ------------------------------------------------------------ restoring

  /** Only tickets differ between the two boards, and of those only `id` and the stamps of `stamped`. */
  ghost predicate OnlyTicket(b: Board, b': Board, id: Id, stamped: set<Id>, at: Time) {
    && b'.rows == b.rows && b'.projects == b.projects && b'.releases == b.releases
    && b'.tickets.Keys == b.tickets.Keys
    && forall x :: x in b.tickets && x != id ==>
         b'.tickets[x] == if x in stamped then b.tickets[x].(updatedAt := at) else b.tickets[x]
  }

  /**
   Restoring a deleted ticket makes it live at the bottom of its column and leaves its other
   fields alone. It keeps its parent if and only if that one can hold it, and otherwise has none
   and the parent is stamped. Nothing else changes.
   */
  lemma RestoreExactly(cfg: Config, b: Board, id: Id, at: Time)
    requires Inv(b) && id in b.tickets && b.tickets[id].deletedAt.Some?
    ensures Step(cfg, b, Restore(id), at).Written?
    ensures var b', t := After(cfg, b, Restore(id), at), b.tickets[id];
      var keeps := t.parent.None? || CanHold(b.tickets, t.parent.value);
      && OnlyTicket(b, b', id, if keeps then {} else {t.parent.value}, at)
      && b'.tickets[id] == t.(parent := if keeps then t.parent else None, deletedAt := None, updatedAt := at,
                              order := b'.tickets[id].order)
      && Bottom(b.tickets, t.status, id, b'.tickets[id].order)
  {
    NotOwnParent(b.tickets, id);
    var t := b.tickets[id];
    if t.parent.None? || CanHold(b.tickets, t.parent.value) {
      RestoredFrom(b, b.tickets, id, t.parent, {}, at);
    } else {
      Detached(b.tickets, id, at);
      RestoredFrom(b, Reparent(b.tickets, id, None, at), id, None, {t.parent.value}, at);
    }
  }

  /** The tickets once relinked, and then the ticket made live at the bottom. */
  lemma RestoredFrom(b: Board, linked: Tickets, id: Id, parent: Option<Id>, stamped: set<Id>, at: Time)
    requires Listed(b) && id in b.tickets && linked.Keys == b.tickets.Keys
    requires linked[id] == b.tickets[id].(parent := parent)
    requires forall x :: x in b.tickets && x != id ==>
      linked[x] == if x in stamped then b.tickets[x].(updatedAt := at) else b.tickets[x]
    ensures var t := b.tickets[id];
      var order := NextOrder(linked, b.rows, t.status, Some(id));
      var b' := b.(tickets := linked[id := linked[id].(deletedAt := None, updatedAt := at, order := order)]);
      && OnlyTicket(b, b', id, stamped, at)
      && b'.tickets[id] == t.(parent := parent, deletedAt := None, updatedAt := at, order := order)
      && Bottom(b.tickets, t.status, id, order)
  {
    var status := b.tickets[id].status;
    NextOrderIsBottom(linked, b.rows, status, id);
    SameBottom(linked, b.tickets, status, id, NextOrder(linked, b.rows, status, Some(id)));
  }

  lemma NotOwnParent(tickets: Tickets, id: Id)
    requires Acyclic(tickets) && id in tickets
    ensures tickets[id].parent != Some(id)
  {
    var rank :| Ranks(tickets, rank);
  }

  lemma Detached(tickets: Tickets, id: Id, at: Time)
    requires id in tickets && tickets[id].parent.Some? && tickets[id].parent != Some(id)
    ensures var linked := Reparent(tickets, id, None, at);
      && linked.Keys == tickets.Keys && linked[id] == tickets[id].(parent := None)
      && forall x :: x in tickets && x != id ==>
           linked[x] == if tickets[id].parent == Some(x) then tickets[x].(updatedAt := at) else tickets[x]
  {
  }

  /** Restoring a live ticket or none changes nothing, and deleting a deleted one neither. */
  lemma IdleWrites(cfg: Config, b: Board, id: Id, at: Time)
    ensures id !in b.tickets ==>
      && Step(cfg, b, Restore(id), at) == Step(cfg, b, Delete(id), at) == Step(cfg, b, Comment(id), at)
      && Step(cfg, b, Comment(id), at) == Refused(UnknownTicket)
    ensures id in b.tickets && b.tickets[id].deletedAt.None? ==> Step(cfg, b, Restore(id), at) == Written(b)
    ensures id in b.tickets && b.tickets[id].deletedAt.Some? ==>
      Step(cfg, b, Delete(id), at) == Written(b) && Step(cfg, b, Comment(id), at) == Refused(CommentDeleted)
  {
  }

  /** Deleting a live ticket stamps it and marks it deleted, and changes nothing else of the board. */
  lemma DeleteExactly(cfg: Config, b: Board, id: Id, at: Time)
    requires id in b.tickets && b.tickets[id].deletedAt.None?
    ensures Step(cfg, b, Delete(id), at).Written?
    ensures var b' := After(cfg, b, Delete(id), at);
      OnlyTicket(b, b', id, {}, at) && b'.tickets[id] == b.tickets[id].(deletedAt := Some(at), updatedAt := at)
  {
  }

  /** A comment stamps its ticket. */
  lemma CommentExactly(cfg: Config, b: Board, id: Id, at: Time)
    requires id in b.tickets && b.tickets[id].deletedAt.None?
    ensures Step(cfg, b, Comment(id), at).Written?
    ensures var b' := After(cfg, b, Comment(id), at);
      OnlyTicket(b, b', id, {}, at) && b'.tickets[id] == b.tickets[id].(updatedAt := at)
  {
  }

  // ------------------------------------------------------------ creating

  /** The title is not blank, and column, parent, project and release are there to be had. */
  ghost predicate Creatable(cfg: Config, b: Board, op: Op)
    requires op.Create?
  {
    && !Blank(op.title)
    && (op.column.Some? ==> op.column.value in cfg.columns)
    && (op.parent.Some? ==> CanHold(b.tickets, op.parent.value))
    && (op.project.Some? && op.project.value != "" ==>
          FindProject(b, op.project.value).Some? &&
          b.projects[FindProject(b, op.project.value).value].archivedAt.None?)
    && (op.release.Some? && op.release.value != "" ==> FindRelease(b, op.release.value).Some?)
  }

  lemma CreateAccepted(cfg: Config, b: Board, op: Op, at: Time)
    requires op.Create?
    ensures Step(cfg, b, op, at).Written? <==> Creatable(cfg, b, op)
  {
    TrimIs(op.title);
    if op.parent.Some? { ParentAccepted(b.tickets, None, op.parent.value); }
  }

  /** The new ticket holds what was asked for, at the bottom of its column; its parent is stamped. */
  lemma CreateExactly(cfg: Config, b: Board, op: Op, at: Time)
    requires op.Create? && Listed(b) && op.id !in b.tickets && Step(cfg, b, op, at).Written?
    ensures var b' := After(cfg, b, op, at);
      && b'.rows == b.rows + [op.id] && b'.projects == b.projects && b'.releases == b.releases
      && b'.tickets.Keys == b.tickets.Keys + {op.id}
      && (forall x :: x in b.tickets ==>
            b'.tickets[x] == if op.parent == Some(x) then b.tickets[x].(updatedAt := at) else b.tickets[x])
      && NewTicket(cfg, b, op, at, b'.tickets[op.id])
  {
    var b' := After(cfg, b, op, at);
    assert b'.tickets[op.id].status == if op.column.Some? then op.column.value else cfg.defaultStatus;
    NewOrder(b, b'.tickets[op.id].status, op.id);
    WantedProject(b, op.project);
    WantedRelease(b, op.release);
  }

  ghost predicate NewTicket(cfg: Config, b: Board, op: Op, at: Time, t: Ticket)
    requires op.Create?
  {
    && t.title == Trim(op.title) && t.status == (if op.column.Some? then op.column.value else cfg.defaultStatus)
    && t.labels == Labels.Clean(op.labels) && t.parent == op.parent
    && t.project == (if op.project.Some? && op.project.value != "" then FindProject(b, op.project.value) else None)
    && t.release == (if op.release.Some? && op.release.value != "" then FindRelease(b, op.release.value) else None)
    && t.createdAt == at && t.updatedAt == at && t.deletedAt.None?
    && Bottom(b.tickets, t.status, op.id, t.order)
  }

  lemma NewOrder(b: Board, status: Status, id: Id)
    requires Listed(b) && id !in b.tickets
    ensures Bottom(b.tickets, status, id, NextOrder(b.tickets, b.rows, status, None))
  {
    var r := NextOrder(b.tickets, b.rows, status, None);
    NextOrderTight(b.tickets, b.rows, status, None);
    forall x | x in b.tickets && InLane(b.tickets, x, status) ensures b.tickets[x].order < r {
      var i :| 0 <= i < |b.rows| && b.rows[i] == x;
    }
    if r != 1 {
      var i :| 0 <= i < |b.rows| && JustAbove(b.tickets, b.rows[i], status, None, r);
      assert b.rows[i] in b.rows;
    }
  }

  lemma WantedProject(b: Board, reference: Option<string>)
    ensures var r := ProjectRelation(b, WantedOf(reference), None);
      r.No? || ValueOf(r, None) ==
        if reference.Some? && reference.value != "" then FindProject(b, reference.value) else None
  {
  }

  lemma WantedRelease(b: Board, reference: Option<string>)
    ensures var r := ReleaseRelation(b, WantedOf(reference), None);
      r.No? || ValueOf(r, None) ==
        if reference.Some? && reference.value != "" then FindRelease(b, reference.value) else None
  {
  }

  // ------------------------------------------------------------ updating

  /** What a patch asks of each field is possible. */
  ghost predicate Updatable(cfg: Config, b: Board, id: Id, p: Patch) {
    && id in b.tickets
    && var t := b.tickets[id];
       && (p.parent.To? ==>
             || (t.parent == Some(p.parent.id) && p.parent.id in b.tickets)
             || (CanHold(b.tickets, p.parent.id) && CanHang(b.tickets, id) && id != p.parent.id))
       && (p.project.To? ==>
             var found := FindProject(b, p.project.id);
             found.Some? && (t.project == found || b.projects[found.value].archivedAt.None?))
       && (p.release.To? ==> FindRelease(b, p.release.id).Some?)
       && (p.title.Some? ==> !Blank(p.title.value))
       && (p.status.Some? ==> p.status.value in cfg.columns && (t.deletedAt.None? || t.status == p.status.value))
  }

  lemma UpdateAccepted(cfg: Config, b: Board, id: Id, p: Patch, at: Time)
    ensures Step(cfg, b, Update(id, p), at).Written? <==> Updatable(cfg, b, id, p)
  {
    if p.title.Some? { TrimIs(p.title.value); }
    if id in b.tickets && p.parent.To? { ParentAccepted(b.tickets, Some(id), p.parent.id); }
  }

  /** A relation after a patch: as it was, none, or what the reference finds. */
  ghost function Wished(wanted: Wanted, current: Option<Id>, found: Option<Id>): Option<Id> {
    match wanted
    case Untouched => current
    case Clear => None
    case To(_) => found
  }

  /** The fields a patch asks for. */
  ghost predicate AsAsked(b: Board, t: Ticket, p: Patch, u: Ticket) {
    && u.title == (if p.title.Some? then Trim(p.title.value) else t.title)
    && u.status == (if p.status.Some? then p.status.value else t.status)
    && u.labels == Labels.EditLabels(t.labels, p.labels, p.removeLabels, p.addLabels)
    && u.parent == Wished(p.parent, t.parent, if p.parent.To? then Some(p.parent.id) else None)
    && u.project == Wished(p.project, t.project, if p.project.To? then FindProject(b, p.project.id) else None)
    && u.release == Wished(p.release, t.release, if p.release.To? then FindRelease(b, p.release.id) else None)
    && u.createdAt == t.createdAt && u.deletedAt == t.deletedAt
  }

  lemma RelationsWished(b: Board, id: Id, p: Patch)
    requires id in b.tickets
    ensures var t := b.tickets[id];
      var parent := ParentRelation(b.tickets, id, p.parent);
      var project, release := ProjectRelation(b, p.project, t.project), ReleaseRelation(b, p.release, t.release);
      && (!parent.No? ==>
            && ValueOf(parent, t.parent) == Wished(p.parent, t.parent, if p.parent.To? then Some(p.parent.id) else None)
            && (parent.Set? <==> ValueOf(parent, t.parent) != t.parent))
      && (!project.No? ==>
            && ValueOf(project, t.project) ==
                 Wished(p.project, t.project, if p.project.To? then FindProject(b, p.project.id) else None)
            && (project.Set? <==> ValueOf(project, t.project) != t.project))
      && (!release.No? ==>
            && ValueOf(release, t.release) ==
                 Wished(p.release, t.release, if p.release.To? then FindRelease(b, p.release.id) else None)
            && (release.Set? <==> ValueOf(release, t.release) != t.release))
  {
  }

  /** The parents a change of parent stamps. */
  function ParentsOf(from: Option<Id>, to: Option<Id>): set<Id> {
    if from == to then {} else (if from.Some? then {from.value} else {}) + if to.Some? then {to.value} else {}
  }

  lemma Relinked(tickets: Tickets, id: Id, q: Ticket, to: Option<Id>, at: Time)
    requires id in tickets && q.parent != Some(id) && to != Some(id) && q.parent == tickets[id].parent != to
    ensures var linked := Reparent(tickets[id := q], id, to, at);
      && linked.Keys == tickets.Keys
      && forall x :: x in tickets && x != id ==>
           linked[x] == if x in ParentsOf(q.parent, to) then tickets[x].(updatedAt := at) else tickets[x]
  {
  }

  /** A write of one ticket and the stamps of its parents. */
  lemma EditedExactly(b: Board, id: Id, q: Ticket, parent: Checked, project: Checked, release: Checked, at: Time)
    requires Listed(b) && id in b.tickets && !parent.No?
    requires var t := b.tickets[id];
      && q.parent == t.parent && q.project == t.project && q.release == t.release && q.order == t.order
      && q.updatedAt == t.updatedAt && q.parent != Some(id)
      && (parent.Set? ==> parent.to != Some(id) && parent.to != t.parent)
      && (project.Set? ==> project.to != t.project) && (release.Set? ==> release.to != t.release)
    ensures var t := b.tickets[id];
      var b' := b.(tickets := EditedTo(b.tickets, b.rows, id, q, parent, project, release, at));
      var u := q.(parent := ValueOf(parent, t.parent), project := ValueOf(project, t.project),
                  release := ValueOf(release, t.release));
      && OnlyTicket(b, b', id, ParentsOf(t.parent, u.parent), at)
      && (u == t ==> b'.tickets[id] == t)
      && (u != t ==> b'.tickets[id] == u.(updatedAt := at, order := b'.tickets[id].order))
      && (u.status == t.status ==> b'.tickets[id].order == t.order)
      && (u.status != t.status ==> Bottom(b.tickets, u.status, id, b'.tickets[id].order))
  {
    var t := b.tickets[id];
    var fields := b.tickets[id := q];
    var linked := if parent.Set? then Reparent(fields, id, parent.to, at) else fields;
    if parent.Set? { Relinked(b.tickets, id, q, parent.to, at); }
    NextOrderIsBottom(linked, b.rows, q.status, id);
    SameBottom(linked, b.tickets, q.status, id, NextOrder(linked, b.rows, q.status, Some(id)));
  }

  /**
   An update gives the ticket the fields asked for. It is stamped, and moved to the bottom of
   its new column, only if something changes; a change of parent stamps the old one and the new
   one; and nothing else changes.
   */
  lemma UpdateExactly(cfg: Config, b: Board, id: Id, p: Patch, at: Time)
    requires Inv(b) && Step(cfg, b, Update(id, p), at).Written?
    ensures id in b.tickets
    ensures var b', t := After(cfg, b, Update(id, p), at), b.tickets[id];
      && id in b'.tickets
      && var u := b'.tickets[id];
         && AsAsked(b, t, p, u)
         && OnlyTicket(b, b', id, ParentsOf(t.parent, u.parent), at)
         && (u.updatedAt == if u == t.(order := u.order, updatedAt := u.updatedAt) then t.updatedAt else at)
         && (u.status == t.status ==> u.order == t.order)
         && (u.status != t.status ==> Bottom(b.tickets, u.status, id, u.order))
  {
    var t := b.tickets[id];
    NotOwnParent(b.tickets, id);
    RelationsWished(b, id, p);
    if p.parent.To? { ParentAccepted(b.tickets, Some(id), p.parent.id); }
    EditedExactly(b, id, Patched(t, p), ParentRelation(b.tickets, id, p.parent),
      ProjectRelation(b, p.project, t.project), ReleaseRelation(b, p.release, t.release), at);
  }

  // ------------------------------------------------------------ projects and releases

  /** Nobody of the kind has the name or an id like it, in whatever case, but the one left out. */
  ghost predicate NameFree(names: map<Id, string>, name: string, except: Option<Id>) {
    name != "" && forall x :: x in names && except != Some(x) ==>
      Names.Fold(names[x]) != Names.Fold(name) && Names.Fold(x) != Names.Fold(name)
  }

  ghost predicate OnlyProject(b: Board, b': Board, id: Id) {
    && b'.tickets == b.tickets && b'.rows == b.rows && b'.releases == b.releases
    && b'.projects.Keys == b.projects.Keys + {id}
    && forall x :: x in b.projects && x != id ==> b'.projects[x] == b.projects[x]
  }

  ghost predicate OnlyRelease(b: Board, b': Board, id: Id) {
    && b'.tickets == b.tickets && b'.rows == b.rows && b'.projects == b.projects
    && b'.releases.Keys == b.releases.Keys + {id}
    && forall x :: x in b.releases && x != id ==> b'.releases[x] == b.releases[x]
  }

  /** A new project is written exactly if its name is free, and starts out open; so is a new release. */
  lemma NewProjectExactly(cfg: Config, b: Board, id: Id, name: string, at: Time)
    ensures var o := Step(cfg, b, CreateProject(id, name), at);
      && (o.Written? <==> NameFree(ProjectNames(b.projects), name, None)) && (o.Refused? ==> o.why == NameTaken)
      && (o.Written? ==> OnlyProject(b, o.board, id) && o.board.projects[id] == Project(name, None, at))
  {
  }

  lemma NewReleaseExactly(cfg: Config, b: Board, id: Id, name: string, at: Time)
    ensures var o := Step(cfg, b, CreateRelease(id, name), at);
      && (o.Written? <==> NameFree(ReleaseNames(b.releases), name, None)) && (o.Refused? ==> o.why == NameTaken)
      && (o.Written? ==> OnlyRelease(b, o.board, id) && o.board.releases[id] == Release(name, None, at))
  {
  }

  /** A project is renamed exactly if it is found and the name is free but for itself; its other fields stay. */
  lemma RenameProjectExactly(cfg: Config, b: Board, reference: string, name: string, at: Time)
    ensures var o, found := Step(cfg, b, RenameProject(reference, name), at), FindProject(b, reference);
      && (o.Written? <==> found.Some? && NameFree(ProjectNames(b.projects), name, found))
      && (found.None? ==> o == Refused(UnknownProject)) && (found.Some? && o.Refused? ==> o.why == NameTaken)
      && (o.Written? ==>
            var id := found.value;
            && OnlyProject(b, o.board, id) && id in o.board.projects
            && o.board.projects[id] == b.projects[id].(
                 name := name, updatedAt := if b.projects[id].name == name then b.projects[id].updatedAt else at))
  {
  }

  lemma RenameReleaseExactly(cfg: Config, b: Board, reference: string, name: string, at: Time)
    ensures var o, found := Step(cfg, b, RenameRelease(reference, name), at), FindRelease(b, reference);
      && (o.Written? <==> found.Some? && NameFree(ReleaseNames(b.releases), name, found))
      && (found.None? ==> o == Refused(UnknownRelease)) && (found.Some? && o.Refused? ==> o.why == NameTaken)
      && (o.Written? ==>
            var id := found.value;
            && OnlyRelease(b, o.board, id) && id in o.board.releases
            && o.board.releases[id] == b.releases[id].(
                 name := name, updatedAt := if b.releases[id].name == name then b.releases[id].updatedAt else at))
  {
  }

  /** Archiving and unarchiving a project: it ends up as asked, stamped only if that is a change. */
  lemma ArchiveExactly(cfg: Config, b: Board, reference: string, archived: bool, at: Time)
    ensures var o, found := Step(cfg, b, ArchiveProject(reference, archived), at), FindProject(b, reference);
      && (o.Written? <==> found.Some?) && (o.Refused? ==> o.why == UnknownProject)
      && (o.Written? ==>
            var id, was := found.value, b.projects[found.value];
            && OnlyProject(b, o.board, id) && id in o.board.projects
            && var now := o.board.projects[id];
               && now.name == was.name && now.archivedAt.Some? == archived
               && (now == was || (now.updatedAt == at && was.archivedAt.Some? != archived))
               && (was.archivedAt.Some? == archived ==> now == was)
               && (archived && now != was ==> now.archivedAt == Some(at)))
  {
  }

  /** A reopened release is unreleased; one that was is left alone. */
  lemma ReopenExactly(cfg: Config, b: Board, reference: string, at: Time)
    ensures var o, found := Step(cfg, b, ReopenRelease(reference), at), FindRelease(b, reference);
      && (o.Written? <==> found.Some?) && (o.Refused? ==> o.why == UnknownRelease)
      && (o.Written? ==>
            var id, was := found.value, b.releases[found.value];
            && OnlyRelease(b, o.board, id) && id in o.board.releases
            && o.board.releases[id] ==
                 if was.releasedAt.None? then was else was.(releasedAt := None, updatedAt := at))
  {
  }

  /** A release is deleted exactly if no ticket, deleted ones included, is in it; nothing else goes. */
  lemma DeleteReleaseExactly(cfg: Config, b: Board, reference: string, at: Time)
    ensures var o, found := Step(cfg, b, DeleteRelease(reference), at), FindRelease(b, reference);
      && (o.Written? <==> found.Some? && forall t :: t in b.tickets ==> b.tickets[t].release != found)
      && (found.Some? && !o.Written? ==> o == Refused(StillUsed)) && (found.None? ==> o == Refused(UnknownRelease))
      && (o.Written? ==> o.board == b.(releases := b.releases - {found.value}))
  {
  }

  // ------------------------------------------------------------ refusals

  /** The project named is there and open to new tickets, the release named is there. */
  ghost predicate ProjectTakes(b: Board, reference: string) {
    FindProject(b, reference).Some? && b.projects[FindProject(b, reference).value].archivedAt.None?
  }

  predicate Named(reference: Option<string>) {
    reference.Some? && reference.value != ""
  }

  /** What a create that is not accepted is refused for: the first of these that is wrong. */
  lemma CreateRefused(cfg: Config, b: Board, op: Op, at: Time)
    requires op.Create?
    ensures var o := Step(cfg, b, op, at);
      var column := op.column.Some? ==> op.column.value in cfg.columns;
      var parent := op.parent.Some? ==> CanHold(b.tickets, op.parent.value);
      var project := Named(op.project) ==> ProjectTakes(b, op.project.value);
      && (Blank(op.title) ==> o == Refused(TitleRequired))
      && (!Blank(op.title) && !column ==> o == Refused(UnknownStatus))
      && (!Blank(op.title) && column && !parent ==>
            CheckParent(b.tickets, None, op.parent.value).Some? &&
            o == Refused(CheckParent(b.tickets, None, op.parent.value).value))
      && (!Blank(op.title) && column && parent && !project ==>
            o == Refused(if FindProject(b, op.project.value).None? then UnknownProject else ProjectArchived))
      && (!Blank(op.title) && column && parent && project && o.Refused? ==> o == Refused(UnknownRelease))
  {
    TrimIs(op.title);
    if op.parent.Some? { ParentAccepted(b.tickets, None, op.parent.value); }
  }

  /** A move is refused for an unknown column, an unknown ticket or a deleted one, and for nothing else. */
  lemma MoveRefused(cfg: Config, b: Board, id: Id, status: Status, index: Option<nat>, at: Time)
    ensures var o := Step(cfg, b, Shift(id, status, index), at);
      && (o == Refused(UnknownStatus) <==> status !in cfg.columns)
      && (o == Refused(UnknownTicket) <==> status in cfg.columns && id !in b.tickets)
      && (o == Refused(MoveDeleted) <==> status in cfg.columns && id in b.tickets && b.tickets[id].deletedAt.Some?)
      && (o.Written? <==> status in cfg.columns && id in b.tickets && b.tickets[id].deletedAt.None?)
  {
  }

  /** The patch's parent can be taken, or is the one the ticket has. */
  ghost predicate ParentFine(b: Board, id: Id, p: Patch)
    requires id in b.tickets
  {
    p.parent.To? ==>
      || (b.tickets[id].parent == Some(p.parent.id) && p.parent.id in b.tickets)
      || CheckParent(b.tickets, Some(id), p.parent.id).None?
  }

  ghost predicate ProjectFine(b: Board, id: Id, p: Patch)
    requires id in b.tickets
  {
    p.project.To? ==>
      var found := FindProject(b, p.project.id);
      found.Some? && (b.tickets[id].project == found || ProjectTakes(b, p.project.id))
  }

  /** An update that is not accepted is refused for its relations first, then its title, then its column. */
  lemma UpdateRefused(cfg: Config, b: Board, id: Id, p: Patch, at: Time)
    requires id in b.tickets
    ensures var o := Step(cfg, b, Update(id, p), at);
      if !ParentFine(b, id, p) then o == Refused(CheckParent(b.tickets, Some(id), p.parent.id).value)
      else if !ProjectFine(b, id, p) then
        o == Refused(if FindProject(b, p.project.id).None? then UnknownProject else ProjectArchived)
      else if p.release.To? && FindRelease(b, p.release.id).None? then o == Refused(UnknownRelease)
      else if p.title.Some? && Blank(p.title.value) then o == Refused(TitleRequired)
      else if p.status.Some? && p.status.value !in cfg.columns then o == Refused(UnknownStatus)
      else o.Refused? ==> o == Refused(MoveDeleted)
    ensures forall other :: other !in b.tickets ==> Step(cfg, b, Update(other, p), at) == Refused(UnknownTicket)
  {
    if p.title.Some? { TrimIs(p.title.value); }
  }
}
