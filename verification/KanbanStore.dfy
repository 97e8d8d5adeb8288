/**
 The stored board, written in place by each function under the store's lock. Every method is
 the write `KanbanBoard.Step` specifies.
 */
module KanbanStore {
  import opened Options
  import opened KanbanModel
  import opened KanbanLanes
  import opened KanbanPlan
  import opened KanbanBoard
  import opened Text
  import Labels = KanbanLabels
  import Conv = KanbanConvert
  import Names = KanbanNames

  /** The time of the next write: the clock, or just past the newest ticket when the clock is behind. */
  method NextAt(tickets: Tickets, rows: seq<Id>, clock: Time) returns (at: Time)
    requires forall id :: id in rows <==> id in tickets
    ensures at >= clock && forall id :: id in tickets ==> tickets[id].updatedAt < at
    ensures at == clock || exists id :: id in tickets && at == tickets[id].updatedAt + 1
  {
    at := clock;
    for i := 0 to |rows|
      invariant at >= clock && forall k :: 0 <= k < i ==> tickets[rows[k]].updatedAt < at
      invariant at == clock || exists id :: id in tickets && at == tickets[id].updatedAt + 1
    {
      assert rows[i] in rows;
      var updated := tickets[rows[i]].updatedAt;
      if updated + 1 > at { at := updated + 1; }
    }
  }

  /** The first `i` rows are converted; `changed` are the ones that differ. */
  ghost predicate Converting(tickets: Tickets, rows: seq<Id>, input: Conv.Input, here: Option<Id>, entity: Id, at: Time,
                             i: nat, r: Tickets, changed: seq<Id>)
  {
    && i <= |rows| && r.Keys == tickets.Keys && (forall k :: 0 <= k < |rows| ==> rows[k] in tickets)
    && (forall k :: 0 <= k < i ==> r[rows[k]] == Conv.ConvertTicket(tickets[rows[k]], input, here, entity, at))
    && (forall k :: i <= k < |rows| ==> r[rows[k]] == tickets[rows[k]])
    && (forall id :: id in changed ==> id in rows[..i] && id in r && r[id].updatedAt == at)
    && (forall k :: 0 <= k < i && rows[k] !in changed ==> r[rows[k]] == tickets[rows[k]])
  }

  lemma ConvertOne(tickets: Tickets, rows: seq<Id>, input: Conv.Input, here: Option<Id>, entity: Id, at: Time,
                   i: nat, r: Tickets, changed: seq<Id>)
    requires Distinct(rows) && i < |rows| && Converting(tickets, rows, input, here, entity, at, i, r, changed)
    ensures var t := Conv.ConvertTicket(r[rows[i]], input, here, entity, at);
      if t == r[rows[i]] then Converting(tickets, rows, input, here, entity, at, i + 1, r, changed)
      else Converting(tickets, rows, input, here, entity, at, i + 1, r[rows[i] := t], changed + [rows[i]])
  {
    assert rows[..i + 1] == rows[..i] + [rows[i]];
  }

  lemma Converted(tickets: Tickets, rows: seq<Id>, input: Conv.Input, here: Option<Id>, entity: Id, at: Time,
      r: Tickets, changed: seq<Id>)
    requires Converting(tickets, rows, input, here, entity, at, |rows|, r, changed)
    requires forall id :: id in rows <==> id in tickets
    ensures r == Conv.ConvertAll(tickets, input, here, entity, at)
    ensures forall id :: id in changed ==> id in tickets && r[id].updatedAt == at
    ensures forall id :: id in tickets && id !in changed ==> r[id] == tickets[id]
  {
    forall id | id in tickets
      ensures r[id] == Conv.ConvertTicket(tickets[id], input, here, entity, at)
      ensures id !in changed ==> r[id] == tickets[id]
    {
      assert id in rows;
      var k :| 0 <= k < |rows| && rows[k] == id;
      assert r[rows[k]] == Conv.ConvertTicket(tickets[rows[k]], input, here, entity, at);
    }
  }

  /** Tickets converted one by one; `changed` are the ones written. */
  method ConvertRows(tickets: Tickets, rows: seq<Id>, input: Conv.Input, here: Option<Id>, entity: Id, at: Time)
    returns (r: Tickets, changed: seq<Id>)
    requires Distinct(rows) && forall id :: id in rows <==> id in tickets
    ensures r == Conv.ConvertAll(tickets, input, here, entity, at)
    ensures forall id :: id in changed ==> id in tickets && r[id].updatedAt == at
    ensures forall id :: id in tickets && id !in changed ==> r[id] == tickets[id]
  {
    r, changed := tickets, [];
    for i := 0 to |rows|
      invariant Converting(tickets, rows, input, here, entity, at, i, r, changed)
    {
      ConvertOne(tickets, rows, input, here, entity, at, i, r, changed);
      var t := Conv.ConvertTicket(r[rows[i]], input, here, entity, at);
      if t != r[rows[i]] {
        r, changed := r[rows[i] := t], changed + [rows[i]];
      }
    }
    Converted(tickets, rows, input, here, entity, at, r, changed);
  }

  class Store {
    var tickets: Tickets
    var rows: seq<Id>
    var projects: map<Id, Project>
    var releases: map<Id, Release>

    constructor ()
      ensures State() == EMPTY && Inv(State())
    {
      tickets, rows, projects, releases := map[], [], map[], map[];
      new;
      EmptyInv();
    }

    function State(): Board
      reads this
    {
      Board(tickets, rows, projects, releases)
    }

    method CheckedProject(wanted: Wanted, current: Option<Id>) returns (r: Checked)
      requires Inv(State())
      ensures r == ProjectRelation(State(), wanted, current)
    {
      match wanted
      case Untouched => r := Leave;
      case Clear => r := if current.Some? then Set(None) else Leave;
      case To(reference) =>
        var found := Names.FindEntity(ProjectNames(projects), reference);
        if found.None? { r := No(UnknownProject); }
        else if current == found { r := Leave; }
        else if projects[found.value].archivedAt.Some? { r := No(ProjectArchived); }
        else { r := Set(found); }
    }

    method CheckedRelease(wanted: Wanted, current: Option<Id>) returns (r: Checked)
      requires Inv(State())
      ensures r == ReleaseRelation(State(), wanted, current)
    {
      match wanted
      case Untouched => r := Leave;
      case Clear => r := if current.Some? then Set(None) else Leave;
      case To(reference) =>
        var found := Names.FindEntity(ReleaseNames(releases), reference);
        r := if found.None? then No(UnknownRelease) else if current == found then Leave else Set(found);
    }

    method Create(cfg: Config, id: Id, title: string, column: Option<Status>, labels: seq<string>,
                  parent: Option<Id>, project: Option<string>, release: Option<string>, at: Time)
      returns (refused: Option<Refusal>)
      requires Inv(State()) && Later(State(), at) && id !in tickets
      modifies this
      ensures var o := old(Step(cfg, State(), Op.Create(id, title, column, labels, parent, project, release), at));
        && (refused == if o.Refused? then Some(o.why) else None)
        && State() == (if o.Written? then o.board else old(State()))
      ensures Inv(State())
    {
      StepKeeps(cfg, State(), Op.Create(id, title, column, labels, parent, project, release), at);
      var status, p, r;
      refused, status, p, r := CheckNew(cfg, id, title, column, labels, parent, project, release, at);
      if refused.Some? { return; }
      var clean := Labels.CleanLabels(labels);
      var t := Ticket(Trim(title), status, clean, parent, ValueOf(p, None), ValueOf(r, None),
                      NextOrder(tickets, rows, status, None), at, at, None);
      tickets := Touch(tickets, parent, at)[id := t];
      rows := rows + [id];
    }

    /** The checks of a new ticket, in their order, before the board is touched. */
    method CheckNew(cfg: Config, id: Id, title: string, column: Option<Status>, labels: seq<string>,
                    parent: Option<Id>, project: Option<string>, release: Option<string>, ghost at: Time)
      returns (refused: Option<Refusal>, status: Status, p: Checked, r: Checked)
      requires Inv(State())
      ensures var o := CreateTicket(cfg, State(), Op.Create(id, title, column, labels, parent, project, release), at);
        refused == if o.Refused? then Some(o.why) else None
      ensures refused.None? ==>
        && status == (if column.Some? then column.value else cfg.defaultStatus)
        && p == ProjectRelation(State(), WantedOf(project), None)
        && r == ReleaseRelation(State(), WantedOf(release), None)
    {
      refused, p, r := None, Leave, Leave;
      status := if column.Some? then column.value else cfg.defaultStatus;
      if Trim(title) == "" { return Some(TitleRequired), status, p, r; }
      if column.Some? && column.value !in cfg.columns { return Some(UnknownStatus), status, p, r; }
      if parent.Some? {
        refused := CheckParent(tickets, None, parent.value);
        if refused.Some? { return; }
      }
      p := CheckedProject(WantedOf(project), None);
      if p.No? { return Some(p.why), status, p, r; }
      r := CheckedRelease(WantedOf(release), None);
      if r.No? { refused := Some(r.why); }
    }

    method Update(cfg: Config, id: Id, patch: Patch, at: Time) returns (refused: Option<Refusal>)
      requires Inv(State()) && Later(State(), at)
      modifies this
      ensures var o := old(Step(cfg, State(), Op.Update(id, patch), at));
        && (refused == if o.Refused? then Some(o.why) else None)
        && State() == (if o.Written? then o.board else old(State()))
      ensures Inv(State())
    {
      StepKeeps(cfg, State(), Op.Update(id, patch), at);
      var parent, project, release;
      refused, parent, project, release := CheckPatch(cfg, id, patch, at);
      if refused.Some? { return; }
      tickets := WriteEdit(tickets, rows, id, Patched(tickets[id], patch), parent, project, release, at);
    }

    /** The checks of an update, in their order, before the board is touched. */
    method CheckPatch(cfg: Config, id: Id, patch: Patch, ghost at: Time)
      returns (refused: Option<Refusal>, parent: Checked, project: Checked, release: Checked)
      requires Inv(State())
      ensures var o := UpdateTicket(cfg, State(), id, patch, at);
        refused == if o.Refused? then Some(o.why) else None
      ensures refused.None? ==>
        && id in tickets && parent == ParentRelation(tickets, id, patch.parent)
        && project == ProjectRelation(State(), patch.project, tickets[id].project)
        && release == ReleaseRelation(State(), patch.release, tickets[id].release)
    {
      refused, parent, project, release := None, Leave, Leave, Leave;
      if id !in tickets { return Some(UnknownTicket), parent, project, release; }
      var t := tickets[id];
      parent := ParentRelation(tickets, id, patch.parent);
      if parent.No? { return Some(parent.why), parent, project, release; }
      project := CheckedProject(patch.project, t.project);
      if project.No? { return Some(project.why), parent, project, release; }
      release := CheckedRelease(patch.release, t.release);
      if release.No? {
        refused := Some(release.why);
      } else if patch.title.Some? && Trim(patch.title.value) == "" {
        refused := Some(TitleRequired);
      } else if patch.status.Some? && patch.status.value !in cfg.columns {
        refused := Some(UnknownStatus);
      } else if patch.status.Some? && !t.Live() && t.status != patch.status.value {
        refused := Some(MoveDeleted);
      }
    }

    method Move(cfg: Config, id: Id, status: Status, index: Option<nat>, at: Time) returns (refused: Option<Refusal>)
      requires Inv(State()) && Later(State(), at)
      modifies this
      ensures var o := old(Step(cfg, State(), Shift(id, status, index), at));
        && (refused == if o.Refused? then Some(o.why) else None)
        && State() == (if o.Written? then o.board else old(State()))
      ensures Inv(State())
    {
      StepKeeps(cfg, State(), Shift(id, status, index), at);
      if status !in cfg.columns { return Some(UnknownStatus); }
      if id !in tickets { return Some(UnknownTicket); }
      if !tickets[id].Live() { return Some(MoveDeleted); }
      tickets := WriteMove(tickets, rows, id, status, index, at);
      return None;
    }

    method Delete(cfg: Config, id: Id, at: Time) returns (found: bool)
      requires Inv(State()) && Later(State(), at)
      modifies this
      ensures found == old(id in tickets)
      ensures State() == old(After(cfg, State(), Op.Delete(id), at)) && Inv(State())
    {
      StepKeeps(cfg, State(), Op.Delete(id), at);
      found := id in tickets;
      if found && tickets[id].Live() {
        tickets := tickets[id := tickets[id].(deletedAt := Some(at), updatedAt := at)];
      }
    }

    method Restore(cfg: Config, id: Id, at: Time) returns (found: bool)
      requires Inv(State()) && Later(State(), at)
      modifies this
      ensures found == old(id in tickets)
      ensures State() == old(After(cfg, State(), Op.Restore(id), at)) && Inv(State())
    {
      StepKeeps(cfg, State(), Op.Restore(id), at);
      found := id in tickets;
      if !found || tickets[id].Live() { return; }
      if Orphaned(tickets, tickets[id]) {
        tickets := Reparent(tickets, id, None, at);
      }
      var order := NextOrder(tickets, rows, tickets[id].status, Some(id));
      tickets := tickets[id := tickets[id].(deletedAt := None, updatedAt := at, order := order)];
    }

    method Ship(cfg: Config, reference: string, moveTo: Destination, at: Time) returns (refused: Option<Refusal>)
      requires Inv(State()) && Later(State(), at)
      modifies this
      ensures var o := old(Step(cfg, State(), ShipRelease(reference, moveTo), at));
        && (refused == if o.Refused? then Some(o.why) else None)
        && State() == (if o.Written? then o.board else old(State()))
      ensures Inv(State())
    {
      StepKeeps(cfg, State(), ShipRelease(reference, moveTo), at);
      var id, open, target;
      refused, id, open, target := CheckShip(cfg, reference, moveTo, at);
      if refused.Some? { return; }
      assert forall i :: 0 <= i < |open| ==> open[i] in tickets by {
        forall i | 0 <= i < |open| ensures open[i] in tickets { assert open[i] in open; }
      }
      var moved := MoveOpen(tickets, open, target, at);
      MovedIs(cfg, tickets, moved, open, id, target, at);
      tickets := moved;
      releases := releases[id := releases[id].(releasedAt := Some(at), updatedAt := at)];
    }

    /** The checks of a ship, in their order, before the board is touched. */
    method CheckShip(cfg: Config, reference: string, moveTo: Destination, ghost at: Time)
      returns (refused: Option<Refusal>, id: Id, open: seq<Id>, target: Option<Id>)
      requires Inv(State())
      ensures var o := KanbanPlan.Ship(cfg, State(), reference, moveTo, at);
        && (refused == if o.Refused? then Some(o.why) else None)
        && (refused.None? ==>
              && id in releases && Distinct(open)
              && (forall t :: t in open <==> t in rows && t in tickets && Open(cfg, tickets[t], id))
              && o.board == State().(
                   tickets := if open == [] then tickets else Moved(cfg, tickets, id, target, at),
                   releases := releases[id := releases[id].(releasedAt := Some(at), updatedAt := at)]))
    {
      refused, id, open, target := None, "", [], None;
      var found := Names.FindEntity(ReleaseNames(releases), reference);
      if found.None? { return Some(UnknownRelease), id, open, target; }
      id := found.value;
      if releases[id].releasedAt.Some? { return Some(AlreadyReleased), id, open, target; }
      open := OpenTicketsOf(cfg, tickets, rows, id);
      AnyOpenIs(cfg, State(), id, open);
      if open == [] { return; }
      if moveTo.None? { return Some(OpenTickets(|open|)), id, open, target; }
      if moveTo.value.Some? {
        target := Names.FindEntity(ReleaseNames(releases), moveTo.value.value);
        if target.None? {
          refused := Some(UnknownRelease);
        } else if target.value == id {
          refused := Some(IntoItself);
        } else if releases[target.value].releasedAt.Some? {
          refused := Some(TargetReleased);
        }
      }
    }

    method FindTarget(into: Conv.Into, reference: string) returns (r: Option<Id>)
      requires Inv(State())
      ensures r == Conv.FindTarget(State(), into, reference)
    {
      if into.IntoProject? { r := Names.FindEntity(ProjectNames(projects), reference); }
      else { r := Names.FindEntity(ReleaseNames(releases), reference); }
    }

    method ChooseTarget(input: Conv.Input) returns (r: Option<Conv.Target>)
      requires Inv(State())
      ensures r == Conv.TargetOf(State(), input)
    {
      if input.tag == "" { return None; }
      var found: Option<Id>;
      if input.reference.Some? && input.reference.value != "" {
        found := FindTarget(input.into, input.reference.value);
        if found.None? { return None; }
      } else if input.name.Some? && input.name.value != "" {
        found := FindTarget(input.into, input.name.value);
        if found.None? { return Some(Conv.New(input.name.value)); }
      } else {
        return None;
      }
      return if Conv.Archived(State(), input.into, found.value) then None else Some(Conv.Existing(found.value));
    }

    /** A dry run reports the buckets the real run works on, and writes nothing. */
    method ConvertLabel(cfg: Config, input: Conv.Input, newId: Id, dryRun: bool, at: Time)
        returns (r: Option<Conv.Buckets>)
      requires Inv(State()) && Later(State(), at) && Conv.FreshFor(State(), newId)
      modifies this
      ensures r.Some? <==> old(Conv.TargetOf(State(), input)).Some?
      ensures r.Some? ==> Conv.Sorts(old(tickets), old(rows), input,
        Conv.HereOf(old(Conv.TargetOf(State(), input)).value), r.value)
      ensures dryRun ==> State() == old(State())
      ensures !dryRun ==> State() == old(After(cfg, State(), Op.ConvertLabel(input, newId), at))
      ensures Inv(State())
    {
      StepKeeps(cfg, State(), Op.ConvertLabel(input, newId), at);
      var target := ChooseTarget(input);
      if target.None? { return None; }
      var here := Conv.HereOf(target.value);
      var buckets := Conv.PlanRows(tickets, rows, input, here);
      if !dryRun {
        var b := ConvertBoard(cfg, State(), input, target.value, newId, at);
        tickets, projects, releases := b.tickets, b.projects, b.releases;
      }
      return Some(buckets);
    }
  }

  /** The conversion's writes: the entity, the tickets row by row, the release's closing. */
  method ConvertBoard(cfg: Config, b: Board, input: Conv.Input, target: Conv.Target, newId: Id, at: Time)
    returns (r: Board)
    requires Listed(b)
    ensures r == Conv.Apply(cfg, b, input, target, newId, at) && r.rows == b.rows
  {
    var entity := if target.Existing? then target.id else newId;
    var filed := Conv.WithEntity(b, input.into, target, newId, at);
    var converted, changed := ConvertRows(b.tickets, b.rows, input, Conv.HereOf(target), entity, at);
    r := Conv.Marked(cfg, b.tickets, filed.(tickets := converted), input, entity, at);
  }

  lemma AnyOpenIs(cfg: Config, b: Board, release: Id, open: seq<Id>)
    requires Listed(b)
    requires forall id :: id in open <==> id in b.rows && id in b.tickets && Open(cfg, b.tickets[id], release)
    ensures AnyOpen(cfg, b.tickets, release) <==> open != []
  {
    if open != [] { assert open[0] in open; }
  }

  lemma MovedIs(cfg: Config, tickets: Tickets, moved: Tickets, open: seq<Id>, release: Id, target: Option<Id>, at: Time)
    requires moved.Keys == tickets.Keys
    requires forall id :: id in tickets ==> (id in open <==> Open(cfg, tickets[id], release))
    requires forall id :: id in tickets ==>
      moved[id] == if id in open then tickets[id].(release := target, updatedAt := at) else tickets[id]
    ensures moved == Moved(cfg, tickets, release, target, at)
    ensures open == [] ==> moved == tickets
  {
  }

  /** An update's write: fields first, then the links, then the bottom of the column it moved to. */
  method WriteEdit(tickets: Tickets, rows: seq<Id>, id: Id, q: Ticket, parent: Checked, project: Checked,
      release: Checked, at: Time)
    returns (r: Tickets)
    requires id in tickets && tickets[id].parent != Some(id) && (parent.Set? ==> parent.to != Some(id))
    requires q.parent == tickets[id].parent && q.project == tickets[id].project
    requires q.release == tickets[id].release && q.order == tickets[id].order
    ensures r == EditedTo(tickets, rows, id, q, parent, project, release, at)
  {
    var before := tickets[id];
    if q == before && !parent.Set? && !project.Set? && !release.Set? { return tickets; }
    var linked := tickets[id := q];
    if parent.Set? { linked := Reparent(linked, id, parent.to, at); }
    LinkedSelf(tickets, id, q, parent, at);
    var t := linked[id].(project := ValueOf(project, before.project), release := ValueOf(release, before.release));
    if t.status != before.status {
      t := t.(order := NextOrder(linked, rows, t.status, Some(id)));
    }
    r := linked[id := t.(updatedAt := at)];
  }

  lemma LinkedSelf(tickets: Tickets, id: Id, q: Ticket, parent: Checked, at: Time)
    requires q.parent != Some(id) && (parent.Set? ==> parent.to != Some(id))
    ensures var fields := tickets[id := q];
      var linked := if parent.Set? then Reparent(fields, id, parent.to, at) else fields;
      id in linked && linked[id] == q.(parent := ValueOf(parent, q.parent))
  {
    if parent.Set? { ReparentSelf(tickets[id := q], id, parent.to, at); }
  }

  /** Relinking a ticket changes nothing of it but its parent. */
  lemma ReparentSelf(tickets: Tickets, id: Id, next: Option<Id>, at: Time)
    requires id in tickets && tickets[id].parent != Some(id) && next != Some(id)
    ensures var r := Reparent(tickets, id, next, at); id in r && r[id] == tickets[id].(parent := next)
  {
  }

  /** A move's write: the target column renumbered, then the ticket, then the column it left. */
  method WriteMove(tickets: Tickets, rows: seq<Id>, id: Id, status: Status, index: Option<nat>, at: Time)
      returns (r: Tickets)
    requires id in tickets && tickets[id].Live() && Distinct(rows)
    ensures r == KanbanLanes.Move(tickets, rows, id, status, index, at)
  {
    var column := Column(tickets, rows, status);
    var ordered := Placed(column, id, index);
    if tickets[id].status == status && column == ordered { return tickets; }
    ColumnIs(tickets, rows, status);
    PlacedIs(column, id, index);
    PlacedAllIn(tickets, column, id, index);
    RenumberIs(tickets, ordered);
    r := RenumberLane(tickets, ordered);
    r := r[id := r[id].(status := status, updatedAt := at)];
    if tickets[id].status != status {
      r := RenumberLane(r, Column(r, rows, tickets[id].status));
    }
  }
}
