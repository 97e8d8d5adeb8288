/**
 Every write to the board, and what all runs of them keep: references that exist, names that
 are not ambiguous, a live hierarchy one level deep, a parent relation without cycles even
 through deleted tickets, and `updated_at` as each ticket's version.
 */
module KanbanBoard {
  import opened Options
  import opened KanbanModel
  import opened KanbanLanes
  import opened KanbanPlan
  import opened Text
  import Labels = KanbanLabels
  import Conv = KanbanConvert
  import Names = KanbanNames

  datatype Patch = Patch(
    title: Option<string>, status: Option<Status>,
    labels: Option<seq<string>>, addLabels: seq<string>, removeLabels: seq<string>,
    parent: Wanted, project: Wanted, release: Wanted)

  datatype Op =
    | Create(id: Id, title: string, column: Option<Status>, labels: seq<string>,
             parent: Option<Id>, project: Option<string>, release: Option<string>)
    | Update(id: Id, patch: Patch)
    | Shift(id: Id, status: Status, index: Option<nat>)
    | Delete(id: Id)
    | Restore(id: Id)
    | Comment(id: Id)
    | CreateProject(id: Id, name: string)
    | RenameProject(reference: string, name: string)
    | ArchiveProject(reference: string, archived: bool)
    | CreateRelease(id: Id, name: string)
    | RenameRelease(reference: string, name: string)
    | ShipRelease(reference: string, moveTo: Destination)
    | ReopenRelease(reference: string)
    | DeleteRelease(reference: string)
    | ConvertLabel(input: Conv.Input, id: Id)

  // ------------------------------------------------------------ relations

  /** What a checked relation comes to. */
  datatype Checked = Leave | Set(to: Option<Id>) | No(why: Refusal)

  function ParentRelation(tickets: Tickets, child: Id, wanted: Wanted): Checked
    requires child in tickets
  {
    match wanted
    case Untouched => Leave
    case Clear => if tickets[child].parent.Some? then Set(None) else Leave
    case To(id) =>
      if tickets[child].parent == Some(id) && id in tickets then Leave
      else
        var refused := CheckParent(tickets, Some(child), id);
        if refused.Some? then No(refused.value) else Set(Some(id))
  }

  ghost function ProjectRelation(b: Board, wanted: Wanted, current: Option<Id>): (r: Checked)
    ensures r.Set? && r.to.Some? ==> r.to.value in b.projects
  {
    match wanted
    case Untouched => Leave
    case Clear => if current.Some? then Set(None) else Leave
    case To(reference) =>
      var found := FindProject(b, reference);
      if found.None? then No(UnknownProject)
      else if current == found then Leave
      else if b.projects[found.value].archivedAt.Some? then No(ProjectArchived)
      else Set(found)
  }

  ghost function ReleaseRelation(b: Board, wanted: Wanted, current: Option<Id>): (r: Checked)
    ensures r.Set? && r.to.Some? ==> r.to.value in b.releases
  {
    match wanted
    case Untouched => Leave
    case Clear => if current.Some? then Set(None) else Leave
    case To(reference) =>
      var found := FindRelease(b, reference);
      if found.None? then No(UnknownRelease) else if current == found then Leave else Set(found)
  }

  function WantedOf(reference: Option<string>): Wanted {
    if reference.Some? && reference.value != "" then To(reference.value) else Untouched
  }

  function ValueOf(c: Checked, current: Option<Id>): Option<Id> {
    if c.Set? then c.to else current
  }

  /** The bottom of a column, ignoring one ticket. */
  function NextOrder(tickets: Tickets, rows: seq<Id>, status: Status, except: Option<Id>): (r: nat)
    ensures r > 0
    ensures forall i :: 0 <= i < |rows| && InLane(tickets, rows[i], status) && except != Some(rows[i]) ==>
      tickets[rows[i]].order < r
  {
    if rows == [] then 1
    else
      var init := NextOrder(tickets, rows[..|rows| - 1], status, except);
      var last := rows[|rows| - 1];
      if InLane(tickets, last, status) && except != Some(last) && tickets[last].order >= init
      then tickets[last].order + 1 else init
  }

  // ------------------------------------------------------------ tickets

  ghost function CreateTicket(cfg: Config, b: Board, op: Op, at: Time): Outcome
    requires op.Create?
  {
    if Trim(op.title) == "" then Refused(TitleRequired)
    else if op.column.Some? && op.column.value !in cfg.columns then Refused(UnknownStatus)
    else
      var status := if op.column.Some? then op.column.value else cfg.defaultStatus;
      var refused := if op.parent.Some? then CheckParent(b.tickets, None, op.parent.value) else None;
      var project := ProjectRelation(b, WantedOf(op.project), None);
      var release := ReleaseRelation(b, WantedOf(op.release), None);
      if refused.Some? then Refused(refused.value)
      else if project.No? then Refused(project.why)
      else if release.No? then Refused(release.why)
      else
        var t := Ticket(Trim(op.title), status, Labels.Clean(op.labels), op.parent,
                        ValueOf(project, None), ValueOf(release, None),
                        NextOrder(b.tickets, b.rows, status, None), at, at, None);
        Written(b.(tickets := Touch(b.tickets, op.parent, at)[op.id := t], rows := b.rows + [op.id]))
  }

  function Patched(t: Ticket, p: Patch): Ticket {
    t.(title := if p.title.Some? then Trim(p.title.value) else t.title,
       status := if p.status.Some? then p.status.value else t.status,
       labels := Labels.EditLabels(t.labels, p.labels, p.removeLabels, p.addLabels))
  }

  /** The tickets after an update whose relations have been checked. */
  function Edited(b: Board, id: Id, p: Patch, parent: Checked, project: Checked, release: Checked, at: Time): Tickets
    requires id in b.tickets
  {
    EditedTo(b.tickets, b.rows, id, Patched(b.tickets[id], p), parent, project, release, at)
  }

  /** The ticket with its fields as in `q`, relinked as checked. */
  function EditedTo(tickets: Tickets, rows: seq<Id>, id: Id, q: Ticket,
                    parent: Checked, project: Checked, release: Checked, at: Time): Tickets
    requires id in tickets
  {
    var t := tickets[id];
    var fields := tickets[id := q];
    var linked := if parent.Set? then Reparent(fields, id, parent.to, at) else fields;
    if q == t && !parent.Set? && !project.Set? && !release.Set? then tickets
    else
      var order := if q.status == t.status then t.order else NextOrder(linked, rows, q.status, Some(id));
      linked[id := q.(parent := ValueOf(parent, t.parent), project := ValueOf(project, t.project),
                      release := ValueOf(release, t.release), order := order, updatedAt := at)]
  }

  ghost function UpdateTicket(cfg: Config, b: Board, id: Id, p: Patch, at: Time): Outcome {
    if id !in b.tickets then Refused(UnknownTicket)
    else
      var t := b.tickets[id];
      var parent := ParentRelation(b.tickets, id, p.parent);
      var project := ProjectRelation(b, p.project, t.project);
      var release := ReleaseRelation(b, p.release, t.release);
      if parent.No? then Refused(parent.why)
      else if project.No? then Refused(project.why)
      else if release.No? then Refused(release.why)
      else if p.title.Some? && Trim(p.title.value) == "" then Refused(TitleRequired)
      else if p.status.Some? && p.status.value !in cfg.columns then Refused(UnknownStatus)
      else if p.status.Some? && !t.Live() && t.status != p.status.value then Refused(MoveDeleted)
      else Written(b.(tickets := Edited(b, id, p, parent, project, release, at)))
  }

  function MoveTicket(cfg: Config, b: Board, id: Id, status: Status, index: Option<nat>, at: Time): Outcome {
    if status !in cfg.columns then Refused(UnknownStatus)
    else if id !in b.tickets then Refused(UnknownTicket)
    else if !b.tickets[id].Live() then Refused(MoveDeleted)
    else Written(b.(tickets := Move(b.tickets, b.rows, id, status, index, at)))
  }

  function DeleteTicket(b: Board, id: Id, at: Time): Outcome {
    if id !in b.tickets then Refused(UnknownTicket)
    else if !b.tickets[id].Live() then Written(b)
    else Written(b.(tickets := b.tickets[id := b.tickets[id].(deletedAt := Some(at), updatedAt := at)]))
  }

  /** The parent can no longer hold the subtask. */
  predicate Orphaned(tickets: Tickets, t: Ticket) {
    t.parent.Some? &&
    (t.parent.value !in tickets || !tickets[t.parent.value].Live() || tickets[t.parent.value].parent.Some?)
  }

  function RestoreTicket(b: Board, id: Id, at: Time): Outcome {
    if id !in b.tickets then Refused(UnknownTicket)
    else if b.tickets[id].Live() then Written(b)
    else
      var linked := if Orphaned(b.tickets, b.tickets[id]) then Reparent(b.tickets, id, None, at) else b.tickets;
      var t := linked[id];
      Written(b.(tickets := linked[id := t.(
        deletedAt := None, updatedAt := at, order := NextOrder(linked, b.rows, t.status, Some(id)))]))
  }

  function CommentTicket(b: Board, id: Id, at: Time): Outcome {
    if id !in b.tickets then Refused(UnknownTicket)
    else if !b.tickets[id].Live() then Refused(CommentDeleted)
    else Written(b.(tickets := b.tickets[id := b.tickets[id].(updatedAt := at)]))
  }

  // ------------------------------------------------------------ projects and releases

  ghost function WriteEntity(b: Board, op: Op, at: Time): Outcome
    requires op.CreateProject? || op.RenameProject? || op.ArchiveProject? || op.CreateRelease? || op.RenameRelease?
          || op.ReopenRelease? || op.DeleteRelease?
  {
    match op
    case CreateProject(id, name) =>
      if name == "" || !Names.Free(ProjectNames(b.projects), name, None) then Refused(NameTaken)
      else Written(b.(projects := b.projects[id := Project(name, None, at)]))
    case RenameProject(reference, name) =>
      var found := FindProject(b, reference);
      if found.None? then Refused(UnknownProject)
      else if name == "" || !Names.Free(ProjectNames(b.projects), name, found) then Refused(NameTaken)
      else if b.projects[found.value].name == name then Written(b)
      else Written(b.(projects := b.projects[found.value := b.projects[found.value].(name := name, updatedAt := at)]))
    case ArchiveProject(reference, archived) =>
      var found := FindProject(b, reference);
      if found.None? then Refused(UnknownProject)
      else if b.projects[found.value].archivedAt.Some? == archived then Written(b)
      else
        var when := if archived then Some(at) else None;
        var next := b.projects[found.value].(archivedAt := when, updatedAt := at);
        Written(b.(projects := b.projects[found.value := next]))
    case CreateRelease(id, name) =>
      if name == "" || !Names.Free(ReleaseNames(b.releases), name, None) then Refused(NameTaken)
      else Written(b.(releases := b.releases[id := Release(name, None, at)]))
    case RenameRelease(reference, name) =>
      var found := FindRelease(b, reference);
      if found.None? then Refused(UnknownRelease)
      else if name == "" || !Names.Free(ReleaseNames(b.releases), name, found) then Refused(NameTaken)
      else if b.releases[found.value].name == name then Written(b)
      else Written(b.(releases := b.releases[found.value := b.releases[found.value].(name := name, updatedAt := at)]))
    case ReopenRelease(reference) =>
      var found := FindRelease(b, reference);
      if found.None? then Refused(UnknownRelease)
      else if b.releases[found.value].releasedAt.None? then Written(b)
      else
        var next := b.releases[found.value].(releasedAt := None, updatedAt := at);
        Written(b.(releases := b.releases[found.value := next]))
    case DeleteRelease(reference) =>
      var found := FindRelease(b, reference);
      if found.None? then Refused(UnknownRelease)
      else if exists t :: t in b.tickets && b.tickets[t].release == found then Refused(StillUsed)
      else Written(b.(releases := b.releases - {found.value}))
  }

  /** One call at time `at`. A refused call leaves the stored board as it was. */
  ghost function Step(cfg: Config, b: Board, op: Op, at: Time): Outcome {
    match op
    case Create(_, _, _, _, _, _, _) => CreateTicket(cfg, b, op, at)
    case Update(id, patch) => UpdateTicket(cfg, b, id, patch, at)
    case Shift(id, status, index) => MoveTicket(cfg, b, id, status, index, at)
    case Delete(id) => DeleteTicket(b, id, at)
    case Restore(id) => RestoreTicket(b, id, at)
    case Comment(id) => CommentTicket(b, id, at)
    case ShipRelease(reference, moveTo) => Ship(cfg, b, reference, moveTo, at)
    case ConvertLabel(input, id) =>
      var r := Conv.Convert(cfg, b, input, id, at);
      if r.None? then Refused(UnknownRelease) else Written(r.value)
    case _ => WriteEntity(b, op, at)
  }

  ghost function After(cfg: Config, b: Board, op: Op, at: Time): Board {
    var o := Step(cfg, b, op, at);
    if o.Written? then o.board else b
  }

  // ------------------------------------------------------------ the invariant

  ghost predicate Inv(b: Board) {
    Listed(b) && Refers(b) && OneLevel(b.tickets) && Acyclic(b.tickets) && Conv.NamesClear(b)
  }

  /** Generated ids are new; the time is later than every write so far. */
  ghost predicate Admissible(b: Board, op: Op, at: Time) {
    && (op.Create? ==> op.id !in b.tickets)
    && (op.CreateProject? || op.CreateRelease? || op.ConvertLabel? ==> Conv.FreshFor(b, op.id))
    && Later(b, at)
  }

  ghost predicate Later(b: Board, at: Time) {
    forall id :: id in b.tickets ==> b.tickets[id].updatedAt < at
  }

  lemma EmptyInv()
    ensures Inv(EMPTY)
  {
    var rank: map<Id, nat> := map[];
    assert Ranks(EMPTY.tickets, rank);
  }

  /** Tickets written without touching links or what they refer to. */
  lemma SameLinksInv(b: Board, tickets: Tickets)
    requires Inv(b) && SameLinks(b.tickets, tickets)
    requires forall id :: id in tickets ==>
      tickets[id].project == b.tickets[id].project ||
      (tickets[id].project.Some? ==> tickets[id].project.value in b.projects)
    requires forall id :: id in tickets ==>
      tickets[id].release == b.tickets[id].release ||
      (tickets[id].release.Some? ==> tickets[id].release.value in b.releases)
    ensures Inv(b.(tickets := tickets))
  {
    SameLinksKeep(b.tickets, tickets);
  }

  lemma AddInv(b: Board, touched: Tickets, id: Id, t: Ticket)
    requires Inv(b) && id !in b.tickets && SameLinks(b.tickets, touched) && t.Live()
    requires forall x :: x in touched ==>
      touched[x].project == b.tickets[x].project && touched[x].release == b.tickets[x].release
    requires t.parent.Some? ==> CheckParent(touched, None, t.parent.value).None?
    requires t.project.Some? ==> t.project.value in b.projects
    requires t.release.Some? ==> t.release.value in b.releases
    ensures Inv(b.(tickets := touched[id := t], rows := b.rows + [id]))
  {
    SameLinksKeep(b.tickets, touched);
    assert forall x :: x in touched && touched[x].parent.Some? ==> touched[x].parent.value in touched;
    AddKeeps(touched, id, t);
    AddListed(b, touched, id, t);
    assert Refers(b.(tickets := touched[id := t], rows := b.rows + [id]));
  }

  lemma AddListed(b: Board, touched: Tickets, id: Id, t: Ticket)
    requires Listed(b) && id !in b.tickets && b.tickets.Keys == touched.Keys
    ensures Listed(b.(tickets := touched[id := t], rows := b.rows + [id]))
  {
    assert id !in b.rows;
  }

  lemma CreateKeeps(cfg: Config, b: Board, op: Op, at: Time)
    requires op.Create? && Inv(b) && op.id !in b.tickets && CreateTicket(cfg, b, op, at).Written?
    ensures Inv(CreateTicket(cfg, b, op, at).board)
  {
    AddInv(b, Touch(b.tickets, op.parent, at), op.id, CreateTicket(cfg, b, op, at).board.tickets[op.id]);
  }

  lemma UpdateKeeps(cfg: Config, b: Board, id: Id, p: Patch, at: Time)
    requires Inv(b) && UpdateTicket(cfg, b, id, p, at).Written?
    ensures Inv(UpdateTicket(cfg, b, id, p, at).board)
  {
    var t := b.tickets[id];
    var parent := ParentRelation(b.tickets, id, p.parent);
    var project := ProjectRelation(b, p.project, t.project);
    var release := ReleaseRelation(b, p.release, t.release);
    EditedInv(b, id, p, parent, project, release, at);
  }

  lemma EditedInv(b: Board, id: Id, p: Patch, parent: Checked, project: Checked, release: Checked, at: Time)
    requires Inv(b) && id in b.tickets
    requires parent.Set? && parent.to.Some? ==> CheckParent(b.tickets, Some(id), parent.to.value).None?
    requires project.Set? && project.to.Some? ==> project.to.value in b.projects
    requires release.Set? && release.to.Some? ==> release.to.value in b.releases
    ensures Inv(b.(tickets := Edited(b, id, p, parent, project, release, at)))
  {
    EditedLinks(b, id, p, parent, project, release, at);
    var next := Edited(b, id, p, parent, project, release, at);
    if parent.Set? {
      if parent.to.Some? { AttachKeeps(b.tickets, next, id, parent.to.value); }
      else { DetachKeeps(b.tickets, next, id); }
      EditedRefers(b, id, p, parent, project, release, at);
    } else {
      SameLinksInv(b, next);
    }
  }

  lemma EditedLinks(b: Board, id: Id, p: Patch, parent: Checked, project: Checked, release: Checked, at: Time)
    requires id in b.tickets
    ensures var next := Edited(b, id, p, parent, project, release, at);
      && (parent.Set? ==> Relinked(b.tickets, next, id, parent.to))
      && (!parent.Set? ==> SameLinks(b.tickets, next))
      && (forall x :: x in next && x != id ==>
            next[x] == b.tickets[x] || next[x] == b.tickets[x].(updatedAt := at))
      && (next[id] == b.tickets[id] || next[id].updatedAt == at)
      && next[id].project == ValueOf(project, b.tickets[id].project)
      && next[id].release == ValueOf(release, b.tickets[id].release)
  {
    EditedToLinks(b.tickets, b.rows, id, Patched(b.tickets[id], p), parent, project, release, at);
  }

  lemma EditedToLinks(tickets: Tickets, rows: seq<Id>, id: Id, q: Ticket,
                      parent: Checked, project: Checked, release: Checked, at: Time)
    requires id in tickets && q.parent == tickets[id].parent && q.deletedAt == tickets[id].deletedAt
    requires q.project == tickets[id].project && q.release == tickets[id].release
    ensures var next := EditedTo(tickets, rows, id, q, parent, project, release, at);
      && (parent.Set? ==> Relinked(tickets, next, id, parent.to))
      && (!parent.Set? ==> SameLinks(tickets, next))
      && (forall x :: x in next && x != id ==> next[x] == tickets[x] || next[x] == tickets[x].(updatedAt := at))
      && (next[id] == tickets[id] || next[id].updatedAt == at)
      && next[id].project == ValueOf(project, tickets[id].project)
      && next[id].release == ValueOf(release, tickets[id].release)
  {
    if parent.Set? {
      ReparentRelinks(tickets[id := q], id, parent.to, at);
      ReparentStamps(tickets[id := q], id, parent.to, at);
    }
  }

  /** Attaching and detaching only stamp other tickets. */
  lemma ReparentStamps(tickets: Tickets, child: Id, next: Option<Id>, at: Time)
    requires child in tickets
    ensures var r := Reparent(tickets, child, next, at);
      forall x :: x in r && x != child ==> r[x] == tickets[x] || r[x] == tickets[x].(updatedAt := at)
  {
  }

  lemma EditedRefers(b: Board, id: Id, p: Patch, parent: Checked, project: Checked, release: Checked, at: Time)
    requires Inv(b) && id in b.tickets && parent.Set? && (parent.to.Some? ==> parent.to.value in b.tickets)
    requires project.Set? && project.to.Some? ==> project.to.value in b.projects
    requires release.Set? && release.to.Some? ==> release.to.value in b.releases
    ensures var b' := b.(tickets := Edited(b, id, p, parent, project, release, at)); Refers(b') && Listed(b')
  {
    EditedLinks(b, id, p, parent, project, release, at);
    var next := Edited(b, id, p, parent, project, release, at);
    assert next.Keys == b.tickets.Keys;
  }

  lemma MoveKeeps(cfg: Config, b: Board, id: Id, status: Status, index: Option<nat>, at: Time)
    requires Inv(b) && MoveTicket(cfg, b, id, status, index, at).Written?
    ensures Inv(MoveTicket(cfg, b, id, status, index, at).board)
  {
    MoveChanges(b.tickets, b.rows, id, status, index, at);
    var next := Move(b.tickets, b.rows, id, status, index, at);
    forall x | x in b.tickets
      ensures next[x].parent == b.tickets[x].parent && next[x].deletedAt == b.tickets[x].deletedAt
    {
      assert x != id ==> next[x] == b.tickets[x].(order := next[x].order);
    }
    SameLinksInv(b, next);
  }

  lemma DeleteStepKeeps(b: Board, id: Id, at: Time)
    requires Inv(b) && DeleteTicket(b, id, at).Written?
    ensures Inv(DeleteTicket(b, id, at).board)
  {
    if b.tickets[id].Live() {
      DeleteKeeps(b.tickets, id, b.tickets[id].(deletedAt := Some(at), updatedAt := at));
    }
  }

  lemma RestoreKeeps(b: Board, id: Id, at: Time)
    requires Inv(b) && RestoreTicket(b, id, at).Written?
    ensures Inv(RestoreTicket(b, id, at).board)
  {
    if !b.tickets[id].Live() {
      var orphaned := Orphaned(b.tickets, b.tickets[id]);
      var linked := if orphaned then Reparent(b.tickets, id, None, at) else b.tickets;
      if orphaned {
        ReparentRelinks(b.tickets, id, None, at);
        DetachKeeps(b.tickets, linked, id);
        ReparentRefers(b, id, at);
      }
      assert Inv(b.(tickets := linked));
      ReviveInv(b.(tickets := linked), id, RestoreTicket(b, id, at).board.tickets[id]);
    }
  }

  lemma ReviveInv(b: Board, id: Id, t: Ticket)
    requires Inv(b) && id in b.tickets && t.Live()
    requires t.parent == b.tickets[id].parent && t.project == b.tickets[id].project &&
      t.release == b.tickets[id].release
    requires t.parent.Some? ==> t.parent.value in b.tickets && b.tickets[t.parent.value].parent.None?
    ensures Inv(b.(tickets := b.tickets[id := t]))
  {
    ReviveKeeps(b.tickets, id, t);
  }

  lemma ReparentRefers(b: Board, id: Id, at: Time)
    requires Inv(b) && id in b.tickets
    ensures Refers(b.(tickets := Reparent(b.tickets, id, None, at)))
  {
    ReparentRelinks(b.tickets, id, None, at);
  }

  lemma ShipKeeps(cfg: Config, b: Board, reference: string, moveTo: Destination, at: Time)
    requires Inv(b) && Ship(cfg, b, reference, moveTo, at).Written?
    ensures Inv(Ship(cfg, b, reference, moveTo, at).board)
  {
    ShipCloses(cfg, b, reference, moveTo, at);
    var b' := Ship(cfg, b, reference, moveTo, at).board;
    var id := FindRelease(b, reference).value;
    forall t | t in b.tickets
      ensures b'.tickets[t].parent == b.tickets[t].parent && b'.tickets[t].deletedAt == b.tickets[t].deletedAt
      ensures b'.tickets[t].project == b.tickets[t].project
    {
      if Open(cfg, b.tickets[t], id) {
        assert b'.tickets[t] == b.tickets[t].(release := b'.tickets[t].release, updatedAt := at);
      }
    }
    SameLinksKeep(b.tickets, b'.tickets);
    assert ReleaseNames(b'.releases) == ReleaseNames(b.releases);
    assert Refers(b');
  }

  lemma ProjectsInv(b: Board, projects: map<Id, Project>)
    requires Inv(b) && b.projects.Keys <= projects.Keys && Names.Unambiguous(ProjectNames(projects))
    ensures Inv(b.(projects := projects))
  {
  }

  lemma ReleasesInv(b: Board, releases: map<Id, Release>)
    requires Inv(b) && Names.Unambiguous(ReleaseNames(releases))
    requires forall t :: t in b.tickets && b.tickets[t].release.Some? ==> b.tickets[t].release.value in releases
    ensures Inv(b.(releases := releases))
  {
  }

  lemma NewProjectInv(b: Board, id: Id, name: string, at: Time)
    requires Inv(b) && Conv.FreshFor(b, id) && Names.Free(ProjectNames(b.projects), name, None)
    ensures Inv(b.(projects := b.projects[id := Project(name, None, at)]))
  {
    Names.AddName(ProjectNames(b.projects), id, name);
    var next := b.projects[id := Project(name, None, at)];
    assert ProjectNames(next) == ProjectNames(b.projects)[id := name];
    ProjectsInv(b, next);
  }

  lemma NewReleaseInv(b: Board, id: Id, name: string, at: Time)
    requires Inv(b) && Conv.FreshFor(b, id) && Names.Free(ReleaseNames(b.releases), name, None)
    ensures Inv(b.(releases := b.releases[id := Release(name, None, at)]))
  {
    Names.AddName(ReleaseNames(b.releases), id, name);
    var next := b.releases[id := Release(name, None, at)];
    assert ReleaseNames(next) == ReleaseNames(b.releases)[id := name];
    ReleasesInv(b, next);
  }

  /** Replacing one project under its own or a free name. */
  lemma ProjectInv(b: Board, id: Id, p: Project)
    requires Inv(b) && id in b.projects
    requires p.name == b.projects[id].name || Names.Free(ProjectNames(b.projects), p.name, Some(id))
    ensures Inv(b.(projects := b.projects[id := p]))
  {
    var next := b.projects[id := p];
    assert ProjectNames(next) == ProjectNames(b.projects)[id := p.name];
    if p.name == b.projects[id].name {
      assert ProjectNames(next) == ProjectNames(b.projects);
    } else {
      Names.Rename(ProjectNames(b.projects), id, p.name);
    }
    ProjectsInv(b, next);
  }

  lemma ReleaseInv(b: Board, id: Id, r: Release)
    requires Inv(b) && id in b.releases
    requires r.name == b.releases[id].name || Names.Free(ReleaseNames(b.releases), r.name, Some(id))
    ensures Inv(b.(releases := b.releases[id := r]))
  {
    var next := b.releases[id := r];
    assert ReleaseNames(next) == ReleaseNames(b.releases)[id := r.name];
    if r.name == b.releases[id].name {
      assert ReleaseNames(next) == ReleaseNames(b.releases);
    } else {
      Names.Rename(ReleaseNames(b.releases), id, r.name);
    }
    ReleasesInv(b, next);
  }

  lemma DropReleaseInv(b: Board, id: Id)
    requires Inv(b) && forall t :: t in b.tickets ==> b.tickets[t].release != Some(id)
    ensures Inv(b.(releases := b.releases - {id}))
  {
    Names.DropName(ReleaseNames(b.releases), id);
    var next := b.releases - {id};
    assert ReleaseNames(next) == ReleaseNames(b.releases) - {id};
    ReleasesInv(b, next);
  }

  lemma EntityKeeps(b: Board, op: Op, at: Time)
    requires op.CreateProject? || op.RenameProject? || op.ArchiveProject? || op.CreateRelease? || op.RenameRelease?
          || op.ReopenRelease? || op.DeleteRelease?
    requires Inv(b) && Admissible(b, op, at) && WriteEntity(b, op, at).Written?
    ensures Inv(WriteEntity(b, op, at).board)
  {
    match op
    case CreateProject(id, name) => NewProjectInv(b, id, name, at);
    case RenameProject(reference, name) =>
      var id := FindProject(b, reference).value;
      ProjectInv(b, id, b.projects[id].(name := name, updatedAt := at));
    case ArchiveProject(reference, archived) =>
      var id := FindProject(b, reference).value;
      ProjectInv(b, id, b.projects[id].(archivedAt := if archived then Some(at) else None, updatedAt := at));
    case CreateRelease(id, name) => NewReleaseInv(b, id, name, at);
    case RenameRelease(reference, name) =>
      var id := FindRelease(b, reference).value;
      ReleaseInv(b, id, b.releases[id].(name := name, updatedAt := at));
    case ReopenRelease(reference) =>
      var id := FindRelease(b, reference).value;
      ReleaseInv(b, id, b.releases[id].(releasedAt := None, updatedAt := at));
    case DeleteRelease(reference) => DropReleaseInv(b, FindRelease(b, reference).value);
  }

  /** The entity of a conversion exists once it is filed. */
  lemma FiledKeeps(b: Board, input: Conv.Input, target: Conv.Target, id: Id, at: Time)
    requires Inv(b) && Conv.FreshFor(b, id) && Conv.TargetOf(b, input) == Some(target)
    ensures Inv(Conv.WithEntity(b, input.into, target, id, at))
    ensures var entity := if target.Existing? then target.id else id;
      var filed := Conv.WithEntity(b, input.into, target, id, at);
      if input.into.IntoProject? then entity in filed.projects else entity in filed.releases
  {
    if target.New? {
      NameIsFree(b, input, target.name);
      if input.into.IntoProject? { NewProjectInv(b, id, target.name, at); }
      else { NewReleaseInv(b, id, target.name, at); }
    }
  }

  lemma NameIsFree(b: Board, input: Conv.Input, name: string)
    requires Conv.NamesClear(b) && name != "" && Conv.FindTarget(b, input.into, name).None?
    ensures var names := if input.into.IntoProject? then ProjectNames(b.projects) else ReleaseNames(b.releases);
      Names.Free(names, name, None)
  {
    var names := if input.into.IntoProject? then ProjectNames(b.projects) else ReleaseNames(b.releases);
    forall e | e in names ensures Names.Fold(names[e]) != Names.Fold(name) && Names.Fold(e) != Names.Fold(name) {
      Names.FindIs(names, e, name);
    }
  }

  lemma ConvertedInv(filed: Board, input: Conv.Input, here: Option<Id>, entity: Id, at: Time)
    requires Inv(filed)
    requires if input.into.IntoProject? then entity in filed.projects else entity in filed.releases
    ensures Inv(filed.(tickets := Conv.ConvertAll(filed.tickets, input, here, entity, at)))
  {
    var next := Conv.ConvertAll(filed.tickets, input, here, entity, at);
    forall id | id in filed.tickets
      ensures next[id].parent == filed.tickets[id].parent && next[id].deletedAt == filed.tickets[id].deletedAt
      ensures next[id].project == filed.tickets[id].project ||
        (input.into.IntoProject? && next[id].project == Some(entity))
      ensures next[id].release == filed.tickets[id].release ||
        (input.into.IntoRelease? && next[id].release == Some(entity))
    {
      ConvertedOne(filed.tickets[id], input, here, entity, at);
    }
    SameLinksInv(filed, next);
  }

  lemma ConvertedOne(t: Ticket, input: Conv.Input, here: Option<Id>, entity: Id, at: Time)
    ensures var u := Conv.ConvertTicket(t, input, here, entity, at);
      && u.parent == t.parent && u.deletedAt == t.deletedAt
      && (u.project == t.project || (input.into.IntoProject? && u.project == Some(entity)))
      && (u.release == t.release || (input.into.IntoRelease? && u.release == Some(entity)))
  {
  }

  lemma ConvertKeeps(cfg: Config, b: Board, input: Conv.Input, id: Id, at: Time)
    requires Inv(b) && Conv.FreshFor(b, id) && Conv.Convert(cfg, b, input, id, at).Some?
    ensures Inv(Conv.Convert(cfg, b, input, id, at).value)
  {
    var target := Conv.TargetOf(b, input).value;
    var entity := if target.Existing? then target.id else id;
    var filed := Conv.WithEntity(b, input.into, target, id, at);
    FiledKeeps(b, input, target, id, at);
    ConvertedInv(filed, input, Conv.HereOf(target), entity, at);
    var converted := filed.(tickets := Conv.ConvertAll(b.tickets, input, Conv.HereOf(target), entity, at));
    if Conv.Marked(cfg, b.tickets, converted, input, entity, at) != converted {
      ReleaseInv(converted, entity, Conv.Marked(cfg, b.tickets, converted, input, entity, at).releases[entity]);
    }
  }

  /** Every write keeps the invariant. */
  lemma StepKeeps(cfg: Config, b: Board, op: Op, at: Time)
    requires Inv(b) && Admissible(b, op, at)
    ensures Inv(After(cfg, b, op, at))
  {
    if Step(cfg, b, op, at).Written? {
      match op
      case Create(_, _, _, _, _, _, _) => CreateKeeps(cfg, b, op, at);
      case Update(id, patch) => UpdateKeeps(cfg, b, id, patch, at);
      case Shift(id, status, index) => MoveKeeps(cfg, b, id, status, index, at);
      case Delete(id) => DeleteStepKeeps(b, id, at);
      case Restore(id) => RestoreKeeps(b, id, at);
      case Comment(id) => SameLinksInv(b, CommentTicket(b, id, at).board.tickets);
      case ShipRelease(reference, moveTo) => ShipKeeps(cfg, b, reference, moveTo, at);
      case ConvertLabel(input, id) => ConvertKeeps(cfg, b, input, id, at);
      case _ => EntityKeeps(b, op, at);
    }
  }

  // ------------------------------------------------------------ titles and labels

  /** A title that is trimmed and not empty, and labels that are clean. */
  ghost predicate Kept(t: Ticket) {
    t.title != "" && Trimmed(t.title) && Labels.Tidy(t.labels)
  }

  ghost predicate AllKept(tickets: Tickets) {
    forall id :: id in tickets ==> Kept(tickets[id])
  }

  lemma CreateTidy(cfg: Config, b: Board, op: Op, at: Time)
    requires op.Create? && CreateTicket(cfg, b, op, at).Written? && AllKept(b.tickets)
    ensures AllKept(CreateTicket(cfg, b, op, at).board.tickets)
  {
    TrimIs(op.title);
    Labels.CleanTidy(op.labels);
  }

  lemma PatchedKept(t: Ticket, p: Patch)
    requires Kept(t) && (p.title.Some? ==> Trim(p.title.value) != "")
    ensures Kept(Patched(t, p))
  {
    if p.title.Some? { TrimIs(p.title.value); }
    Labels.EditIs(t.labels, p.labels, p.removeLabels, p.addLabels, "");
  }

  lemma EditedKept(b: Board, id: Id, p: Patch, parent: Checked, project: Checked, release: Checked, at: Time)
    requires id in b.tickets && AllKept(b.tickets) && Kept(Patched(b.tickets[id], p))
    ensures AllKept(Edited(b, id, p, parent, project, release, at))
  {
    EditedLinks(b, id, p, parent, project, release, at);
    var next := Edited(b, id, p, parent, project, release, at);
    forall x | x in next && x != id ensures Kept(next[x]) {
      assert next[x] == b.tickets[x] || next[x] == b.tickets[x].(updatedAt := at);
    }
  }

  lemma UpdateTidy(cfg: Config, b: Board, x: Id, p: Patch, at: Time)
    requires UpdateTicket(cfg, b, x, p, at).Written? && AllKept(b.tickets)
    ensures AllKept(UpdateTicket(cfg, b, x, p, at).board.tickets)
  {
    var t := b.tickets[x];
    PatchedKept(t, p);
    EditedKept(b, x, p, ParentRelation(b.tickets, x, p.parent), ProjectRelation(b, p.project, t.project),
               ReleaseRelation(b, p.release, t.release), at);
  }

  lemma MoveTidy(b: Board, x: Id, status: Status, index: Option<nat>, at: Time)
    requires Listed(b) && x in b.tickets && b.tickets[x].Live() && AllKept(b.tickets)
    ensures AllKept(Move(b.tickets, b.rows, x, status, index, at))
  {
    MoveChanges(b.tickets, b.rows, x, status, index, at);
    var next := Move(b.tickets, b.rows, x, status, index, at);
    forall id | id in next ensures Kept(next[id]) {
      assert id != x ==> next[id] == b.tickets[id].(order := next[id].order);
    }
  }

  lemma RestoreTidy(b: Board, x: Id, at: Time)
    requires RestoreTicket(b, x, at).Written? && AllKept(b.tickets)
    ensures AllKept(RestoreTicket(b, x, at).board.tickets)
  {
  }

  lemma ShipTidy(cfg: Config, b: Board, reference: string, moveTo: Destination, at: Time)
    requires Ship(cfg, b, reference, moveTo, at).Written? && AllKept(b.tickets)
    ensures AllKept(Ship(cfg, b, reference, moveTo, at).board.tickets)
  {
    ShipCloses(cfg, b, reference, moveTo, at);
    var b' := Ship(cfg, b, reference, moveTo, at).board;
    forall id | id in b'.tickets ensures Kept(b'.tickets[id]) {
      assert b'.tickets[id] == b.tickets[id] ||
        b'.tickets[id] == b.tickets[id].(release := b'.tickets[id].release, updatedAt := at);
    }
  }

  lemma ConvertedKept(t: Ticket, input: Conv.Input, here: Option<Id>, entity: Id, at: Time)
    requires Kept(t)
    ensures Kept(Conv.ConvertTicket(t, input, here, entity, at))
  {
    Labels.KeepTidy(t.labels, input.tag);
  }

  lemma ConvertTidy(cfg: Config, b: Board, input: Conv.Input, x: Id, at: Time)
    requires Conv.Convert(cfg, b, input, x, at).Some? && AllKept(b.tickets)
    ensures AllKept(Conv.Convert(cfg, b, input, x, at).value.tickets)
  {
    var target := Conv.TargetOf(b, input).value;
    var here, entity := Conv.HereOf(target), if target.Existing? then target.id else x;
    var next := Conv.ConvertAll(b.tickets, input, here, entity, at);
    forall id | id in next ensures Kept(next[id]) {
      assert Kept(b.tickets[id]);
      ConvertedKept(b.tickets[id], input, here, entity, at);
    }
    assert Conv.Convert(cfg, b, input, x, at).value.tickets == next;
  }

  lemma StepTidy(cfg: Config, b: Board, op: Op, at: Time)
    requires Listed(b) && AllKept(b.tickets)
    ensures AllKept(After(cfg, b, op, at).tickets)
  {
    if Step(cfg, b, op, at).Written? {
      match op
      case Create(_, _, _, _, _, _, _) => CreateTidy(cfg, b, op, at);
      case Delete(_) =>
      case Comment(_) =>
      case Update(x, patch) => UpdateTidy(cfg, b, x, patch, at);
      case Shift(x, status, index) => MoveTidy(b, x, status, index, at);
      case Restore(x) => RestoreTidy(b, x, at);
      case ShipRelease(reference, moveTo) => ShipTidy(cfg, b, reference, moveTo, at);
      case ConvertLabel(input, x) => ConvertTidy(cfg, b, input, x, at);
      case _ => EntityStamps(cfg, b, op, at);
    }
  }

  // ------------------------------------------------------------ versions

  /** A write at `at` left the ticket as it was, or stamped it. */
  ghost predicate Stamped(t: Ticket, u: Ticket, at: Time) {
    u == t || u.updatedAt == at
  }

  lemma UpdateStamps(cfg: Config, b: Board, x: Id, p: Patch, at: Time, id: Id)
    requires UpdateTicket(cfg, b, x, p, at).Written? && id in b.tickets
    ensures var b' := UpdateTicket(cfg, b, x, p, at).board;
      id in b'.tickets && Stamped(b.tickets[id], b'.tickets[id], at)
  {
    var t := b.tickets[x];
    EditedLinks(b, x, p, ParentRelation(b.tickets, x, p.parent), ProjectRelation(b, p.project, t.project),
                ReleaseRelation(b, p.release, t.release), at);
  }

  lemma RestoreStamps(b: Board, x: Id, at: Time, id: Id)
    requires RestoreTicket(b, x, at).Written? && id in b.tickets
    ensures var b' := RestoreTicket(b, x, at).board; id in b'.tickets && Stamped(b.tickets[id], b'.tickets[id], at)
  {
  }

  lemma ConvertStamps(cfg: Config, b: Board, input: Conv.Input, x: Id, at: Time, id: Id)
    requires Conv.Convert(cfg, b, input, x, at).Some? && id in b.tickets
    ensures var b' := Conv.Convert(cfg, b, input, x, at).value;
      id in b'.tickets && Stamped(b.tickets[id], b'.tickets[id], at)
  {
  }

  lemma ShipStamps(cfg: Config, b: Board, reference: string, moveTo: Destination, at: Time, id: Id)
    requires Ship(cfg, b, reference, moveTo, at).Written? && id in b.tickets
    ensures var b' := Ship(cfg, b, reference, moveTo, at).board;
      id in b'.tickets && Stamped(b.tickets[id], b'.tickets[id], at)
  {
    ShipCloses(cfg, b, reference, moveTo, at);
  }

  lemma TicketStamps(cfg: Config, b: Board, op: Op, at: Time, id: Id)
    requires op.Create? || op.Delete? || op.Comment?
    requires id in b.tickets && (op.Create? ==> op.id != id)
    ensures var b' := After(cfg, b, op, at); id in b'.tickets && Stamped(b.tickets[id], b'.tickets[id], at)
  {
  }

  lemma EntityStamps(cfg: Config, b: Board, op: Op, at: Time)
    requires op.CreateProject? || op.RenameProject? || op.ArchiveProject? || op.CreateRelease? || op.RenameRelease?
          || op.ReopenRelease? || op.DeleteRelease?
    ensures After(cfg, b, op, at).tickets == b.tickets
  {
  }

  /**
   Each write leaves a ticket as it was or stamps it with a later time, with one exception:
   a move renumbers other tickets of the two columns without stamping them.
   */
  lemma StepStamps(cfg: Config, b: Board, op: Op, at: Time, id: Id)
    requires Listed(b) && Admissible(b, op, at) && id in b.tickets
    ensures var b' := After(cfg, b, op, at);
      && id in b'.tickets
      && (Stamped(b.tickets[id], b'.tickets[id], at)
          || (op.Shift? && op.id != id && b'.tickets[id] == b.tickets[id].(order := b'.tickets[id].order)))
  {
    if Step(cfg, b, op, at).Written? {
      if op.Create? || op.Delete? || op.Comment? {
        TicketStamps(cfg, b, op, at, id);
      } else if op.Update? || op.Restore? {
        EditStamps(cfg, b, op, at, id);
      } else if op.Shift? {
        MoveChanges(b.tickets, b.rows, op.id, op.status, op.index, at);
      } else {
        PlanStamps(cfg, b, op, at, id);
      }
    }
  }

  lemma EditStamps(cfg: Config, b: Board, op: Op, at: Time, id: Id)
    requires (op.Update? || op.Restore?) && Step(cfg, b, op, at).Written? && id in b.tickets
    ensures var b' := After(cfg, b, op, at); id in b'.tickets && Stamped(b.tickets[id], b'.tickets[id], at)
  {
    if op.Update? { UpdateStamps(cfg, b, op.id, op.patch, at, id); } else { RestoreStamps(b, op.id, at, id); }
  }

  lemma PlanStamps(cfg: Config, b: Board, op: Op, at: Time, id: Id)
    requires Step(cfg, b, op, at).Written? && id in b.tickets
    requires !op.Create? && !op.Delete? && !op.Comment? && !op.Update? && !op.Restore? && !op.Shift?
    ensures var b' := After(cfg, b, op, at); id in b'.tickets && Stamped(b.tickets[id], b'.tickets[id], at)
  {
    if op.ShipRelease? {
      ShipStamps(cfg, b, op.reference, op.moveTo, at, id);
    } else if op.ConvertLabel? {
      ConvertStamps(cfg, b, op.input, op.id, at, id);
    } else {
      EntityStamps(cfg, b, op, at);
    }
  }

  /**
   A write changes a ticket without a later time exactly if it is a move of another ticket
   that gives this one, live in the target column or the one left, a new number there.
   */
  lemma UnstampedExactly(cfg: Config, b: Board, op: Op, at: Time, id: Id)
    requires Listed(b) && Admissible(b, op, at) && id in b.tickets
    ensures var b' := After(cfg, b, op, at);
      && id in b'.tickets
      && (b'.tickets[id] != b.tickets[id] && b'.tickets[id].updatedAt <= b.tickets[id].updatedAt <==>
          Step(cfg, b, op, at).Written? && op.Shift? && op.id != id &&
          op.id in b.tickets && Renumbered(b.tickets, b.rows, op.id, op.status, op.index, id))
  {
    StepStamps(cfg, b, op, at, id);
    if op.Shift? && Step(cfg, b, op, at).Written? {
      MoveChanges(b.tickets, b.rows, op.id, op.status, op.index, at);
      if op.id != id { MoveRenumbersExactly(b.tickets, b.rows, op.id, op.status, op.index, at, id); }
    }
  }

  // ------------------------------------------------------------ whole histories

  datatype Call = Call(op: Op, at: Time)

  /** The boards of a run from the empty board, one call after the other. */
  ghost predicate History(cfg: Config, boards: seq<Board>, calls: seq<Call>) {
    && |boards| == |calls| + 1
    && boards[0] == EMPTY
    && forall i :: 0 <= i < |calls| ==> StepAt(cfg, boards, calls, i)
  }

  ghost predicate StepAt(cfg: Config, boards: seq<Board>, calls: seq<Call>, i: nat)
    requires i < |calls| && |boards| == |calls| + 1
  {
    && Admissible(boards[i], calls[i].op, calls[i].at)
    && boards[i + 1] == After(cfg, boards[i], calls[i].op, calls[i].at)
  }

  lemma {:induction false} HistoryKeeps(cfg: Config, boards: seq<Board>, calls: seq<Call>, n: nat)
    requires History(cfg, boards, calls) && n < |boards|
    ensures Inv(boards[n])
  {
    if n == 0 { EmptyInv(); }
    else {
      HistoryKeeps(cfg, boards, calls, n - 1);
      assert StepAt(cfg, boards, calls, n - 1);
      StepKeeps(cfg, boards[n - 1], calls[n - 1].op, calls[n - 1].at);
    }
  }

  /** After any run every ticket has a title, and its labels are trimmed, not blank and none twice in any case. */
  lemma {:induction false} TicketsTidy(cfg: Config, boards: seq<Board>, calls: seq<Call>, n: nat)
    requires History(cfg, boards, calls) && n < |boards|
    ensures AllKept(boards[n].tickets)
  {
    if n > 0 {
      TicketsTidy(cfg, boards, calls, n - 1);
      HistoryKeeps(cfg, boards, calls, n - 1);
      assert StepAt(cfg, boards, calls, n - 1);
      StepTidy(cfg, boards[n - 1], calls[n - 1].op, calls[n - 1].at);
    }
  }

  /**
   After any run: every parent, project and release exists; the parent of a live subtask is
   no subtask; and no ticket, deleted ones included, is its own ancestor.
   */
  lemma ParentsSound(cfg: Config, boards: seq<Board>, calls: seq<Call>, n: nat, id: Id, k: nat)
    requires History(cfg, boards, calls) && n < |boards| && id in boards[n].tickets && k > 0
    ensures var b := boards[n];
      var t := b.tickets[id];
      && (t.parent.Some? ==> t.parent.value in b.tickets)
      && (t.project.Some? ==> t.project.value in b.projects)
      && (t.release.Some? ==> t.release.value in b.releases)
      && (t.Live() && t.parent.Some? ==> b.tickets[t.parent.value].parent.None?)
      && Ancestor(b.tickets, id, k) != Some(id)
  {
    HistoryKeeps(cfg, boards, calls, n);
    NoOwnAncestor(boards[n].tickets, id, k);
  }

  /** `u` is a later state of `t`: as new, and the same but for its number if no newer. */
  ghost predicate Newer(t: Ticket, u: Ticket) {
    t.updatedAt <= u.updatedAt && (t.updatedAt == u.updatedAt ==> u == t.(order := u.order))
  }

  lemma NewerStep(cfg: Config, b: Board, op: Op, at: Time, id: Id)
    requires Inv(b) && Admissible(b, op, at) && id in b.tickets
    ensures id in After(cfg, b, op, at).tickets && Newer(b.tickets[id], After(cfg, b, op, at).tickets[id])
  {
    StepStamps(cfg, b, op, at, id);
  }

  lemma NewerNext(cfg: Config, boards: seq<Board>, calls: seq<Call>, n: nat, id: Id)
    requires History(cfg, boards, calls) && n < |calls| && id in boards[n].tickets
    ensures id in boards[n + 1].tickets && Newer(boards[n].tickets[id], boards[n + 1].tickets[id])
  {
    HistoryKeeps(cfg, boards, calls, n);
    assert StepAt(cfg, boards, calls, n);
    NewerStep(cfg, boards[n], calls[n].op, calls[n].at, id);
  }

  lemma NewerTrans(t: Ticket, u: Ticket, v: Ticket)
    requires Newer(t, u) && Newer(u, v)
    ensures Newer(t, v)
  {
  }

  /**
   `updated_at` as a version: between any two points of a run it never falls, and while it
   stays the same the ticket is the same but for its number in its column.
   */
  lemma {:induction false} VersionsTell(cfg: Config, boards: seq<Board>, calls: seq<Call>, i: nat, j: nat, id: Id)
    requires History(cfg, boards, calls) && i <= j < |boards| && id in boards[i].tickets
    ensures id in boards[j].tickets && Newer(boards[i].tickets[id], boards[j].tickets[id])
    decreases j
  {
    if i < j {
      VersionsTell(cfg, boards, calls, i, j - 1, id);
      NewerNext(cfg, boards, calls, j - 1, id);
      NewerTrans(boards[i].tickets[id], boards[j - 1].tickets[id], boards[j].tickets[id]);
    }
  }

  /**
   The exception is real: two tickets, the second moved first, and the first has a new number
   under its old version.
   */
  lemma MoveRenumbersUnstamped(cfg: Config, b: Board, a: Id, c: Id, at: Time)
    requires b.rows == [a, c] && a != c && a in b.tickets && c in b.tickets
    requires var t, u := b.tickets[a], b.tickets[c];
      t.Live() && u.Live() && t.status == u.status && t.status in cfg.columns && t.order == 1 && u.order == 2
    ensures var b' := After(cfg, b, Shift(c, b.tickets[c].status, Some(0)), at);
      a in b'.tickets && b'.tickets[a] == b.tickets[a].(order := 2)
  {
    SwapRenumbers(b.tickets, a, c, at);
  }

  lemma SwapRenumbers(tickets: Tickets, a: Id, c: Id, at: Time)
    requires a != c && a in tickets && c in tickets
    requires var t, u := tickets[a], tickets[c];
      t.Live() && u.Live() && t.status == u.status && t.order == 1 && u.order == 2
    ensures var r := Move(tickets, [a, c], c, tickets[c].status, Some(0), at);
      a in r && r[a] == tickets[a].(order := 2)
  {
    NumberedShows(tickets, [a, c], tickets[c].status, [a, c]);
    SwapPlaced(a, c);
    SwapRelocates(tickets, a, c, at);
  }

  lemma SwapRelocates(tickets: Tickets, a: Id, c: Id, at: Time)
    requires a != c && a in tickets && c in tickets
    ensures var r := Relocated(tickets, [a, c], c, tickets[c].status, [c, a], at);
      a in r && r[a] == tickets[a].(order := 2)
  {
    RenumberAt(tickets, [c, a], 1);
    RenumberAt(tickets, [c, a], 0);
  }

  lemma SwapPlaced(a: Id, c: Id)
    requires a != c
    ensures Placed([a, c], c, Some(0)) == [c, a]
  {
    assert [a, c][..1] == [a];
    assert Without([a], c) == [a] by { assert [a][..0] == []; }
    assert Without([a, c], c) == [a];
  }

  // ------------------------------------------------------------ chains through deleted tickets

  ghost predicate Reachable(cfg: Config, b: Board) {
    exists boards, calls :: History(cfg, boards, calls) && boards[|calls|] == b
  }

  lemma ReachStart(cfg: Config)
    ensures Reachable(cfg, EMPTY)
  {
    var boards: seq<Board>, calls: seq<Call> := [EMPTY], [];
    assert History(cfg, boards, calls);
  }

  lemma ReachStep(cfg: Config, b: Board, op: Op, at: Time)
    requires Reachable(cfg, b) && Admissible(b, op, at)
    ensures Reachable(cfg, After(cfg, b, op, at))
  {
    var boards, calls :| History(cfg, boards, calls) && boards[|calls|] == b;
    var next := After(cfg, b, op, at);
    var boards', calls' := boards + [next], calls + [Call(op, at)];
    assert History(cfg, boards', calls') by {
      forall i | 0 <= i < |calls'| ensures StepAt(cfg, boards', calls', i) {
        if i < |calls| {
          assert StepAt(cfg, boards, calls, i);
          assert boards'[i] == boards[i] && calls'[i] == calls[i] && boards'[i + 1] == boards[i + 1];
        }
      }
    }
    assert boards'[|calls'|] == next;
  }

  /** Ids of growing length, so that the next one is new. */
  function Nth(n: nat): (r: Id)
    ensures |r| == n
  {
    if n == 0 then "" else Nth(n - 1) + "x"
  }

  /** A chain of `n` hops up to a live ticket `top` without parent and without live children. */
  ghost predicate Tower(b: Board, n: nat) {
    && (forall id :: id in b.tickets ==> |id| <= n && b.tickets[id].updatedAt < 3 * n + 1)
    && Nth(n) in b.tickets && b.tickets[Nth(n)].Live() && b.tickets[Nth(n)].parent.None?
    && !HasLiveChildren(b.tickets, Nth(n))
    && Nth(0) in b.tickets && Ancestor(b.tickets, Nth(0), n) == Some(Nth(n))
  }

  const NOTHING := Patch(None, None, None, [], [], Untouched, Untouched, Untouched)

  ghost function NewTop(cfg: Config, b: Board, n: nat): Board {
    After(cfg, b, Create(Nth(n + 1), "t", None, [], None, None, None), 3 * n + 1)
  }

  ghost function UnderTop(cfg: Config, b: Board, n: nat): Board {
    After(cfg, b, Update(Nth(n), NOTHING.(parent := To(Nth(n + 1)))), 3 * n + 2)
  }

  /** One more hop: a new ticket, the old top below it, the old top deleted. */
  ghost function Raise(cfg: Config, b: Board, n: nat): Board {
    After(cfg, UnderTop(cfg, NewTop(cfg, b, n), n), Delete(Nth(n)), 3 * n + 3)
  }

  lemma {:induction false} AncestorSame(a: Tickets, b: Tickets, id: Id, n: nat)
    requires a.Keys <= b.Keys && forall x :: x in a && a[x].parent.Some? ==> b[x].parent == a[x].parent
    requires Ancestor(a, id, n).Some?
    ensures Ancestor(b, id, n) == Ancestor(a, id, n)
    decreases n
  {
    if n > 0 { AncestorSame(a, b, a[id].parent.value, n - 1); }
  }

  lemma {:induction false} AncestorNext(tickets: Tickets, id: Id, n: nat)
    requires Ancestor(tickets, id, n).Some? && Ancestor(tickets, id, n).value in tickets
    requires tickets[Ancestor(tickets, id, n).value].parent.Some?
    ensures Ancestor(tickets, id, n + 1) == tickets[Ancestor(tickets, id, n).value].parent
    decreases n
  {
    if n > 0 { AncestorNext(tickets, tickets[id].parent.value, n - 1); }
  }

  /** What creating, attaching and deleting do to the tickets of a tower. */
  ghost predicate Raised(a: Tickets, b: Tickets, n: nat) {
    var top, next := Nth(n), Nth(n + 1);
    && top in a && next !in a
    && b.Keys == a.Keys + {next}
    && (forall id :: id in a && id != top ==> b[id] == a[id])
    && !b[top].Live() && b[top].parent == Some(next)
    && b[next].Live() && b[next].parent.None?
    && b[top].updatedAt < 3 * n + 4 && b[next].updatedAt < 3 * n + 4
  }

  lemma NewTopDoes(cfg: Config, b: Board, n: nat)
    requires Tower(b, n)
    ensures var b1 := NewTop(cfg, b, n);
      && Admissible(b, Create(Nth(n + 1), "t", None, [], None, None, None), 3 * n + 1)
      && Nth(n + 1) !in b.tickets && Nth(n + 1) in b1.tickets
      && b1.tickets == b.tickets[Nth(n + 1) := b1.tickets[Nth(n + 1)]]
      && b1.tickets[Nth(n + 1)].Live() && b1.tickets[Nth(n + 1)].parent.None? &&
        b1.tickets[Nth(n + 1)].updatedAt == 3 * n + 1
      && !HasLiveChildren(b1.tickets, Nth(n))
      && Later(b1, 3 * n + 2)
  {
    var b1 := NewTop(cfg, b, n);
    assert b1.tickets == b.tickets[Nth(n + 1) := b1.tickets[Nth(n + 1)]];
  }

  lemma UnderTopDoes(cfg: Config, b: Board, n: nat)
    requires Tower(b, n)
    ensures var b1 := NewTop(cfg, b, n);
      var b2 := UnderTop(cfg, b1, n);
      && Nth(n) in b1.tickets && Nth(n + 1) in b1.tickets
      && b2.tickets == b1.tickets
           [Nth(n) := b1.tickets[Nth(n)].(parent := Some(Nth(n + 1)), updatedAt := 3 * n + 2)]
           [Nth(n + 1) := b1.tickets[Nth(n + 1)].(updatedAt := 3 * n + 2)]
      && Later(b2, 3 * n + 3)
  {
    NewTopDoes(cfg, b, n);
    AttachDoes(cfg, NewTop(cfg, b, n), Nth(n), Nth(n + 1), 3 * n + 2);
  }

  lemma RaiseDoes(cfg: Config, b: Board, n: nat)
    requires Tower(b, n)
    ensures Raised(b.tickets, Raise(cfg, b, n).tickets, n)
  {
    var b2 := UnderTop(cfg, NewTop(cfg, b, n), n);
    NewTopDoes(cfg, b, n);
    UnderTopDoes(cfg, b, n);
    DeleteDoes(cfg, b2, Nth(n), 3 * n + 3);
  }

  lemma DeleteDoes(cfg: Config, b: Board, id: Id, at: Time)
    requires id in b.tickets && b.tickets[id].Live()
    ensures After(cfg, b, Delete(id), at).tickets ==
      b.tickets[id := b.tickets[id].(deletedAt := Some(at), updatedAt := at)]
  {
  }

  lemma AttachDoes(cfg: Config, b: Board, child: Id, p: Id, at: Time)
    requires child in b.tickets && p in b.tickets && child != p
    requires b.tickets[child].Live() && b.tickets[child].parent.None? && !HasLiveChildren(b.tickets, child)
    requires b.tickets[p].Live() && b.tickets[p].parent.None?
    ensures After(cfg, b, Update(child, NOTHING.(parent := To(p))), at).tickets ==
      b.tickets[child := b.tickets[child].(parent := Some(p), updatedAt := at)][p := b.tickets[p].(updatedAt := at)]
  {
    assert CheckParent(b.tickets, Some(child), p).None?;
    var t := b.tickets[child];
    assert Patched(t, NOTHING.(parent := To(p))) == t;
    assert b.tickets[child := t] == b.tickets;
  }

  lemma RaisedTower(a: Board, b: Board, n: nat)
    requires Tower(a, n) && Raised(a.tickets, b.tickets, n)
    requires forall x :: x in a.tickets && a.tickets[x].parent.Some? ==> a.tickets[x].parent.value in a.tickets
    ensures Tower(b, n + 1)
  {
    RaisedChain(a, b, n);
    forall id | id in b.tickets ensures |id| <= n + 1 && b.tickets[id].updatedAt < 3 * (n + 1) + 1 {
      assert id in a.tickets ==> |id| <= n;
    }
    RaisedAlone(a, b, n);
  }

  lemma RaisedChain(a: Board, b: Board, n: nat)
    requires Tower(a, n) && Raised(a.tickets, b.tickets, n)
    ensures Nth(0) in b.tickets && Ancestor(b.tickets, Nth(0), n + 1) == Some(Nth(n + 1))
  {
    AncestorSame(a.tickets, b.tickets, Nth(0), n);
    AncestorNext(b.tickets, Nth(0), n);
  }

  lemma RaisedAlone(a: Board, b: Board, n: nat)
    requires Raised(a.tickets, b.tickets, n)
    requires forall x :: x in a.tickets && a.tickets[x].parent.Some? ==> a.tickets[x].parent.value in a.tickets
    ensures !HasLiveChildren(b.tickets, Nth(n + 1))
  {
    forall c | c in b.tickets && b.tickets[c].Live() ensures b.tickets[c].parent != Some(Nth(n + 1)) {
      assert c in a.tickets ==> b.tickets[c] == a.tickets[c];
    }
  }

  lemma RaiseReachable(cfg: Config, b: Board, n: nat)
    requires Tower(b, n) && Reachable(cfg, b)
    ensures Reachable(cfg, Raise(cfg, b, n))
  {
    NewTopDoes(cfg, b, n);
    ReachStep(cfg, b, Create(Nth(n + 1), "t", None, [], None, None, None), 3 * n + 1);
    UnderTopDoes(cfg, b, n);
    ReachStep(cfg, NewTop(cfg, b, n), Update(Nth(n), NOTHING.(parent := To(Nth(n + 1)))), 3 * n + 2);
    ReachStep(cfg, UnderTop(cfg, NewTop(cfg, b, n), n), Delete(Nth(n)), 3 * n + 3);
  }

  /** Chains through deleted tickets have no bound: boards with a chain of any length are reached. */
  lemma {:induction false} ChainsGrow(cfg: Config, n: nat) returns (b: Board)
    ensures Reachable(cfg, b) && Tower(b, n)
  {
    if n == 0 {
      ReachStart(cfg);
      var op := Create(Nth(0), "t", None, [], None, None, None);
      ReachStep(cfg, EMPTY, op, 0);
      b := After(cfg, EMPTY, op, 0);
    } else {
      var lower := ChainsGrow(cfg, n - 1);
      ReachableInv(cfg, lower);
      RaiseReachable(cfg, lower, n - 1);
      RaiseDoes(cfg, lower, n - 1);
      b := Raise(cfg, lower, n - 1);
      RaisedTower(lower, b, n - 1);
    }
  }

  lemma ReachableInv(cfg: Config, b: Board)
    requires Reachable(cfg, b)
    ensures Inv(b)
  {
    var boards, calls :| History(cfg, boards, calls) && boards[|calls|] == b;
    HistoryKeeps(cfg, boards, calls, |calls|);
  }
}
