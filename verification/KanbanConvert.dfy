/**
 Turning the tickets that carry a label into a project or a release: each falls into one of
 four buckets, and what happens to it depends on the bucket.
 */
module KanbanConvert {
  import opened Options
  import opened KanbanModel
  import opened KanbanPlan
  import opened KanbanLabels
  import Names = KanbanNames

  datatype Into = IntoProject | IntoRelease
  datatype Bucket = Added | AlreadyHere | InOther | Deleted

  datatype Input = Input(
    tag: string, into: Into, reference: Option<string>, name: Option<string>,
    replace: bool, removeLabel: bool, markReleased: bool)

  datatype Target = Existing(id: Id) | New(name: string)

  predicate Carries(t: Ticket, tag: string) {
    exists i :: 0 <= i < |t.labels| && Same(t.labels[i], tag)
  }

  function Relation(t: Ticket, into: Into): Option<Id> {
    if into.IntoProject? then t.project else t.release
  }

  function SetRelation(t: Ticket, into: Into, id: Id): Ticket {
    if into.IntoProject? then t.(project := Some(id)) else t.(release := Some(id))
  }

  /** Where a ticket that carries the label stands; `here` is the entity, when it exists already. */
  function BucketOf(t: Ticket, into: Into, here: Option<Id>): Bucket {
    if !t.Live() then Deleted
    else if Relation(t, into).None? then Added
    else if Relation(t, into) == here then AlreadyHere
    else InOther
  }

  predicate Moves(input: Input, bucket: Bucket) {
    bucket == Added || (bucket == InOther && input.replace)
  }

  predicate EndsHere(input: Input, bucket: Bucket) {
    Moves(input, bucket) || bucket == AlreadyHere
  }

  /** What the conversion makes of one ticket. */
  function ConvertTicket(t: Ticket, input: Input, here: Option<Id>, entity: Id, at: Time): Ticket {
    if !Carries(t, input.tag) then t
    else
      var bucket := BucketOf(t, input.into, here);
      var moved := if Moves(input, bucket) then SetRelation(t, input.into, entity) else t;
      var kept := if input.removeLabel && EndsHere(input, bucket) then Keep(t.labels, input.tag) else t.labels;
      if !Moves(input, bucket) && |kept| == |t.labels| then t
      else moved.(labels := kept, updatedAt := at)
  }

  function ConvertAll(tickets: Tickets, input: Input, here: Option<Id>, entity: Id, at: Time): Tickets {
    map id | id in tickets :: ConvertTicket(tickets[id], input, here, entity, at)
  }

  ghost function FindTarget(b: Board, into: Into, reference: string): Option<Id> {
    if into.IntoProject? then FindProject(b, reference) else FindRelease(b, reference)
  }

  /** The entity asked for; `None` when the call is refused. */
  ghost function TargetOf(b: Board, input: Input): Option<Target> {
    if input.tag == "" then None
    else if input.reference.Some? && input.reference.value != "" then
      var found := FindTarget(b, input.into, input.reference.value);
      if found.Some? && !Archived(b, input.into, found.value) then Some(Existing(found.value)) else None
    else if input.name.Some? && input.name.value != "" then
      var found := FindTarget(b, input.into, input.name.value);
      if found.None? then Some(New(input.name.value))
      else if !Archived(b, input.into, found.value) then Some(Existing(found.value)) else None
    else None
  }

  predicate Archived(b: Board, into: Into, id: Id) {
    into.IntoProject? && id in b.projects && b.projects[id].archivedAt.Some?
  }

  function HereOf(target: Target): Option<Id> {
    if target.Existing? then Some(target.id) else None
  }

  function WithEntity(b: Board, into: Into, target: Target, newId: Id, at: Time): Board {
    if target.Existing? then b
    else if into.IntoProject? then b.(projects := b.projects[newId := Project(target.name, None, at)])
    else b.(releases := b.releases[newId := Release(target.name, None, at)])
  }

  predicate Member(tickets: Tickets, id: Id, release: Id) {
    id in tickets && tickets[id].Live() && tickets[id].release == Some(release)
  }

  /** At least one live ticket of the release is done, and each is done or canceled. */
  predicate AllDone(cfg: Config, tickets: Tickets, rows: seq<Id>, release: Id) {
    && (exists i :: 0 <= i < |rows| && Member(tickets, rows[i], release) && tickets[rows[i]].status == cfg.done)
    && (forall i :: 0 <= i < |rows| && Member(tickets, rows[i], release) ==>
          tickets[rows[i]].status == cfg.done || cfg.Canceled(tickets[rows[i]]))
  }

  /** The latest write, before the conversion, to a ticket that is now in the release. */
  function Finished(before: Tickets, after: Tickets, rows: seq<Id>, release: Id): Option<Time> {
    if rows == [] then None
    else
      var init := Finished(before, after, rows[..|rows| - 1], release);
      var last := rows[|rows| - 1];
      if Member(after, last, release) && last in before && (init.None? || before[last].updatedAt > init.value)
      then Some(before[last].updatedAt) else init
  }

  function Marked(cfg: Config, before: Tickets, b: Board, input: Input, entity: Id, at: Time): Board {
    if input.markReleased && input.into.IntoRelease? && entity in b.releases
       && AllDone(cfg, b.tickets, b.rows, entity) && b.releases[entity].releasedAt.None?
    then b.(releases := b.releases[entity :=
              b.releases[entity].(releasedAt := Finished(before, b.tickets, b.rows, entity), updatedAt := at)])
    else b
  }

  function Apply(cfg: Config, b: Board, input: Input, target: Target, newId: Id, at: Time): Board {
    var entity := if target.Existing? then target.id else newId;
    var filed := WithEntity(b, input.into, target, newId, at);
    var converted := filed.(tickets := ConvertAll(b.tickets, input, HereOf(target), entity, at));
    Marked(cfg, b.tickets, converted, input, entity, at)
  }

  ghost function Convert(cfg: Config, b: Board, input: Input, newId: Id, at: Time): Option<Board> {
    var target := TargetOf(b, input);
    if target.None? then None else Some(Apply(cfg, b, input, target.value, newId, at))
  }

  // ------------------------------------------------------------ the buckets

  datatype Buckets = Buckets(added: seq<Id>, alreadyHere: seq<Id>, inOther: seq<Id>, deleted: seq<Id>) {
    function All(): seq<Id> { added + alreadyHere + inOther + deleted }
  }

  predicate In(tickets: Tickets, input: Input, here: Option<Id>, id: Id, bucket: Bucket) {
    id in tickets && Carries(tickets[id], input.tag) && BucketOf(tickets[id], input.into, here) == bucket
  }

  function CarryingCount(tickets: Tickets, rows: seq<Id>, tag: string): nat {
    if rows == [] then 0
    else
      var last := rows[|rows| - 1];
      CarryingCount(tickets, rows[..|rows| - 1], tag)
      + (if last in tickets && Carries(tickets[last], tag) then 1 else 0)
  }

  /** `ids` are the tickets of one bucket. */
  ghost predicate Fills(tickets: Tickets, rows: seq<Id>, input: Input, here: Option<Id>, bucket: Bucket, ids: seq<Id>) {
    forall id :: id in ids <==> id in rows && In(tickets, input, here, id, bucket)
  }

  /** The buckets hold exactly the tickets that carry the label, each in one of them. */
  ghost predicate Sorts(tickets: Tickets, rows: seq<Id>, input: Input, here: Option<Id>, r: Buckets) {
    && Fills(tickets, rows, input, here, Added, r.added)
    && Fills(tickets, rows, input, here, AlreadyHere, r.alreadyHere)
    && Fills(tickets, rows, input, here, InOther, r.inOther)
    && Fills(tickets, rows, input, here, Deleted, r.deleted)
    && |r.All()| == CarryingCount(tickets, rows, input.tag)
  }

  lemma FillsOne(tickets: Tickets, rows: seq<Id>, i: nat, input: Input, here: Option<Id>, bucket: Bucket, ids: seq<Id>)
    requires i < |rows| && Fills(tickets, rows[..i], input, here, bucket, ids)
    ensures var next := if In(tickets, input, here, rows[i], bucket) then ids + [rows[i]] else ids;
      Fills(tickets, rows[..i + 1], input, here, bucket, next)
  {
    assert rows[..i + 1] == rows[..i] + [rows[i]];
  }

  lemma CountOne(tickets: Tickets, rows: seq<Id>, i: nat, tag: string)
    requires i < |rows|
    ensures CarryingCount(tickets, rows[..i + 1], tag) ==
      CarryingCount(tickets, rows[..i], tag) + (if rows[i] in tickets && Carries(tickets[rows[i]], tag) then 1 else 0)
  {
    assert rows[..i + 1][..i] == rows[..i];
  }

  /** A row put where it belongs. */
  function Sort(tickets: Tickets, input: Input, here: Option<Id>, r: Buckets, id: Id): Buckets {
    if !(id in tickets && Carries(tickets[id], input.tag)) then r
    else
      match BucketOf(tickets[id], input.into, here)
      case Added => r.(added := r.added + [id])
      case AlreadyHere => r.(alreadyHere := r.alreadyHere + [id])
      case InOther => r.(inOther := r.inOther + [id])
      case Deleted => r.(deleted := r.deleted + [id])
  }

  lemma SortsOne(tickets: Tickets, rows: seq<Id>, i: nat, input: Input, here: Option<Id>, r: Buckets)
    requires i < |rows| && Sorts(tickets, rows[..i], input, here, r)
    ensures Sorts(tickets, rows[..i + 1], input, here, Sort(tickets, input, here, r, rows[i]))
  {
    FillsOne(tickets, rows, i, input, here, Added, r.added);
    FillsOne(tickets, rows, i, input, here, AlreadyHere, r.alreadyHere);
    FillsOne(tickets, rows, i, input, here, InOther, r.inOther);
    FillsOne(tickets, rows, i, input, here, Deleted, r.deleted);
    CountOne(tickets, rows, i, input.tag);
  }

  /** The plan of a conversion, which a dry run reports and a real run carries out. */
  method PlanRows(tickets: Tickets, rows: seq<Id>, input: Input, here: Option<Id>) returns (r: Buckets)
    ensures Sorts(tickets, rows, input, here, r)
  {
    r := Buckets([], [], [], []);
    for i := 0 to |rows|
      invariant Sorts(tickets, rows[..i], input, here, r)
    {
      SortsOne(tickets, rows, i, input, here, r);
      r := Sort(tickets, input, here, r, rows[i]);
    }
    assert rows[..|rows|] == rows;
  }

  // ------------------------------------------------------------ what a run does to each bucket

  /**
   The effect of a run, bucket by bucket: the added end up in the entity, the ones in another
   do so if `replace` is set, the deleted and the rest are untouched; a label is dropped
   exactly from tickets that end up there.
   */
  lemma ConvertEffects(t: Ticket, input: Input, here: Option<Id>, entity: Id, at: Time)
    requires Relation(t, input.into) == Some(entity) ==> here == Some(entity)
    requires here.Some? ==> here == Some(entity)
    ensures var t' := ConvertTicket(t, input, here, entity, at);
      var bucket := BucketOf(t, input.into, here);
      && (!Carries(t, input.tag) ==> t' == t)
      && (Carries(t, input.tag) && EndsHere(input, bucket) ==> Relation(t', input.into) == Some(entity))
      && (Carries(t, input.tag) && !EndsHere(input, bucket) ==> t' == t)
      && (Carries(t, input.tag) ==> (Carries(t', input.tag) <==> !(input.removeLabel && EndsHere(input, bucket))))
      && (t' != t ==> t'.updatedAt == at)
      && t'.parent == t.parent && t'.deletedAt == t.deletedAt && t'.status == t.status && t'.order == t.order
  {
    if Carries(t, input.tag) { KeepDrops(t.labels, input.tag); }
  }

  lemma {:induction false} KeepDrops(labels: seq<string>, tag: string)
    requires exists i :: 0 <= i < |labels| && Same(labels[i], tag)
    ensures |Keep(labels, tag)| < |labels|
  {
    var init := labels[..|labels| - 1];
    if !Same(labels[|labels| - 1], tag) {
      var i :| 0 <= i < |labels| && Same(labels[i], tag);
      assert init[i] == labels[i];
      KeepDrops(init, tag);
    }
  }

  /** A ticket a run has dealt with is not changed by the next run, at whatever time. */
  lemma ConvertTwice(t: Ticket, input: Input, here: Option<Id>, entity: Id, at: Time, later: Time)
    requires Relation(t, input.into) == Some(entity) ==> here == Some(entity)
    requires here.Some? ==> here == Some(entity)
    ensures var t' := ConvertTicket(t, input, here, entity, at);
      && ConvertTicket(t', input, Some(entity), entity, later) == t'
      && (Carries(t', input.tag) ==> BucketOf(t', input.into, Some(entity)) != Added)
  {
    var t' := ConvertTicket(t, input, here, entity, at);
    ConvertEffects(t, input, here, entity, at);
    assert !Carries(t, input.tag) ==> t' == t;
  }

  // ------------------------------------------------------------ the whole board

  ghost predicate NamesClear(b: Board) {
    Names.Unambiguous(ProjectNames(b.projects)) && Names.Unambiguous(ReleaseNames(b.releases))
  }

  ghost predicate FreshFor(b: Board, id: Id) {
    Names.FreshId(ProjectNames(b.projects), id) && Names.FreshId(ReleaseNames(b.releases), id)
  }

  /** Only the release dates differ. */
  ghost predicate SameEntities(a: Board, b: Board) {
    ProjectNames(a.projects) == ProjectNames(b.projects) && ReleaseNames(a.releases) == ReleaseNames(b.releases)
  }

  lemma MarkedNames(cfg: Config, before: Tickets, b: Board, input: Input, entity: Id, at: Time)
    ensures SameEntities(Marked(cfg, before, b, input, entity, at), b)
    ensures Marked(cfg, before, b, input, entity, at).projects == b.projects
    ensures Marked(cfg, before, b, input, entity, at).tickets == b.tickets
    ensures Marked(cfg, before, b, input, entity, at).rows == b.rows
  {
    var r := Marked(cfg, before, b, input, entity, at);
    assert r.releases.Keys == b.releases.Keys;
    assert forall id :: id in b.releases ==> r.releases[id].name == b.releases[id].name;
  }

  /** After the first run, the same call finds the same entity, existing and not archived. */
  lemma TargetAgain(cfg: Config, b: Board, input: Input, newId: Id, at: Time)
    requires NamesClear(b) && FreshFor(b, newId) && TargetOf(b, input).Some?
    ensures var target := TargetOf(b, input).value;
      var entity := if target.Existing? then target.id else newId;
      TargetOf(Apply(cfg, b, input, target, newId, at), input) == Some(Existing(entity))
  {
    var target := TargetOf(b, input).value;
    var entity := if target.Existing? then target.id else newId;
    var filed := WithEntity(b, input.into, target, newId, at);
    var next := Apply(cfg, b, input, target, newId, at);
    MarkedNames(cfg, b.tickets, filed.(tickets := next.tickets), input, entity, at);
    assert next.projects == filed.projects;
    assert ReleaseNames(next.releases) == ReleaseNames(filed.releases);
    if target.New? {
      NewFound(b, input.into, target.name, newId, at);
      assert FindTarget(next, input.into, target.name) == FindTarget(filed, input.into, target.name);
    } else {
      assert filed == b;
    }
  }

  lemma NewFound(b: Board, into: Into, name: string, newId: Id, at: Time)
    requires NamesClear(b) && FreshFor(b, newId) && name != "" && FindTarget(b, into, name).None?
    ensures FindTarget(WithEntity(b, into, New(name), newId, at), into, name) == Some(newId)
  {
    var filed := WithEntity(b, into, New(name), newId, at);
    var names := if into.IntoProject? then ProjectNames(b.projects) else ReleaseNames(b.releases);
    var after := if into.IntoProject? then ProjectNames(filed.projects) else ReleaseNames(filed.releases);
    assert after == names[newId := name];
    forall e | e in names ensures Names.Fold(names[e]) != Names.Fold(name) && Names.Fold(e) != Names.Fold(name) {
      Names.FindIs(names, e, name);
    }
    assert Names.Free(names, name, None);
    Names.AddName(names, newId, name);
    Names.FindIs(after, newId, name);
  }

  lemma AllConvertedTwice(b: Board, input: Input, here: Option<Id>, entity: Id, newId: Id, at: Time, later: Time)
    requires Refers(b) && FreshFor(b, newId) && (here == Some(entity) || (here.None? && entity == newId))
    ensures var next := ConvertAll(b.tickets, input, here, entity, at);
      && ConvertAll(next, input, Some(entity), entity, later) == next
      && forall id :: !In(next, input, Some(entity), id, Added)
  {
    var next := ConvertAll(b.tickets, input, here, entity, at);
    forall id | id in b.tickets
      ensures ConvertTicket(next[id], input, Some(entity), entity, later) == next[id]
      ensures Carries(next[id], input.tag) ==> BucketOf(next[id], input.into, Some(entity)) != Added
    {
      RelationKnown(b, input.into, id, newId);
      ConvertTwice(b.tickets[id], input, here, entity, at, later);
    }
    assert ConvertAll(next, input, Some(entity), entity, later) == next;
  }

  /**
   Running a conversion a second time changes nothing at all: no ticket, no project and no
   release, whatever `replace`, `remove_label` and `mark_released_if_done` say. Its plan
   has nothing to add.
   */
  lemma ConvertIdempotent(cfg: Config, b: Board, input: Input, newId: Id, at: Time, laterId: Id, later: Time)
    requires NamesClear(b) && FreshFor(b, newId) && Refers(b) && Convert(cfg, b, input, newId, at).Some?
    ensures var b' := Convert(cfg, b, input, newId, at).value;
      && Convert(cfg, b', input, laterId, later) == Some(b')
      && (forall id :: !In(b'.tickets, input, HereOf(TargetOf(b', input).value), id, Added))
  {
    var target := TargetOf(b, input).value;
    var entity := if target.Existing? then target.id else newId;
    var here := HereOf(target);
    var b' := Apply(cfg, b, input, target, newId, at);
    TargetAgain(cfg, b, input, newId, at);
    MarkedNames(cfg, b.tickets, WithEntity(b, input.into, target, newId, at).(tickets := b'.tickets), input, entity,
      at);
    assert b'.tickets == ConvertAll(b.tickets, input, here, entity, at);
    AllConvertedTwice(b, input, here, entity, newId, at, later);
    MarkTwice(cfg, b, input, target, newId, at, later);
  }

  /** No ticket is in an entity that is still to be created. */
  lemma RelationKnown(b: Board, into: Into, id: Id, newId: Id)
    requires Refers(b) && FreshFor(b, newId) && id in b.tickets
    ensures Relation(b.tickets[id], into) != Some(newId)
  {
    assert newId !in ProjectNames(b.projects) && newId !in ReleaseNames(b.releases);
  }

  lemma MarkTwice(cfg: Config, b: Board, input: Input, target: Target, newId: Id, at: Time, later: Time)
    ensures var entity := if target.Existing? then target.id else newId;
      var b' := Apply(cfg, b, input, target, newId, at);
      Marked(cfg, b'.tickets, b', input, entity, later) == b'
  {
    var entity := if target.Existing? then target.id else newId;
    var tickets := ConvertAll(b.tickets, input, HereOf(target), entity, at);
    var converted := WithEntity(b, input.into, target, newId, at).(tickets := tickets);
    if input.markReleased && input.into.IntoRelease? && entity in converted.releases
       && AllDone(cfg, converted.tickets, converted.rows, entity) {
      var i :| 0 <= i < |b.rows| && Member(converted.tickets, b.rows[i], entity);
      FinishedSome(b.tickets, converted.tickets, b.rows, entity, i);
    }
  }

  lemma {:induction false} FinishedSome(before: Tickets, after: Tickets, rows: seq<Id>, release: Id, i: nat)
    requires i < |rows| && Member(after, rows[i], release) && rows[i] in before
    ensures Finished(before, after, rows, release).Some?
  {
    if i < |rows| - 1 { FinishedSome(before, after, rows[..|rows| - 1], release, i); }
  }

  // ------------------------------------------------------------ what becomes of a ticket and of the release

  /** The bucket a ticket is reported in. */
  lemma BucketExactly(t: Ticket, into: Into, here: Option<Id>)
    ensures var bucket, relation := BucketOf(t, into, here), if into == IntoProject then t.project else t.release;
      && (bucket == Deleted <==> t.deletedAt.Some?)
      && (bucket == Added <==> t.deletedAt.None? && relation.None?)
      && (bucket == AlreadyHere <==> t.deletedAt.None? && relation.Some? && relation == here)
      && (bucket == InOther <==> t.deletedAt.None? && relation.Some? && relation != here)
  {
  }

  /** A ticket that carries the label, in whatever case, and is not deleted. */
  predicate Concerned(t: Ticket, tag: string) {
    t.deletedAt.None? && exists i :: 0 <= i < |t.labels| && Names.Fold(t.labels[i]) == Names.Fold(tag)
  }

  /** It has no project or release yet, or has another one that is to be replaced. */
  predicate Enters(t: Ticket, input: Input, here: Option<Id>) {
    var relation := if input.into == IntoProject then t.project else t.release;
    Concerned(t, input.tag) && (relation.None? || (relation != here && input.replace))
  }

  /** It is there already. */
  predicate Belongs(t: Ticket, input: Input, here: Option<Id>) {
    var relation := if input.into == IntoProject then t.project else t.release;
    Concerned(t, input.tag) && relation.Some? && relation == here
  }

  /**
   A ticket is put into the project or release exactly if it enters it, and loses the label exactly if
   that is asked for and it is there in the end; it is stamped exactly if something changed.
   */
  lemma ConvertedExactly(t: Ticket, input: Input, here: Option<Id>, entity: Id, at: Time)
    ensures var u := ConvertTicket(t, input, here, entity, at);
      && u == t.(project := u.project, release := u.release, labels := u.labels, updatedAt := u.updatedAt)
      && u.project == (if Enters(t, input, here) && input.into == IntoProject then Some(entity) else t.project)
      && u.release == (if Enters(t, input, here) && input.into == IntoRelease then Some(entity) else t.release)
      && (if input.removeLabel && (Enters(t, input, here) || Belongs(t, input, here))
          then forall l :: l in u.labels <==> l in t.labels && Names.Fold(l) != Names.Fold(input.tag)
          else u.labels == t.labels)
      && u.updatedAt == (if Enters(t, input, here) || u.labels != t.labels then at else t.updatedAt)
  {
    KeepIs(t.labels, input.tag);
    if Concerned(t, input.tag) {
      var i :| 0 <= i < |t.labels| && Names.Fold(t.labels[i]) == Names.Fold(input.tag);
      assert Same(t.labels[i], input.tag);
      if input.removeLabel {
        assert t.labels[i] in t.labels && t.labels[i] !in Keep(t.labels, input.tag);
      }
    }
  }

  /** A live ticket of the release. */
  predicate Within(tickets: Tickets, id: Id, release: Id) {
    id in tickets && tickets[id].deletedAt.None? && tickets[id].release == Some(release)
  }

  /** The time found is the latest at which a ticket of the release was written before. */
  lemma {:induction false} FinishedExactly(before: Tickets, after: Tickets, rows: seq<Id>, release: Id)
    ensures var m := Finished(before, after, rows, release);
      && (m.Some? <==> exists i :: 0 <= i < |rows| && Within(after, rows[i], release) && rows[i] in before)
      && (m.Some? ==>
            && (exists i :: 0 <= i < |rows| && Within(after, rows[i], release) && rows[i] in before
                  && before[rows[i]].updatedAt == m.value)
            && forall i :: 0 <= i < |rows| && Within(after, rows[i], release) && rows[i] in before ==>
                 before[rows[i]].updatedAt <= m.value)
  {
    if rows != [] {
      var init, last := rows[..|rows| - 1], rows[|rows| - 1];
      FinishedExactly(before, after, init, release);
      if i :| 0 <= i < |init| && Within(after, init[i], release) && init[i] in before {
        assert rows[i] == init[i];
      }
      var m := Finished(before, after, init, release);
      if m.Some? {
        var i :| 0 <= i < |init| && Within(after, init[i], release) && init[i] in before
          && before[init[i]].updatedAt == m.value;
        assert rows[i] == init[i];
      }
      forall i | 0 <= i < |rows| - 1 ensures rows[i] == init[i] { }
    }
  }

  /** A live ticket of the release that is done; one that is neither done nor canceled. */
  predicate DoneIn(cfg: Config, tickets: Tickets, id: Id, release: Id) {
    Within(tickets, id, release) && tickets[id].status == cfg.done
  }

  predicate UndoneIn(cfg: Config, tickets: Tickets, id: Id, release: Id) {
    Within(tickets, id, release) && tickets[id].status != cfg.done && cfg.canceled != Some(tickets[id].status)
  }

  /**
   The release is marked exactly if that is asked for, it is not released, one of its live tickets is
   done and none is still to be done; nothing else of the board changes with it.
   */
  lemma MarkedExactly(cfg: Config, before: Tickets, b: Board, input: Input, entity: Id, at: Time)
    requires Listed(b) && entity in b.releases
    ensures var b' := Marked(cfg, before, b, input, entity, at);
      var marks := && input.markReleased && input.into == IntoRelease && b.releases[entity].releasedAt.None?
        && (exists t :: DoneIn(cfg, b.tickets, t, entity)) && !(exists t :: UndoneIn(cfg, b.tickets, t, entity));
      && b' == b.(releases := b'.releases) && b'.releases.Keys == b.releases.Keys
      && (forall r :: r in b.releases && (r != entity || !marks) ==> b'.releases[r] == b.releases[r])
      && (marks ==> b'.releases[entity] == b.releases[entity].(
            releasedAt := Finished(before, b.tickets, b.rows, entity), updatedAt := at))
  {
    AllDoneExactly(cfg, b, entity);
  }

  lemma AllDoneExactly(cfg: Config, b: Board, entity: Id)
    requires Listed(b)
    ensures AllDone(cfg, b.tickets, b.rows, entity) <==>
      (exists t :: DoneIn(cfg, b.tickets, t, entity)) && !(exists t :: UndoneIn(cfg, b.tickets, t, entity))
  {
    if t :| DoneIn(cfg, b.tickets, t, entity) {
      assert t in b.rows;
      var i :| 0 <= i < |b.rows| && b.rows[i] == t;
      assert Member(b.tickets, b.rows[i], entity);
    }
    if t :| UndoneIn(cfg, b.tickets, t, entity) {
      assert t in b.rows;
      var i :| 0 <= i < |b.rows| && b.rows[i] == t;
      assert Member(b.tickets, b.rows[i], entity);
    }
    if AllDone(cfg, b.tickets, b.rows, entity) {
      var i :| 0 <= i < |b.rows| && Member(b.tickets, b.rows[i], entity) && b.tickets[b.rows[i]].status == cfg.done;
      assert DoneIn(cfg, b.tickets, b.rows[i], entity);
    } else if !(exists t :: UndoneIn(cfg, b.tickets, t, entity)) {
      forall i | 0 <= i < |b.rows| && Member(b.tickets, b.rows[i], entity)
        ensures b.tickets[b.rows[i]].status == cfg.done || cfg.Canceled(b.tickets[b.rows[i]])
      {
        assert !UndoneIn(cfg, b.tickets, b.rows[i], entity);
      }
    }
  }
}
