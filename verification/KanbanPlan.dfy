/**
 Shipping a release: what it refuses, which open tickets it moves on, and what it leaves behind.
 */
module KanbanPlan {
  import opened Options
  import opened KanbanModel
  import Names = KanbanNames

  function ProjectNames(projects: map<Id, Project>): Names.Names {
    map id | id in projects :: projects[id].name
  }

  function ReleaseNames(releases: map<Id, Release>): Names.Names {
    map id | id in releases :: releases[id].name
  }

  ghost function FindProject(b: Board, reference: string): (r: Option<Id>)
    ensures r.Some? ==> r.value in b.projects
  {
    Names.Find(ProjectNames(b.projects), reference)
  }

  ghost function FindRelease(b: Board, reference: string): (r: Option<Id>)
    ensures r.Some? ==> r.value in b.releases
  {
    Names.Find(ReleaseNames(b.releases), reference)
  }

  // ------------------------------------------------------------ shipping

  /** A live ticket of the release that is neither done nor canceled. */
  predicate Open(cfg: Config, t: Ticket, release: Id) {
    t.Live() && t.release == Some(release) && t.status != cfg.done && !cfg.Canceled(t)
  }

  predicate AnyOpen(cfg: Config, tickets: Tickets, release: Id) {
    exists id :: id in tickets && Open(cfg, tickets[id], release)
  }

  function Moved(cfg: Config, tickets: Tickets, release: Id, target: Option<Id>, at: Time): Tickets {
    map id | id in tickets ::
      if Open(cfg, tickets[id], release) then tickets[id].(release := target, updatedAt := at) else tickets[id]
  }

  function OpenCount(cfg: Config, tickets: Tickets, rows: seq<Id>, release: Id): nat {
    if rows == [] then 0
    else
      var last := rows[|rows| - 1];
      OpenCount(cfg, tickets, rows[..|rows| - 1], release)
      + (if last in tickets && Open(cfg, tickets[last], release) then 1 else 0)
  }

  /** Where the open tickets go: outer `None`, the caller did not say; inner `None`, out of any release. */
  type Destination = Option<Option<string>>

  /** Ship a release; `moveTo` matters only when there are open tickets. */
  ghost function Ship(cfg: Config, b: Board, reference: string, moveTo: Destination, at: Time): Outcome {
    var found := FindRelease(b, reference);
    if found.None? then Refused(UnknownRelease)
    else
      var id := found.value;
      var shipped := b.releases[id := b.releases[id].(releasedAt := Some(at), updatedAt := at)];
      if b.releases[id].releasedAt.Some? then Refused(AlreadyReleased)
      else if !AnyOpen(cfg, b.tickets, id) then Written(b.(releases := shipped))
      else if moveTo.None? then Refused(OpenTickets(OpenCount(cfg, b.tickets, b.rows, id)))
      else if moveTo.value.None? then
        Written(b.(tickets := Moved(cfg, b.tickets, id, None, at), releases := shipped))
      else
        var target := FindRelease(b, moveTo.value.value);
        if target.None? then Refused(UnknownRelease)
        else if target.value == id then Refused(IntoItself)
        else if b.releases[target.value].releasedAt.Some? then Refused(TargetReleased)
        else Written(b.(tickets := Moved(cfg, b.tickets, id, target, at), releases := shipped))
  }

  /**
   A successful ship closes the release with no open ticket left in it. Each ticket that was
   open sits in the chosen release, which exists, is another one and was not released, or in
   none; it is otherwise unchanged but for its stamp. No other ticket changes, none is
   added or lost, and no other release changes.
   */
  lemma ShipCloses(cfg: Config, b: Board, reference: string, moveTo: Destination, at: Time)
    requires Ship(cfg, b, reference, moveTo, at).Written?
    ensures var b' := Ship(cfg, b, reference, moveTo, at).board;
      var id := FindRelease(b, reference).value;
      && FindRelease(b, reference).Some? && b.releases[id].releasedAt.None?
      && b'.releases == b.releases[id := b.releases[id].(releasedAt := Some(at), updatedAt := at)]
      && b'.tickets.Keys == b.tickets.Keys && b'.rows == b.rows && b'.projects == b.projects
      && !AnyOpen(cfg, b'.tickets, id)
      && (forall t :: t in b.tickets && !Open(cfg, b.tickets[t], id) ==> b'.tickets[t] == b.tickets[t])
      && (forall t :: t in b.tickets && Open(cfg, b.tickets[t], id) ==>
            && moveTo.Some?
            && b'.tickets[t] == b.tickets[t].(release := b'.tickets[t].release, updatedAt := at)
            && b'.tickets[t].release == (if moveTo.value.None? then None else FindRelease(b, moveTo.value.value)))
      && (forall t :: t in b.tickets && Open(cfg, b.tickets[t], id) && b'.tickets[t].release.Some? ==>
            var to := b'.tickets[t].release.value;
            to != id && to in b.releases && b.releases[to].releasedAt.None? && b'.releases[to] == b.releases[to])
  {
    var b' := Ship(cfg, b, reference, moveTo, at).board;
    var id := FindRelease(b, reference).value;
    if AnyOpen(cfg, b.tickets, id) {
      var to := if moveTo.value.None? then None else FindRelease(b, moveTo.value.value);
      assert b'.tickets == Moved(cfg, b.tickets, id, to, at);
      assert to != Some(id);
    }
  }

  /** Exactly when a ship is refused, and with which answer. */
  lemma ShipRefusals(cfg: Config, b: Board, reference: string, moveTo: Destination, at: Time)
    ensures var o := Ship(cfg, b, reference, moveTo, at);
      var found := FindRelease(b, reference);
      var open := found.Some? && AnyOpen(cfg, b.tickets, found.value);
      && (o.Written? <==>
            && found.Some? && b.releases[found.value].releasedAt.None?
            && (open ==> moveTo.Some?)
            && (open && moveTo.value.Some? ==>
                  var to := FindRelease(b, moveTo.value.value);
                  to.Some? && to != found && b.releases[to.value].releasedAt.None?))
      && (o.Refused? && o.why.OpenTickets? <==>
            found.Some? && b.releases[found.value].releasedAt.None? && open && moveTo.None?)
  {
  }

  /** A ship moves exactly the tickets that are live, in the release, not done and not canceled. */
  lemma ShipMovesExactly(cfg: Config, b: Board, reference: string, moveTo: Destination, at: Time, t: Id)
    requires Ship(cfg, b, reference, moveTo, at).Written? && t in b.tickets
    ensures var was, b' := b.tickets[t], Ship(cfg, b, reference, moveTo, at).board;
      t in b'.tickets &&
      if was.deletedAt.None? && was.release.Some? && was.release == FindRelease(b, reference) &&
         was.status != cfg.done && cfg.canceled != Some(was.status)
      then b'.tickets[t].release != was.release && b'.tickets[t].updatedAt == at
      else b'.tickets[t] == was
  {
    ShipCloses(cfg, b, reference, moveTo, at);
  }

  /** The scan for open tickets. */
  method OpenTicketsOf(cfg: Config, tickets: Tickets, rows: seq<Id>, release: Id) returns (open: seq<Id>)
    requires Distinct(rows)
    ensures forall id :: id in open <==> id in rows && id in tickets && Open(cfg, tickets[id], release)
    ensures Distinct(open) && |open| == OpenCount(cfg, tickets, rows, release)
  {
    open := [];
    for i := 0 to |rows|
      invariant forall id :: id in open <==> id in rows[..i] && id in tickets && Open(cfg, tickets[id], release)
      invariant Distinct(open) && |open| == OpenCount(cfg, tickets, rows[..i], release)
    {
      assert rows[..i + 1][..i] == rows[..i];
      assert rows[..i + 1] == rows[..i] + [rows[i]];
      if rows[i] in tickets && Open(cfg, tickets[rows[i]], release) {
        assert rows[i] !in rows[..i];
        open := open + [rows[i]];
      }
    }
    assert rows[..|rows|] == rows;
  }

  /** The loop that sends the open tickets on. */
  method MoveOpen(tickets: Tickets, open: seq<Id>, target: Option<Id>, at: Time) returns (r: Tickets)
    requires Distinct(open) && forall i :: 0 <= i < |open| ==> open[i] in tickets
    ensures r.Keys == tickets.Keys
    ensures forall id :: id in tickets ==>
      r[id] == if id in open then tickets[id].(release := target, updatedAt := at) else tickets[id]
  {
    r := tickets;
    for i := 0 to |open|
      invariant r.Keys == tickets.Keys
      invariant forall id :: id in tickets ==>
        r[id] == if id in open[..i] then tickets[id].(release := target, updatedAt := at) else tickets[id]
    {
      assert open[..i + 1] == open[..i] + [open[i]];
      assert open[i] !in open[..i];
      r := r[open[i] := r[open[i]].(release := target, updatedAt := at)];
    }
    assert open[..|open|] == open;
  }
}
