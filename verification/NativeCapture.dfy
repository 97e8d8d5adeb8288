/**
 Native capture of row changes: observers of a natively captured database hold the capture
 of their table, counted per table and tied to the connection pool it was installed through.
 A configuration reload moves, takes and releases holds, and rejects exactly the observers
 the new configuration cannot serve.
 */
module NativeCapture {
  import opened Options
  import opened RowObservers

  type PoolId = nat
  type Table = (string, string)

  datatype Mode = Statements | Native

  /** Capture modes and pools by database; `broken` are the tables whose install fails. */
  datatype Config = Config(modes: map<string, Mode>, pools: map<string, PoolId>, broken: set<Table>) {
    predicate IsNative(db: string) { db in modes && modes[db] == Native }
    function Pool(db: string): Option<PoolId> { if db in pools then Some(pools[db]) else None }
  }

  datatype Admitted = Admitted(args: Args, holds: Option<Table>)
  datatype Holding = Holding(holders: nat, pool: Option<PoolId>)
  type Observers = map<Id, Admitted>
  type Installed = map<Table, Holding>

  datatype State = State(observers: Observers, installed: Installed)

  function Holders(observers: Observers, t: Table): set<Id> {
    set id | id in observers && observers[id].holds == Some(t)
  }

  // ------------------------------------------------------------ holds

  function Take(installed: Installed, t: Table, pool: Option<PoolId>): Installed {
    installed[t := Holding((if t in installed then installed[t].holders else 0) + 1, pool)]
  }

  function Release(installed: Installed, t: Option<Table>): Installed {
    if t.None? || t.value !in installed then installed
    else if installed[t.value].holders <= 1 then installed - {t.value}
    else installed[t.value := installed[t.value].(holders := installed[t.value].holders - 1)]
  }

  function HoldOf(observers: Observers, id: Id): Option<Table> {
    if id in observers then observers[id].holds else None
  }

  /** Put an observer's new record in place (none: forget it); what it held before is released. */
  function Replace(s: State, id: Id, next: Option<Admitted>, pool: Option<PoolId>): State {
    var taken := if next.Some? && next.value.holds.Some? then Take(s.installed, next.value.holds.value, pool)
      else s.installed;
    State(if next.Some? then s.observers[id := next.value] else s.observers - {id},
          Release(taken, HoldOf(s.observers, id)))
  }

  /** The count of a table is the number of observers that hold it. */
  ghost predicate CountedAt(s: State, t: Table) {
    && (t in s.installed <==> Holders(s.observers, t) != {})
    && (t in s.installed ==> s.installed[t].holders == |Holders(s.observers, t)|)
  }

  /** Counts are right, and each observer holds nothing or its own table. */
  ghost predicate Inv(s: State) {
    && (forall t :: CountedAt(s, t))
    && (forall id :: id in s.observers && s.observers[id].holds.Some? ==>
          s.observers[id].args.table.Some?
          && s.observers[id].holds.value == (s.observers[id].args.db, s.observers[id].args.table.value))
  }

  lemma HoldersAfter(observers: Observers, id: Id, next: Option<Admitted>, t: Table)
    ensures var after := if next.Some? then observers[id := next.value] else observers - {id};
      Holders(after, t) ==
        if next.Some? && next.value.holds == Some(t) then Holders(observers, t) + {id} else Holders(observers, t) - {id}
  {
  }

  function Count(installed: Installed, t: Table): nat {
    if t in installed then installed[t].holders else 0
  }

  ghost predicate Positive(installed: Installed, t: Table) {
    t in installed ==> installed[t].holders > 0
  }

  lemma TakeCounts(installed: Installed, u: Table, pool: Option<PoolId>, t: Table)
    requires Positive(installed, t)
    ensures Positive(Take(installed, u, pool), t)
    ensures Count(Take(installed, u, pool), t) == Count(installed, t) + (if t == u then 1 else 0)
  {
  }

  lemma ReleaseCounts(installed: Installed, u: Option<Table>, t: Table)
    requires Positive(installed, t) && (u == Some(t) ==> Count(installed, t) > 0)
    ensures Positive(Release(installed, u), t)
    ensures Count(Release(installed, u), t) == Count(installed, t) - (if u == Some(t) then 1 else 0)
  {
  }

  lemma CountedMeans(s: State, t: Table)
    ensures CountedAt(s, t) <==> Positive(s.installed, t) && Count(s.installed, t) == |Holders(s.observers, t)|
  {
    assert |Holders(s.observers, t)| == 0 <==> Holders(s.observers, t) == {};
  }

  lemma ReplaceCounts(s: State, id: Id, next: Option<Admitted>, pool: Option<PoolId>, t: Table)
    requires CountedAt(s, t)
    ensures CountedAt(Replace(s, id, next, pool), t)
  {
    CountedMeans(s, t);
    CountedMeans(Replace(s, id, next, pool), t);
    HoldersCount(s.observers, id, next, t);
    var taken := s.installed;
    if next.Some? && next.value.holds.Some? {
      TakeCounts(s.installed, next.value.holds.value, pool, t);
      taken := Take(s.installed, next.value.holds.value, pool);
    }
    ReleaseCounts(taken, HoldOf(s.observers, id), t);
  }

  lemma HoldersCount(observers: Observers, id: Id, next: Option<Admitted>, t: Table)
    ensures var after := if next.Some? then observers[id := next.value] else observers - {id};
      |Holders(after, t)| == |Holders(observers, t)|
        + (if next.Some? && next.value.holds == Some(t) then 1 else 0)
        - (if HoldOf(observers, id) == Some(t) then 1 else 0)
    ensures HoldOf(observers, id) == Some(t) ==> |Holders(observers, t)| > 0
  {
    HoldersAfter(observers, id, next, t);
    var before := Holders(observers, t);
    assert id in before <==> HoldOf(observers, id) == Some(t);
    if id in before {
      assert |before - {id}| == |before| - 1;
      assert before + {id} == before;
    } else {
      assert before - {id} == before;
    }
  }

  ghost predicate OwnTable(a: Admitted) {
    a.holds.Some? ==> a.args.table.Some? && a.holds.value == (a.args.db, a.args.table.value)
  }

  lemma ReplaceKeeps(s: State, id: Id, next: Option<Admitted>, pool: Option<PoolId>)
    requires Inv(s) && (next.Some? ==> OwnTable(next.value))
    ensures Inv(Replace(s, id, next, pool))
  {
    forall t ensures CountedAt(Replace(s, id, next, pool), t) {
      ReplaceCounts(s, id, next, pool, t);
    }
  }

  /** Pools after a replacement: the table newly held is at `pool`, the others as before. */
  lemma ReplacePools(s: State, id: Id, next: Option<Admitted>, pool: Option<PoolId>, t: Table)
    ensures var r := Replace(s, id, next, pool);
      t in r.installed ==>
        if next.Some? && next.value.holds == Some(t) then r.installed[t].pool == pool
        else t in s.installed && r.installed[t].pool == s.installed[t].pool
  {
  }

  // ------------------------------------------------------------ admission

  datatype Code = UnknownDb | RequiresTable | InstallFailed
  datatype Admission = Holds(table: Option<Table>) | Rejected(code: Code)

  /** Capture of the table is in place through the database's current pool. */
  predicate InPlace(cfg: Config, installed: Installed, t: Table) {
    cfg.Pool(t.0).Some? && t in installed && installed[t].pool == cfg.Pool(t.0)
  }

  /** What a new observer gets: nothing to hold, its table, or a rejection. */
  function Admit(cfg: Config, installed: Installed, args: Args): Admission {
    if args.db !in cfg.modes then Rejected(UnknownDb)
    else if cfg.modes[args.db] != Native then Holds(None)
    else if args.table.None? then Rejected(RequiresTable)
    else
      var t := (args.db, args.table.value);
      if InPlace(cfg, installed, t) || (cfg.Pool(args.db).Some? && t !in cfg.broken) then Holds(Some(t))
      else Rejected(InstallFailed)
  }

  // ------------------------------------------------------------ a reload

  /** Why the new configuration cannot serve an observer. */
  function Refusal(cfg: Config, installed: Installed, args: Args): Option<Code> {
    if args.db !in cfg.modes then Some(UnknownDb)
    else if cfg.modes[args.db] != Native then None
    else if args.table.None? then Some(RequiresTable)
    else
      var t := (args.db, args.table.value);
      if cfg.Pool(args.db).Some? && !InPlace(cfg, installed, t) && t in cfg.broken then Some(InstallFailed) else None
  }

  /**
   A new observer is turned away exactly if its database is not configured, if it is captured
   natively and the observer names no table, or if capture is neither there through the
   database's pool nor can be installed. It holds its table exactly if that is captured natively.
   */
  lemma AdmitExactly(cfg: Config, installed: Installed, args: Args)
    ensures var a := Admit(cfg, installed, args);
      var native := args.db in cfg.modes && cfg.modes[args.db] == Native;
      && (a == Rejected(UnknownDb) <==> args.db !in cfg.modes)
      && (a == Rejected(RequiresTable) <==> native && args.table.None?)
      && (a == Rejected(InstallFailed) <==>
            native && args.table.Some? && CannotCapture(cfg, installed, (args.db, args.table.value)))
      && (a.Holds? ==> a.table == if native then Some((args.db, args.table.value)) else None)
  {
  }

  predicate CannotCapture(cfg: Config, installed: Installed, t: Table) {
    || t.0 !in cfg.pools
    || (t in cfg.broken && (t !in installed || installed[t].pool != Some(cfg.pools[t.0])))
  }

  /** A reload refuses what an addition would be refused, except that a database without a pool is waited for. */
  lemma RefusalExactly(cfg: Config, installed: Installed, args: Args, code: Code)
    ensures Refusal(cfg, installed, args) == Some(code) <==>
      Admit(cfg, installed, args) == Rejected(code) && (code == InstallFailed ==> args.db in cfg.pools)
  {
  }

  /** Served as the configuration says. */
  ghost predicate Served(cfg: Config, s: State, a: Admitted) {
    && a.args.db in cfg.modes
    && (cfg.modes[a.args.db] == Statements ==> a.holds.None?)
    && (cfg.modes[a.args.db] == Native ==>
          && a.args.table.Some?
          && (a.holds.None? ==> cfg.Pool(a.args.db).None?)
          && (a.holds.Some? ==> a.holds.value in s.installed && s.installed[a.holds.value].pool == cfg.Pool(a.args.db)))
  }

  predicate Stale(cfg: Config, installed: Installed, t: Table) {
    t in installed && cfg.IsNative(t.0) && cfg.Pool(t.0) != installed[t].pool
  }

  /** Observers forgotten one by one; pools stay as they are. */
  ghost predicate Forgotten(s0: State, s: State, gone: set<Id>) {
    && Inv(s)
    && s.observers == s0.observers - gone
    && forall t :: t in s.installed ==> t in s0.installed && s.installed[t].pool == s0.installed[t].pool
  }

  method ForgetAll(s0: State, ids: set<Id>) returns (s: State)
    requires Inv(s0)
    ensures Forgotten(s0, s, ids)
  {
    s := s0;
    var todo := ids;
    while todo != {}
      invariant todo <= ids && Forgotten(s0, s, ids - todo)
    {
      var id :| id in todo;
      ReplaceKeeps(s, id, None, None);
      forall t ensures t in Replace(s, id, None, None).installed ==>
        t in s0.installed && Replace(s, id, None, None).installed[t].pool == s0.installed[t].pool
      {
        ReplacePools(s, id, None, None, t);
      }
      assert ids - (todo - {id}) == (ids - todo) + {id};
      assert s0.observers - (ids - todo) - {id} == s0.observers - ((ids - todo) + {id});
      s := Replace(s, id, None, None);
      todo := todo - {id};
    }
    assert ids - todo == ids;
  }

  /** The observers a failed move rejects. */
  ghost predicate Stranded(cfg: Config, s0: State, a: Admitted, done: set<Table>) {
    && a.holds.Some? && a.holds.value in done && Stale(cfg, s0.installed, a.holds.value)
    && cfg.Pool(a.holds.value.0).Some? && a.holds.value in cfg.broken
  }

  /** After the tables in `done`: each is at its database's pool, or all its observers are gone. */
  ghost predicate Moving(cfg: Config, s0: State, s: State, done: set<Table>) {
    && Inv(s)
    && (forall id :: id in s.observers <==> id in s0.observers && !Stranded(cfg, s0, s0.observers[id], done))
    && (forall id :: id in s.observers ==> s.observers[id] == s0.observers[id])
    && (forall t :: t in s.installed ==>
          t in s0.installed
          && s.installed[t].pool == if t in done && Stale(cfg, s0.installed, t) then cfg.Pool(t.0)
            else s0.installed[t].pool)
  }

  lemma SetPool(s: State, t: Table, pool: Option<PoolId>)
    requires Inv(s) && t in s.installed
    ensures Inv(s.(installed := s.installed[t := s.installed[t].(pool := pool)]))
  {
    var r := s.(installed := s.installed[t := s.installed[t].(pool := pool)]);
    forall u ensures CountedAt(r, u) { assert CountedAt(s, u); }
  }

  lemma MovedOne(cfg: Config, s0: State, s: State, done: set<Table>, t: Table)
    requires Moving(cfg, s0, s, done) && Stale(cfg, s0.installed, t) && t in s.installed && t !in done
    requires cfg.Pool(t.0).None? || t !in cfg.broken
    ensures Moving(cfg, s0, s.(installed := s.installed[t := s.installed[t].(pool := cfg.Pool(t.0))]), done + {t})
  {
    SetPool(s, t, cfg.Pool(t.0));
  }

  lemma StrandedOne(cfg: Config, s0: State, s: State, s': State, done: set<Table>, t: Table)
    requires Moving(cfg, s0, s, done) && Stale(cfg, s0.installed, t) && t !in done
    requires cfg.Pool(t.0).Some? && t in cfg.broken
    requires Forgotten(s, s', Holders(s.observers, t))
    ensures Moving(cfg, s0, s', done + {t})
  {
    forall id ensures id in s'.observers <==> id in s0.observers && !Stranded(cfg, s0, s0.observers[id], done + {t}) {
      assert id in s.observers <==> id in s0.observers && !Stranded(cfg, s0, s0.observers[id], done);
    }
    assert t !in s'.installed by {
      assert CountedAt(s', t);
      assert Holders(s'.observers, t) == {};
    }
  }

  /** First half of a reload: capture installed through another pool than its database's. */
  method MoveStale(cfg: Config, s0: State) returns (s: State)
    requires Inv(s0)
    ensures Moving(cfg, s0, s, s0.installed.Keys)
  {
    s := s0;
    var todo := s0.installed.Keys;
    while todo != {}
      invariant todo <= s0.installed.Keys
      invariant Moving(cfg, s0, s, s0.installed.Keys - todo)
      invariant forall t :: t in todo ==> t in s.installed && s.installed[t] == s0.installed[t]
    {
      var t :| t in todo;
      var done := s0.installed.Keys - todo;
      ghost var before := s;
      if Stale(cfg, s0.installed, t) {
        var pool := cfg.Pool(t.0);
        if pool.None? || t !in cfg.broken {
          MovedOne(cfg, s0, s, done, t);
          s := s.(installed := s.installed[t := s.installed[t].(pool := pool)]);
        } else {
          s := ForgetAll(s, Holders(s.observers, t));
          StrandedOne(cfg, s0, before, s, done, t);
          OthersStay(before, s, t, todo);
        }
      } else {
        NotStale(cfg, s0, s, done, t);
      }
      assert s0.installed.Keys - (todo - {t}) == done + {t};
      todo := todo - {t};
    }
    assert s0.installed.Keys - todo == s0.installed.Keys;
  }

  lemma NotStale(cfg: Config, s0: State, s: State, done: set<Table>, t: Table)
    requires Moving(cfg, s0, s, done) && !Stale(cfg, s0.installed, t)
    ensures Moving(cfg, s0, s, done + {t})
  {
    forall id ensures id in s.observers <==> id in s0.observers && !Stranded(cfg, s0, s0.observers[id], done + {t}) {
      assert id in s.observers <==> id in s0.observers && !Stranded(cfg, s0, s0.observers[id], done);
    }
  }

  /** Forgetting the holders of one table changes no other table's holding. */
  lemma OthersStay(s: State, s': State, t: Table, todo: set<Table>)
    requires Inv(s) && Forgotten(s, s', Holders(s.observers, t))
    requires forall u :: u in todo ==> u in s.installed
    ensures forall u :: u in todo && u != t ==> u in s'.installed && s'.installed[u] == s.installed[u]
  {
    forall u | u in todo && u != t ensures u in s'.installed && s'.installed[u] == s.installed[u] {
      assert Holders(s'.observers, u) == Holders(s.observers, u);
      assert CountedAt(s, u) && CountedAt(s', u);
    }
  }

  // ------------------------------------------------------------ second half: observer by observer

  /** What the reload does with one observer, once stale captures have been moved. */
  function ServeOne(cfg: Config, s: State, id: Id): State
    requires id in s.observers
  {
    var a := s.observers[id];
    if a.args.db !in cfg.modes then Replace(s, id, None, None)
    else if cfg.modes[a.args.db] == Statements then
      if a.holds.Some? then Replace(s, id, Some(a.(holds := None)), None) else s
    else if a.args.table.None? then Replace(s, id, None, None)
    else
      var t := (a.args.db, a.args.table.value);
      if a.holds.Some? || cfg.Pool(a.args.db).None? then s
      else if InPlace(cfg, s.installed, t) || t !in cfg.broken then
        Replace(s, id, Some(a.(holds := Some(t))), cfg.Pool(a.args.db))
      else Replace(s, id, None, None)
  }

  /** What holds of natively captured tables during the second half. */
  ghost predicate TableOk(cfg: Config, before: Installed, installed: Installed, t: Table) {
    cfg.IsNative(t.0) ==>
      && (t in installed ==> installed[t].pool == cfg.Pool(t.0))
      && (InPlace(cfg, before, t) ==> t in installed)
      && (cfg.Pool(t.0).Some? && !InPlace(cfg, before, t) && t in cfg.broken ==> t !in installed)
  }

  lemma MovingTables(cfg: Config, s0: State, s: State, t: Table)
    requires Inv(s0) && Moving(cfg, s0, s, s0.installed.Keys)
    ensures TableOk(cfg, s0.installed, s.installed, t)
  {
    assert CountedAt(s0, t) && CountedAt(s, t);
    if InPlace(cfg, s0.installed, t) {
      var id :| id in Holders(s0.observers, t);
      assert !Stranded(cfg, s0, s0.observers[id], s0.installed.Keys);
      assert id in Holders(s.observers, t);
    }
    if t in s.installed {
      var id :| id in Holders(s.observers, t);
      assert s.observers[id] == s0.observers[id];
    }
  }

  lemma ServeTable(cfg: Config, before: Installed, s: State, id: Id, t: Table)
    requires Inv(s) && id in s.observers && TableOk(cfg, before, s.installed, t)
    ensures TableOk(cfg, before, ServeOne(cfg, s, id).installed, t)
  {
    assert CountedAt(s, t);
    assert HoldOf(s.observers, id) == Some(t) <==> id in Holders(s.observers, t);
  }

  lemma ServeKeeps(cfg: Config, s: State, id: Id)
    requires Inv(s) && id in s.observers
    ensures Inv(ServeOne(cfg, s, id))
  {
    var a := s.observers[id];
    if a.args.table.Some? {
      ReplaceKeeps(s, id, Some(a.(holds := Some((a.args.db, a.args.table.value)))), cfg.Pool(a.args.db));
    }
    ReplaceKeeps(s, id, None, None);
    ReplaceKeeps(s, id, Some(a.(holds := None)), None);
  }

  /** The part of being served that does not look at pools. */
  ghost predicate HoldsRight(cfg: Config, a: Admitted) {
    && a.args.db in cfg.modes
    && (cfg.modes[a.args.db] == Statements ==> a.holds.None?)
    && (cfg.modes[a.args.db] == Native ==> a.args.table.Some? && (a.holds.None? ==> cfg.Pool(a.args.db).None?))
  }

  lemma ServeOutcome(cfg: Config, before: Installed, s: State, id: Id)
    requires Inv(s) && id in s.observers && forall t :: TableOk(cfg, before, s.installed, t)
    ensures var a := s.observers[id];
      var s' := ServeOne(cfg, s, id);
      && (id in s'.observers <==> Refusal(cfg, before, a.args).None?)
      && (id in s'.observers ==> s'.observers[id].args == a.args && HoldsRight(cfg, s'.observers[id]))
      && (forall x :: x != id ==> (x in s'.observers <==> x in s.observers))
      && (forall x :: x != id && x in s.observers ==> s'.observers[x] == s.observers[x])
  {
    var a := s.observers[id];
    if cfg.IsNative(a.args.db) && a.args.table.Some? {
      var t := (a.args.db, a.args.table.value);
      assert TableOk(cfg, before, s.installed, t);
      assert a.holds.Some? ==> a.holds.value == t;
      assert CountedAt(s, t);
      assert id in Holders(s.observers, t) <==> a.holds == Some(t);
    }
  }

  ghost predicate Serving(cfg: Config, s1: State, before: Installed, s: State, todo: set<Id>) {
    && Inv(s)
    && (forall t :: TableOk(cfg, before, s.installed, t))
    && (forall id :: id in s.observers <==>
          id in s1.observers && (id in todo || Refusal(cfg, before, s1.observers[id].args).None?))
    && (forall id :: id in s.observers ==> s.observers[id].args == s1.observers[id].args)
    && (forall id :: id in s.observers && id !in todo ==> HoldsRight(cfg, s.observers[id]))
  }

  lemma ServingOne(cfg: Config, s1: State, before: Installed, s: State, todo: set<Id>, id: Id)
    requires Serving(cfg, s1, before, s, todo) && id in todo && id in s.observers
    ensures Serving(cfg, s1, before, ServeOne(cfg, s, id), todo - {id})
  {
    ServeKeeps(cfg, s, id);
    ServeOutcome(cfg, before, s, id);
    forall t ensures TableOk(cfg, before, ServeOne(cfg, s, id).installed, t) {
      ServeTable(cfg, before, s, id, t);
    }
  }

  /**
   A configuration reload. Exactly the observers the new configuration cannot serve are
   gone; every other one is served as it says; and the counts of holds are right.
   */
  method Revalidate(cfg: Config, s0: State) returns (s: State)
    requires Inv(s0)
    ensures Inv(s)
    ensures forall id :: id in s.observers <==>
      id in s0.observers && Refusal(cfg, s0.installed, s0.observers[id].args).None?
    ensures forall id :: id in s.observers ==>
      s.observers[id].args == s0.observers[id].args && Served(cfg, s, s.observers[id])
  {
    var s1 := MoveStale(cfg, s0);
    forall t ensures TableOk(cfg, s0.installed, s1.installed, t) { MovingTables(cfg, s0, s1, t); }
    s := s1;
    var todo := s1.observers.Keys;
    while todo != {}
      invariant todo <= s1.observers.Keys && Serving(cfg, s1, s0.installed, s, todo)
    {
      var id :| id in todo;
      ServingOne(cfg, s1, s0.installed, s, todo, id);
      s := ServeOne(cfg, s, id);
      todo := todo - {id};
    }
    ServingDone(cfg, s0, s1, s);
  }

  lemma ServingDone(cfg: Config, s0: State, s1: State, s: State)
    requires Inv(s0) && Moving(cfg, s0, s1, s0.installed.Keys) && Serving(cfg, s1, s0.installed, s, {})
    ensures forall id :: id in s.observers <==>
      id in s0.observers && Refusal(cfg, s0.installed, s0.observers[id].args).None?
    ensures forall id :: id in s.observers ==>
      s.observers[id].args == s0.observers[id].args && Served(cfg, s, s.observers[id])
  {
    forall id | id in s0.observers && Stranded(cfg, s0, s0.observers[id], s0.installed.Keys)
      ensures Refusal(cfg, s0.installed, s0.observers[id].args).Some?
    {
    }
    forall id | id in s.observers ensures Served(cfg, s, s.observers[id]) {
      var a := s.observers[id];
      if a.holds.Some? {
        assert id in Holders(s.observers, a.holds.value);
        assert CountedAt(s, a.holds.value) && TableOk(cfg, s0.installed, s.installed, a.holds.value);
      }
    }
  }

  // ------------------------------------------------------------ the worker's record

  class Capture {
    var state: State

    constructor ()
      ensures state == State(map[], map[]) && Inv(state)
    {
      state := State(map[], map[]);
    }

    /** The added hook: an id accepted again releases what it held before. */
    method Added(cfg: Config, id: Id, args: Args) returns (rejected: Option<Code>)
      requires Inv(state)
      modifies this
      ensures Inv(state)
      ensures rejected.Some? <==> old(Admit(cfg, state.installed, args)).Rejected?
      ensures rejected.Some? ==> state == old(state)
      ensures rejected.None? ==>
        && state.observers.Keys == old(state.observers.Keys) + {id}
        && state.observers[id].args == args && Served(cfg, state, state.observers[id])
        && forall x :: x in old(state.observers) && x != id ==> state.observers[x] == old(state.observers[x])
    {
      var admission := Admit(cfg, state.installed, args);
      if admission.Rejected? { return Some(admission.code); }
      var next := Admitted(args, admission.table);
      ReplaceKeeps(state, id, Some(next), cfg.Pool(args.db));
      state := Replace(state, id, Some(next), cfg.Pool(args.db));
      if admission.table.Some? {
        assert id in Holders(state.observers, admission.table.value);
        assert CountedAt(state, admission.table.value);
      }
      return None;
    }

    method Removed(id: Id)
      requires Inv(state)
      modifies this
      ensures Inv(state) && state.observers == old(state.observers) - {id}
    {
      ReplaceKeeps(state, id, None, None);
      state := Replace(state, id, None, None);
    }

    method Reload(cfg: Config)
      requires Inv(state)
      modifies this
      ensures Inv(state)
      ensures forall id :: id in state.observers <==>
        id in old(state.observers) && Refusal(cfg, old(state.installed), old(state.observers)[id].args).None?
      ensures forall id :: id in state.observers ==>
        state.observers[id].args == old(state.observers)[id].args && Served(cfg, state, state.observers[id])
    {
      var next := Revalidate(cfg, state);
      state := next;
    }
  }

  // ------------------------------------------------------------ the feed: admission and lookup together

  function ArgsOf(observers: Observers): map<Id, Args> {
    map id | id in observers :: observers[id].args
  }

  /** The observers of an event under a configuration's admissions. */
  ghost predicate Finds(r: set<Id>, observers: Observers, e: Event) {
    forall id :: id in r <==> id in observers && Accepts(observers[id].args, e)
  }

  /** The observers accepted, what they hold, and the index their events are looked up in. */
  class Feed {
    const index: Index
    const capture: Capture

    ghost predicate Valid()
      reads this, index, capture
    {
      index.Valid() && Inv(capture.state) && index.observers == ArgsOf(capture.state.observers)
    }

    constructor ()
      ensures Valid() && capture.state.observers == map[] && fresh(index) && fresh(capture)
    {
      index := new Index();
      capture := new Capture();
    }

    /** The added hook. An id accepted again is filed anew. */
    method Added(cfg: Config, id: Id, args: Args) returns (rejected: Option<Code>)
      requires Valid()
      modifies index, capture
      ensures Valid()
      ensures rejected.Some? <==> old(Admit(cfg, capture.state.installed, args)).Rejected?
      ensures rejected.Some? ==> capture.state == old(capture.state)
      ensures rejected.None? ==> ArgsOf(capture.state.observers) == ArgsOf(old(capture.state.observers))[id := args]
    {
      var before := capture.state.observers;
      rejected := capture.Added(cfg, id, args);
      if rejected.None? {
        assert ArgsOf(capture.state.observers) == ArgsOf(before)[id := args];
        Refile(before, id, args);
      }
    }

    method Refile(before: Observers, id: Id, args: Args)
      requires index.Valid() && index.observers == ArgsOf(before)
      modifies index
      ensures index.Valid() && index.observers == ArgsOf(before)[id := args]
    {
      if id in before { index.Remove(id, before[id].args); }
      index.Add(id, args);
      assert (ArgsOf(before) - {id})[id := args] == ArgsOf(before)[id := args];
    }

    /** The removed hook. */
    method Removed(id: Id)
      requires Valid()
      modifies index, capture
      ensures Valid() && capture.state.observers == old(capture.state.observers) - {id}
    {
      var before := capture.state.observers;
      capture.Removed(id);
      if id in before { index.Remove(id, before[id].args); }
      assert ArgsOf(before - {id}) == ArgsOf(before) - {id};
    }

    /** A reload: the observers it rejects are taken out of the index, one by one. */
    method Reload(cfg: Config)
      requires Valid()
      modifies index, capture
      ensures Valid()
      ensures forall id :: id in capture.state.observers <==>
        id in old(capture.state.observers) &&
        Refusal(cfg, old(capture.state.installed), old(capture.state.observers)[id].args).None?
      ensures forall id :: id in capture.state.observers ==>
        capture.state.observers[id].args == old(capture.state.observers)[id].args &&
        Served(cfg, capture.state, capture.state.observers[id])
    {
      var before := capture.state.observers;
      capture.Reload(cfg);
      var gone := before.Keys - capture.state.observers.Keys;
      Unfile(before, gone);
      assert ArgsOf(before) - gone == ArgsOf(capture.state.observers);
    }

    method Unfile(before: Observers, gone: set<Id>)
      requires index.Valid() && index.observers == ArgsOf(before) && gone <= before.Keys
      modifies index
      ensures index.Valid() && index.observers == ArgsOf(before) - gone
    {
      var todo := gone;
      while todo != {}
        invariant todo <= gone && index.Valid() && index.observers == ArgsOf(before) - (gone - todo)
      {
        var id :| id in todo;
        index.Remove(id, before[id].args);
        assert gone - (todo - {id}) == (gone - todo) + {id};
        assert ArgsOf(before) - (gone - todo) - {id} == ArgsOf(before) - ((gone - todo) + {id});
        todo := todo - {id};
      }
      assert gone - todo == gone;
    }

    /** The observers of an event: exactly those accepted, and not rejected since, whose args accept it. */
    method Lookup(e: Event) returns (r: set<Id>)
      requires Valid()
      ensures Finds(r, capture.state.observers, e)
    {
      r := index.Lookup(e);
    }

    /** Right after a reload an event finds exactly the observers the new configuration serves that want it. */
    method ReloadThenLookup(cfg: Config, e: Event) returns (r: set<Id>)
      requires Valid()
      modifies index, capture
      ensures Valid()
      ensures forall id :: id in r <==>
        id in old(capture.state.observers) && Accepts(old(capture.state.observers)[id].args, e) &&
        Refusal(cfg, old(capture.state.installed), old(capture.state.observers)[id].args).None?
    {
      Reload(cfg);
      r := Lookup(e);
    }
  }
}
