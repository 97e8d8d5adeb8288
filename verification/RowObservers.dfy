/**
 Observers of row changes. An index files each observer under its database, its table or
 every table, and each of its operations or every operation; an event is looked up under a
 handful of keys.
 */
module RowObservers {
  import opened Options

  type Id = string

  /** What an observer asks for: a table or every table, operations or every operation. */
  datatype Args = Args(db: string, table: Option<string>, ops: Option<seq<string>>)

  /** A row event; the table is unknown for some statements. */
  datatype Event = Event(db: string, table: Option<string>, op: Option<string>)

  // ------------------------------------------------------------ the index

  datatype Key = Key(db: string, table: Option<string>, op: Option<string>)

  function OpKeys(db: string, table: Option<string>, ops: seq<string>): (r: seq<Key>)
    ensures |r| == |ops|
    ensures forall i :: 0 <= i < |r| ==> r[i] == Key(db, table, Some(ops[i]))
  {
    if ops == [] then []
    else OpKeys(db, table, ops[..|ops| - 1]) + [Key(db, table, Some(ops[|ops| - 1]))]
  }

  function ObserverKeys(args: Args): seq<Key> {
    if args.ops.Some? then OpKeys(args.db, args.table, args.ops.value) else [Key(args.db, args.table, None)]
  }

  function CallKeys(e: Event): seq<Key> {
    (if e.table.Some? then [Key(e.db, e.table, e.op), Key(e.db, e.table, None)] else [])
    + [Key(e.db, None, e.op), Key(e.db, None, None)]
  }

  /** What the args mean, read one by one. */
  predicate Accepts(args: Args, e: Event) {
    && args.db == e.db
    && (args.table.None? || args.table == e.table)
    && (args.ops.None? || (e.op.Some? && e.op.value in args.ops.value))
  }

  /** An observer shares a key with an event exactly when its args accept it. */
  lemma SharedKey(args: Args, e: Event)
    ensures (exists k :: k in ObserverKeys(args) && k in CallKeys(e)) <==> Accepts(args, e)
  {
    var keys, calls := ObserverKeys(args), CallKeys(e);
    if Accepts(args, e) {
      if args.ops.None? {
        assert Key(args.db, args.table, None) in keys;
        assert Key(args.db, args.table, None) in calls;
      } else {
        var i :| 0 <= i < |args.ops.value| && args.ops.value[i] == e.op.value;
        assert keys[i] == Key(args.db, args.table, e.op);
        assert keys[i] in calls;
      }
    }
    if k :| k in keys && k in calls {
      assert args.ops.Some? ==> k.op.Some? && k.op.value in args.ops.value;
    }
  }

  /** And then it is one key only: no observer is found twice for one event. */
  lemma OneSharedKey(args: Args, e: Event, k: Key, l: Key)
    requires k in ObserverKeys(args) && l in ObserverKeys(args) && k in CallKeys(e) && l in CallKeys(e)
    ensures k == l
  {
    assert args.ops.Some? ==> k.op == e.op && l.op == e.op;
  }

  type Filed = map<Key, set<Id>>

  function Under(index: Filed, k: Key): set<Id> {
    if k in index then index[k] else {}
  }

  /** The index holds each observer under its keys and nowhere else. */
  ghost predicate Indexes(index: Filed, observers: map<Id, Args>) {
    forall k, id :: id in Under(index, k) <==> id in observers && k in ObserverKeys(observers[id])
  }

  class Index {
    var filed: Filed
    ghost var observers: map<Id, Args>

    ghost predicate Valid()
      reads this
    {
      Indexes(filed, observers)
    }

    constructor ()
      ensures Valid() && observers == map[]
    {
      filed, observers := map[], map[];
    }

    method Add(id: Id, args: Args)
      requires Valid() && id !in observers
      modifies this
      ensures Valid() && observers == old(observers)[id := args]
    {
      var keys := ObserverKeys(args);
      for i := 0 to |keys|
        invariant observers == old(observers)
        invariant forall k, x :: x in Under(filed, k) <==> x in Under(old(filed), k) || (x == id && k in keys[..i])
      {
        assert keys[..i + 1] == keys[..i] + [keys[i]];
        filed := filed[keys[i] := Under(filed, keys[i]) + {id}];
      }
      assert keys[..|keys|] == keys;
      observers := observers[id := args];
    }

    method Remove(id: Id, args: Args)
      requires Valid() && id in observers && observers[id] == args
      modifies this
      ensures Valid() && observers == old(observers) - {id}
    {
      var keys := ObserverKeys(args);
      for i := 0 to |keys|
        invariant observers == old(observers)
        invariant forall k, x :: x in Under(filed, k) <==> x in Under(old(filed), k) && !(x == id && k in keys[..i])
      {
        assert keys[..i + 1] == keys[..i] + [keys[i]];
        filed := filed[keys[i] := Under(filed, keys[i]) - {id}];
      }
      assert keys[..|keys|] == keys;
      observers := observers - {id};
    }

    /** The observers of an event: exactly those whose args accept it. */
    method Lookup(e: Event) returns (r: set<Id>)
      requires Valid()
      ensures forall id :: id in r <==> id in observers && Accepts(observers[id], e)
    {
      var keys := CallKeys(e);
      r := {};
      for i := 0 to |keys|
        invariant forall id :: id in r <==> exists j :: 0 <= j < i && id in Under(filed, keys[j])
      {
        r := r + Under(filed, keys[i]);
      }
      forall id ensures id in r <==> id in observers && Accepts(observers[id], e) {
        if id in observers { SharedKey(observers[id], e); }
        assert id in r <==> exists j :: 0 <= j < |keys| && id in Under(filed, keys[j]);
        if id in observers && Accepts(observers[id], e) {
          var k :| k in ObserverKeys(observers[id]) && k in keys;
          var j :| 0 <= j < |keys| && keys[j] == k;
          assert id in Under(filed, keys[j]);
        }
        if id in r {
          var j :| 0 <= j < |keys| && id in Under(filed, keys[j]);
          assert keys[j] in keys && keys[j] in ObserverKeys(observers[id]);
        }
      }
    }
  }
}
