/** The observer registry of the store.

    Swift keeps, per type key, an `NSHashTable.weakObjects()` of observers: a
    set that holds its members weakly, so an observer whose lifetime has ended
    silently disappears from it. Here an observer is an identity, the registry
    keeps identities, and the set `live` of identities whose objects still
    exist is supplied by the caller of every operation that reads the
    registry; each table is always read through it. The two callbacks
    (`databaseDidAddObserver`, `databaseDidChange`) are recorded, in the order
    they are made, in `log`. */
module Observation {
  import opened Store

  /** The identity of an observer object. */
  type ObserverId = nat

  datatype Callback = DidAddObserver | DidChange

  /** One callback made on one observer with one list of values. */
  datatype Delivery<R> = Delivery(observer: ObserverId, callback: Callback, values: seq<R>)

  type Registry = map<TypeTag, set<ObserverId>>

  /** The observers the deliveries went to, each counted as often as it
      was called. */
  function Recipients<R>(entries: seq<Delivery<R>>): (r: multiset<ObserverId>)
    ensures |r| == |entries|
  {
    if entries == [] then multiset{}
    else Recipients(entries[..|entries| - 1]) + multiset{entries[|entries| - 1].observer}
  }

  lemma {:induction false} RecipientsAppend<R>(a: seq<Delivery<R>>, b: seq<Delivery<R>>)
    ensures Recipients(a + b) == Recipients(a) + Recipients(b)
    decreases |b|
  {
    if b == [] {
      assert a + b == a;
    } else {
      var c := b[..|b| - 1];
      assert (a + b)[..|a + b| - 1] == a + c;
      RecipientsAppend(a, c);
    }
  }

  /** `entries` is one `databaseDidChange(updatedValues: values)` per element
      of `targets`, counted with multiplicity, and nothing else. */
  ghost predicate FanOut<R>(entries: seq<Delivery<R>>, targets: multiset<ObserverId>, values: seq<R>)
  {
    (forall i :: 0 <= i < |entries| ==> entries[i].callback == DidChange && entries[i].values == values) &&
    Recipients(entries) == targets
  }

  lemma FanOutAppend<R>(a: seq<Delivery<R>>, b: seq<Delivery<R>>,
                        ta: multiset<ObserverId>, tb: multiset<ObserverId>, values: seq<R>)
    requires FanOut(a, ta, values) && FanOut(b, tb, values)
    ensures FanOut(a + b, ta + tb, values)
  {
    RecipientsAppend(a, b);
    forall i | 0 <= i < |a + b|
      ensures (a + b)[i].callback == DidChange && (a + b)[i].values == values
    {
      if i >= |a| { assert (a + b)[i] == b[i - |a|]; }
    }
  }

  /** The registry after `observer` was added to the table of `tag`; the table
      is created when the type has none yet. */
  function Registered(d: Registry, tag: TypeTag, observer: ObserverId): (r: Registry)
    ensures r.Keys == d.Keys + {tag}
    ensures observer in r[tag]
    ensures tag in d ==> d[tag] <= r[tag]
    ensures forall o :: o in r[tag] <==> o == observer || (tag in d && o in d[tag])
    ensures forall t :: t in d && t != tag ==> r[t] == d[t]
  {
    d[tag := (if tag in d then d[tag] else {}) + {observer}]
  }

  /** Each table is a set: registering an observer a second time under the
      same type changes nothing. */
  lemma RegisteredIdempotent(d: Registry, tag: TypeTag, observer: ObserverId)
    ensures Registered(Registered(d, tag, observer), tag, observer) == Registered(d, tag, observer)
  {
    var r := Registered(d, tag, observer);
    assert r[tag] + {observer} == r[tag];
  }

  /** The live members of every table whose key is in `keys`, each table
      contributing its own copy of an observer registered under several
      types. */
  ghost function Gather(d: Registry, keys: set<TypeTag>, live: set<ObserverId>): multiset<ObserverId>
    requires keys <= d.Keys
    decreases keys
  {
    if keys == {} then multiset{}
    else
      var k :| k in keys;
      multiset(d[k] * live) + Gather(d, keys - {k}, live)
  }

  /** `Gather` does not depend on the order the tables are visited in. */
  lemma {:induction false} GatherSplit(d: Registry, keys: set<TypeTag>, k: TypeTag, live: set<ObserverId>)
    requires keys <= d.Keys && k in keys
    ensures Gather(d, keys, live) == multiset(d[k] * live) + Gather(d, keys - {k}, live)
    decreases keys
  {
    var j :| j in keys && Gather(d, keys, live) == multiset(d[j] * live) + Gather(d, keys - {j}, live);
    if j != k {
      GatherSplit(d, keys - {j}, k, live);
      GatherSplit(d, keys - {k}, j, live);
      assert keys - {j} - {k} == keys - {k} - {j};
    }
  }

  lemma GatherStep(d: Registry, keys: set<TypeTag>, k: TypeTag, live: set<ObserverId>, done: multiset<ObserverId>)
    requires keys <= d.Keys && k in keys
    requires done + Gather(d, keys, live) == Gather(d, d.Keys, live)
    ensures (done + multiset(d[k] * live)) + Gather(d, keys - {k}, live) == Gather(d, d.Keys, live)
  {
    GatherSplit(d, keys, k, live);
  }

  /** An observer is delivered to by `Gather` once per table holding it, and
      not at all once its lifetime has ended. */
  lemma {:induction false} GatherCount(d: Registry, keys: set<TypeTag>, live: set<ObserverId>, o: ObserverId)
    requires keys <= d.Keys
    ensures Gather(d, keys, live)[o] == if o in live then |set k | k in keys && o in d[k]| else 0
    decreases keys
  {
    if keys != {} {
      var k :| k in keys;
      GatherSplit(d, keys, k, live);
      GatherCount(d, keys - {k}, live, o);
      var holding := set t | t in keys && o in d[t];
      var rest := set t | t in keys - {k} && o in d[t];
      if o in d[k] {
        assert holding == rest + {k};
      } else {
        assert holding == rest;
      }
    }
  }

  /** Tables that agree on their live members gather the same observers. */
  lemma {:induction false} GatherAgree(d: Registry, e: Registry, keys: set<TypeTag>, live: set<ObserverId>)
    requires keys <= d.Keys && keys <= e.Keys
    requires forall k :: k in keys ==> d[k] * live == e[k] * live
    ensures Gather(d, keys, live) == Gather(e, keys, live)
    decreases keys
  {
    if keys != {} {
      var k :| k in keys;
      GatherSplit(d, keys, k, live);
      GatherSplit(e, keys, k, live);
      GatherAgree(d, e, keys - {k}, live);
    }
  }

  /** Adding an observer raises the number of live observers by one exactly
      when it is alive and not yet in that type's table. */
  lemma RegisteredCount(d: Registry, tag: TypeTag, observer: ObserverId, live: set<ObserverId>)
    ensures |Gather(Registered(d, tag, observer), d.Keys + {tag}, live)| ==
            |Gather(d, d.Keys, live)| +
            (if observer in live && !(tag in d && observer in d[tag]) then 1 else 0)
  {
    var before := if tag in d then d[tag] else {};
    RegisteredGather(d, tag, observer, live);
    UnregisteredGather(d, tag, live);
    LiveTableGrows(before, observer, live);
  }

  lemma RegisteredGather(d: Registry, tag: TypeTag, observer: ObserverId, live: set<ObserverId>)
    ensures Gather(Registered(d, tag, observer), d.Keys + {tag}, live) ==
            multiset(((if tag in d then d[tag] else {}) + {observer}) * live) + Gather(d, d.Keys - {tag}, live)
  {
    var r := Registered(d, tag, observer);
    assert (d.Keys + {tag}) - {tag} == d.Keys - {tag};
    GatherSplit(r, d.Keys + {tag}, tag, live);
    GatherAgree(r, d, d.Keys - {tag}, live);
  }

  lemma UnregisteredGather(d: Registry, tag: TypeTag, live: set<ObserverId>)
    ensures Gather(d, d.Keys, live) ==
            multiset((if tag in d then d[tag] else {}) * live) + Gather(d, d.Keys - {tag}, live)
  {
    if tag in d {
      GatherSplit(d, d.Keys, tag, live);
    } else {
      assert d.Keys - {tag} == d.Keys;
    }
  }

  lemma LiveTableGrows(table: set<ObserverId>, observer: ObserverId, live: set<ObserverId>)
    ensures |multiset((table + {observer}) * live)| ==
            |multiset(table * live)| + (if observer in live && observer !in table then 1 else 0)
  {
    if observer in live && observer !in table {
      assert (table + {observer}) * live == table * live + {observer};
    } else {
      assert (table + {observer}) * live == table * live;
    }
  }

  class ObservationManager<R> {
    /** For each type key, the observers registered for that type. */
    var observersDictionary: Registry
    /** The callbacks made so far. */
    var log: seq<Delivery<R>>

    constructor ()
      ensures observersDictionary == map[] && log == []
    {
      observersDictionary := map[];
      log := [];
    }

    /** The private `observers(forType:)`: the live observers of `tag`, none
        when the type has no table. */
    function Observers(tag: TypeTag, live: set<ObserverId>): (r: set<ObserverId>)
      reads this
      ensures forall o :: o in r <==> tag in observersDictionary && o in observersDictionary[tag] && o in live
    {
      if tag in observersDictionary then observersDictionary[tag] * live else {}
    }

    /** `numberOfObservers()`: the live observers of every table, summed. */
    method NumberOfObservers(live: set<ObserverId>) returns (count: nat)
      ensures count == |Gather(observersDictionary, observersDictionary.Keys, live)|
    {
      count := 0;
      var remaining := observersDictionary.Keys;
      while remaining != {}
        invariant remaining <= observersDictionary.Keys
        invariant count + |Gather(observersDictionary, remaining, live)| ==
                  |Gather(observersDictionary, observersDictionary.Keys, live)|
        decreases remaining
      {
        var k :| k in remaining;
        GatherSplit(observersDictionary, remaining, k, live);
        count := count + |observersDictionary[k] * live|;
        remaining := remaining - {k};
      }
    }

    /** Calls `databaseDidChange(updatedValues: values)` once on each of
        `targets`. */
    method Deliver(targets: set<ObserverId>, values: seq<R>)
      modifies this`log
      ensures |log| >= |old(log)| && log[..|old(log)|] == old(log)
      ensures FanOut(log[|old(log)|..], multiset(targets), values)
    {
      ghost var sent: seq<Delivery<R>> := [];
      var remaining := targets;
      while remaining != {}
        invariant remaining <= targets
        invariant log == old(log) + sent
        invariant forall i :: 0 <= i < |sent| ==> sent[i].callback == DidChange && sent[i].values == values
        invariant Recipients(sent) + multiset(remaining) == multiset(targets)
        decreases remaining
      {
        var o :| o in remaining;
        var d := Delivery(o, DidChange, values);
        assert (sent + [d])[..|sent|] == sent;
        assert multiset(remaining) == multiset(remaining - {o}) + multiset{o};
        sent := sent + [d];
        log := log + [d];
        remaining := remaining - {o};
      }
      assert log[|old(log)|..] == sent;
    }

    /** `notifyObservers(forType:ofUpdatedValues:)`: each live observer of
        `tag` is told `values` once; nobody else is told anything. */
    method NotifyObservers(tag: TypeTag, values: seq<R>, live: set<ObserverId>)
      modifies this`log
      ensures |log| >= |old(log)| && log[..|old(log)|] == old(log)
      ensures FanOut(log[|old(log)|..], multiset(Observers(tag, live)), values)
      ensures tag !in observersDictionary ==> log == old(log)
    {
      var targets := Observers(tag, live);
      Deliver(targets, values);
      if tag !in observersDictionary {
        assert |Recipients(log[|old(log)|..])| == 0;
      }
    }

    /** `notifyObserversOfDatabaseReset()`: every table is visited and each of
        its live observers is told the empty list. */
    method NotifyObserversOfDatabaseReset(live: set<ObserverId>)
      modifies this`log
      ensures |log| >= |old(log)| && log[..|old(log)|] == old(log)
      ensures FanOut(log[|old(log)|..], Gather(observersDictionary, observersDictionary.Keys, live), [])
    {
      ghost var sent: seq<Delivery<R>> := [];
      ghost var done: multiset<ObserverId> := multiset{};
      var tables := observersDictionary;
      var remaining := tables.Keys;
      while remaining != {}
        invariant remaining <= tables.Keys
        invariant log == old(log) + sent
        invariant FanOut(sent, done, [])
        invariant done + Gather(tables, remaining, live) == Gather(tables, tables.Keys, live)
        decreases remaining
      {
        var k :| k in remaining;
        GatherStep(tables, remaining, k, live, done);
        ghost var before := log;
        Deliver(tables[k] * live, []);
        ghost var chunk := log[|before|..];
        assert log == before + chunk;
        FanOutAppend(sent, chunk, done, multiset(tables[k] * live), []);
        sent := sent + chunk;
        done := done + multiset(tables[k] * live);
        remaining := remaining - {k};
      }
      assert log[|old(log)|..] == sent;
    }

    /** `addObserver(_:forType:withInitialValues:)`: registers the observer
        under `tag` and tells it `initialValues` before returning. */
    method AddObserver(observer: ObserverId, tag: TypeTag, initialValues: seq<R>)
      modifies this
      ensures observersDictionary == Registered(old(observersDictionary), tag, observer)
      ensures log == old(log) + [Delivery(observer, DidAddObserver, initialValues)]
    {
      var typeObservers := if tag in observersDictionary then observersDictionary[tag] else {};
      typeObservers := typeObservers + {observer};
      observersDictionary := observersDictionary[tag := typeObservers];
      log := log + [Delivery(observer, DidAddObserver, initialValues)];
    }
  }
}
