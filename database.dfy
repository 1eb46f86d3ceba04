/** `UserDefaultDatabase`: a typed record store kept in a UserDefaults suite,
    one partition per record type, that tells the type's observers the whole
    resulting list after every change.

    Each mutation reads the type's list, searches it by primary key, edits the
    local copy, writes the whole list back under the type's key, and only then
    notifies. A failure at any step before the write leaves the suite as it
    was and notifies nobody. */
module Database {
  import opened KeyedList
  import opened Store
  import opened Observation

  class UserDefaultDatabase<R, K(==)> {
    /** The UserDefaults suite. */
    var defaults: Suite<R>
    /** `primaryKey` of the record type. */
    const key: R -> K
    /** Whether `JSONEncoder` can encode a given list. */
    const canEncode: seq<R> -> bool
    var observationManager: ObservationManager<R>

    constructor (defaults: Suite<R>, key: R -> K, canEncode: seq<R> -> bool)
      ensures this.defaults == defaults && this.key == key && this.canEncode == canEncode
      ensures fresh(observationManager)
      ensures observationManager.observersDictionary == map[] && observationManager.log == []
    {
      this.defaults := defaults;
      this.key := key;
      this.canEncode := canEncode;
      observationManager := new ObservationManager();
    }

    /** `fetchObjects(ofType:)`: the type's whole list; empty when the type
        was never written, a `readError` when its value is unreadable. */
    function FetchObjects(tag: TypeTag): (r: Result<seq<R>>)
      reads this
      ensures tag !in defaults ==> r == Success([])
      ensures r.Failure? <==> tag in defaults && (defaults[tag].NonData? || defaults[tag].Undecodable?)
      ensures r.Failure? ==> r.error == ReadError
      ensures tag in defaults && defaults[tag].Data? ==> r == Success(defaults[tag].records)
      ensures Lookup(defaults, tag).Absent? ==> r == Success([])
    {
      Read(Lookup(defaults, tag))
    }

    /** `fetchObject(ofType:withPrimaryKey:)`: the first record of the type
        with that key, nil when there is none. */
    function FetchObject(tag: TypeTag, k: K): (r: Result<Option<R>>)
      reads this
      ensures r.Failure? <==> FetchObjects(tag).Failure?
      ensures r.Failure? ==> r.error == ReadError
      ensures r.Success? ==> (r.value.None? <==> !HasKey(FetchObjects(tag).value, key, k))
      ensures r.Success? && r.value.Some? ==>
                var s := FetchObjects(tag).value;
                exists i :: 0 <= i < |s| && s[i] == r.value.value && key(s[i]) == k &&
                            forall j :: 0 <= j < i ==> key(s[j]) != k
    {
      match FetchObjects(tag)
      case Failure(e) => Failure(e)
      case Success(objects) => Success(FirstMatch(objects, key, k))
    }

    /** The state after a mutation of `tag` whose edit of the list came out as
        `edited`, starting from suite `before` and callback log `logBefore`:
        on an edit or encoding failure nothing changed and nobody was told;
        otherwise the type's partition, and only it, holds the new list and
        each live observer of the type was told the whole list once. */
    ghost predicate Committed(before: Suite<R>, logBefore: seq<Delivery<R>>, tag: TypeTag,
                              edited: Result<seq<R>>, live: set<ObserverId>, status: Result<()>)
      reads this, observationManager
    {
      match edited
      case Failure(e) =>
        status == Failure(e) && defaults == before && observationManager.log == logBefore
      case Success(objects) =>
        if canEncode(objects) then
          status == Success(()) && defaults == before[tag := Data(objects)] &&
          |observationManager.log| >= |logBefore| && observationManager.log[..|logBefore|] == logBefore &&
          FanOut(observationManager.log[|logBefore|..], multiset(observationManager.Observers(tag, live)), objects)
        else
          status == Failure(WriteError) && defaults == before && observationManager.log == logBefore
    }

    /** The private `write(objects:ofType:)`: the whole list replaces the
        type's value, unless it cannot be encoded. */
    method Write(objects: seq<R>, tag: TypeTag) returns (status: Result<()>)
      modifies this`defaults
      ensures canEncode(objects) ==> status == Success(()) && defaults == old(defaults)[tag := Data(objects)]
      ensures !canEncode(objects) ==> status == Failure(WriteError) && defaults == old(defaults)
    {
      if !canEncode(objects) {
        return Failure(WriteError);
      }
      defaults := defaults[tag := Data(objects)];
      status := Success(());
    }

    /** The private `notifyObservers(forType:ofUpdatedValues:)`, routed
        through the manager. */
    method NotifyObservers(tag: TypeTag, updatedValues: seq<R>, live: set<ObserverId>)
      modifies observationManager`log
      ensures |observationManager.log| >= |old(observationManager.log)|
      ensures observationManager.log[..|old(observationManager.log)|] == old(observationManager.log)
      ensures FanOut(observationManager.log[|old(observationManager.log)|..],
                     multiset(observationManager.Observers(tag, live)), updatedValues)
    {
      observationManager.NotifyObservers(tag, updatedValues, live);
    }

    /** `insertObject`: refused with `duplicateFoundWhileTryingToInsert` when
        the key is taken; otherwise the record is appended. */
    method InsertObject(tag: TypeTag, obj: R, live: set<ObserverId>) returns (status: Result<()>)
      modifies this`defaults, observationManager`log
      ensures old(FetchObjects(tag)).Failure? ==>
                status == Failure(ReadError) && defaults == old(defaults) &&
                observationManager.log == old(observationManager.log)
      ensures old(FetchObjects(tag)).Success? ==>
                Committed(old(defaults), old(observationManager.log), tag,
                          Inserted(old(FetchObjects(tag)).value, key, obj), live, status)
    {
      var fetched := FetchObjects(tag);
      if fetched.Failure? {
        return Failure(fetched.error);
      }
      var objects := fetched.value;
      if FirstMatch(objects, key, key(obj)).Some? {
        return Failure(DuplicateFoundWhileTryingToInsert);
      }
      objects := objects + [obj];
      status := Write(objects, tag);
      if status.Failure? {
        return;
      }
      NotifyObservers(tag, objects, live);
    }

    /** `updateObject`: refused with `objectNotFound` when the key is
        missing; otherwise the first record with the key is removed and the
        new one appended. */
    method UpdateObject(tag: TypeTag, obj: R, live: set<ObserverId>) returns (status: Result<()>)
      modifies this`defaults, observationManager`log
      ensures old(FetchObjects(tag)).Failure? ==>
                status == Failure(ReadError) && defaults == old(defaults) &&
                observationManager.log == old(observationManager.log)
      ensures old(FetchObjects(tag)).Success? ==>
                Committed(old(defaults), old(observationManager.log), tag,
                          Updated(old(FetchObjects(tag)).value, key, obj), live, status)
    {
      var fetched := FetchObjects(tag);
      if fetched.Failure? {
        return Failure(fetched.error);
      }
      var objects := fetched.value;
      var oldObjectIndex := FirstIndex(objects, key, key(obj));
      if oldObjectIndex.None? {
        return Failure(ObjectNotFound);
      }
      objects := RemoveAt(objects, oldObjectIndex.value);
      objects := objects + [obj];
      status := Write(objects, tag);
      if status.Failure? {
        return;
      }
      NotifyObservers(tag, objects, live);
    }

    /** `upsertObject`: the first record with the key, if any, is removed and
        the new one appended; only reading and encoding can fail. */
    method UpsertObject(tag: TypeTag, obj: R, live: set<ObserverId>) returns (status: Result<()>)
      modifies this`defaults, observationManager`log
      ensures old(FetchObjects(tag)).Failure? ==>
                status == Failure(ReadError) && defaults == old(defaults) &&
                observationManager.log == old(observationManager.log)
      ensures old(FetchObjects(tag)).Success? ==>
                Committed(old(defaults), old(observationManager.log), tag,
                          Success(Upserted(old(FetchObjects(tag)).value, key, obj)), live, status)
    {
      var fetched := FetchObjects(tag);
      if fetched.Failure? {
        return Failure(fetched.error);
      }
      var objects := fetched.value;
      var oldObjectIndex := FirstIndex(objects, key, key(obj));
      if oldObjectIndex.Some? {
        objects := RemoveAt(objects, oldObjectIndex.value);
      }
      objects := objects + [obj];
      status := Write(objects, tag);
      if status.Failure? {
        return;
      }
      NotifyObservers(tag, objects, live);
    }

    /** `deleteObject`: refused with `objectNotFound` when the key is
        missing; otherwise the first record with the key is removed. */
    method DeleteObject(tag: TypeTag, obj: R, live: set<ObserverId>) returns (status: Result<()>)
      modifies this`defaults, observationManager`log
      ensures old(FetchObjects(tag)).Failure? ==>
                status == Failure(ReadError) && defaults == old(defaults) &&
                observationManager.log == old(observationManager.log)
      ensures old(FetchObjects(tag)).Success? ==>
                Committed(old(defaults), old(observationManager.log), tag,
                          Deleted(old(FetchObjects(tag)).value, key, obj), live, status)
    {
      var fetched := FetchObjects(tag);
      if fetched.Failure? {
        return Failure(fetched.error);
      }
      var objects := fetched.value;
      var objectIndex := FirstIndex(objects, key, key(obj));
      if objectIndex.None? {
        return Failure(ObjectNotFound);
      }
      objects := RemoveAt(objects, objectIndex.value);
      status := Write(objects, tag);
      if status.Failure? {
        return;
      }
      NotifyObservers(tag, objects, live);
    }

    /** `addObserver(_:forType:)`: reads the type's list, then registers the
        observer and hands it that list once, before returning. When the read
        fails nothing is registered. */
    method AddObserver(observer: ObserverId, tag: TypeTag) returns (status: Result<()>)
      modifies observationManager
      ensures FetchObjects(tag).Failure? ==>
                status == Failure(ReadError) &&
                observationManager.observersDictionary == old(observationManager.observersDictionary) &&
                observationManager.log == old(observationManager.log)
      ensures FetchObjects(tag).Success? ==>
                status == Success(()) &&
                observationManager.observersDictionary ==
                  Registered(old(observationManager.observersDictionary), tag, observer) &&
                observationManager.log ==
                  old(observationManager.log) + [Delivery(observer, DidAddObserver, FetchObjects(tag).value)]
    {
      var fetched := FetchObjects(tag);
      if fetched.Failure? {
        return Failure(fetched.error);
      }
      observationManager.AddObserver(observer, tag, fetched.value);
      status := Success(());
    }
  }
}
