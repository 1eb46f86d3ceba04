/** The store's own test cases, replayed against the model on a fresh, empty
    suite. Each method's postcondition implies what the corresponding XCTest
    asserts, and often says more (the exact list where the test checks a
    count). Primary keys, `UUID`s in Swift, are naturals here; observers are
    identities, and an observer that the test lets go is left out of `live`. */
module Scenarios {
  import opened KeyedList
  import opened Store
  import opened Observation
  import opened Database

  datatype TestObject = TestObject(primaryKey: nat, name: string)

  const TestObjectTag: TypeTag := "TestObject"
  const OtherTestObjectTag: TypeTag := "OtherTestObject"

  function PrimaryKey(o: TestObject): nat { o.primaryKey }

  /** `JSONEncoder` encodes every list of test objects. */
  predicate Encodable(objects: seq<TestObject>) { true }

  method EmptyDatabase() returns (db: UserDefaultDatabase<TestObject, nat>)
    ensures fresh(db) && fresh(db.observationManager)
    ensures db.defaults == map[] && db.key == PrimaryKey && db.canEncode == Encodable
    ensures db.observationManager.observersDictionary == map[] && db.observationManager.log == []
  {
    db := new UserDefaultDatabase(map[], PrimaryKey, Encodable);
  }

  const Foo := TestObject(1, "foo")
  const Bar := TestObject(2, "bar")
  /** `Foo` with its name changed. */
  const FooRenamed := TestObject(1, "bar")

  /** The partition edits the write tests perform, on their literal lists. */
  lemma InsertEdits()
    ensures Inserted([], PrimaryKey, Foo) == Success([Foo])
    ensures Inserted([Foo], PrimaryKey, Foo) == Failure(DuplicateFoundWhileTryingToInsert)
    ensures Inserted([Foo], PrimaryKey, Bar) == Success([Foo, Bar])
  {
    assert [Foo][0] == Foo && PrimaryKey(Foo) == 1 && PrimaryKey(Bar) == 2;
    assert FirstMatch([Foo], PrimaryKey, 1) == Some(Foo);
    assert !HasKey([Foo], PrimaryKey, 2);
    assert [Foo] + [Bar] == [Foo, Bar];
  }

  lemma UpdateEdit()
    ensures Updated([Foo], PrimaryKey, FooRenamed) == Success([FooRenamed])
  {
    assert PrimaryKey(FooRenamed) == 1 && [Foo][0] == Foo;
    assert FirstIndex([Foo], PrimaryKey, 1) == Some(0) && RemoveAt([Foo], 0) == [];
    assert RemoveAt([Foo], 0) + [FooRenamed] == [FooRenamed];
  }

  lemma UpsertEdits()
    ensures Upserted([], PrimaryKey, Foo) == [Foo]
    ensures Upserted([Foo], PrimaryKey, FooRenamed) == [FooRenamed]
  {
    assert FirstIndex([Foo], PrimaryKey, 1) == Some(0) && RemoveAt([Foo], 0) == [];
  }

  lemma DeleteEdit()
    ensures Deleted([Foo, Bar], PrimaryKey, Foo) == Success([Bar])
  {
    assert FirstIndex([Foo, Bar], PrimaryKey, 1) == Some(0) && RemoveAt([Foo, Bar], 0) == [Bar];
  }

  /** Inserting the same record twice: the second insert throws
      `duplicateFoundWhileTryingToInsert` and the list still holds one record. */
  method InsertingDuplicateObjectThrows() returns (first: Result<()>, second: Result<()>, objects: Result<seq<TestObject>>)
    ensures first == Success(())
    ensures second == Failure(DuplicateFoundWhileTryingToInsert)
    ensures objects == Success([Foo])
  {
    var db := EmptyDatabase();
    InsertEdits();
    first := db.InsertObject(TestObjectTag, Foo, {});
    assert db.defaults == map[TestObjectTag := Data([Foo])];
    second := db.InsertObject(TestObjectTag, Foo, {});
    objects := db.FetchObjects(TestObjectTag);
  }

  /** Updating a record changes its payload and not the number of records. */
  method UpdateObject() returns (objects: Result<seq<TestObject>>)
    ensures objects == Success([FooRenamed])
  {
    var db := EmptyDatabase();
    InsertEdits();
    UpdateEdit();
    var _ := db.InsertObject(TestObjectTag, Foo, {});
    assert db.FetchObjects(TestObjectTag) == Success([Foo]);
    var _ := db.UpdateObject(TestObjectTag, FooRenamed, {});
    objects := db.FetchObjects(TestObjectTag);
  }

  /** Updating a record that is not there throws `objectNotFound`. */
  method UpdatingNonExistentObjectThrows() returns (status: Result<()>)
    ensures status == Failure(ObjectNotFound)
  {
    var db := EmptyDatabase();
    status := db.UpdateObject(TestObjectTag, Foo, {});
  }

  /** Upserting twice under one key leaves one record with the second payload. */
  method UpsertingExistingObjectUpdatesIt() returns (objects: Result<seq<TestObject>>)
    ensures objects == Success([FooRenamed])
  {
    var db := EmptyDatabase();
    UpsertEdits();
    var _ := db.UpsertObject(TestObjectTag, Foo, {});
    assert db.FetchObjects(TestObjectTag) == Success([Foo]);
    var _ := db.UpsertObject(TestObjectTag, FooRenamed, {});
    objects := db.FetchObjects(TestObjectTag);
  }

  /** Deleting one of two records leaves exactly the other. */
  method DeleteObject() returns (objects: Result<seq<TestObject>>)
    ensures objects == Success([Bar])
  {
    var db := EmptyDatabase();
    InsertEdits();
    DeleteEdit();
    var _ := db.InsertObject(TestObjectTag, Foo, {});
    assert db.FetchObjects(TestObjectTag) == Success([Foo]);
    var _ := db.InsertObject(TestObjectTag, Bar, {});
    assert db.FetchObjects(TestObjectTag) == Success([Foo, Bar]);
    var _ := db.DeleteObject(TestObjectTag, Foo, {});
    objects := db.FetchObjects(TestObjectTag);
  }

  /** Fetching a key nobody inserted yields nil, not an error. */
  method FetchObjectThatDoesNotExistInDatabase() returns (fetched: Result<Option<TestObject>>)
    ensures fetched == Success(None)
  {
    var db := EmptyDatabase();
    fetched := db.FetchObject(TestObjectTag, 7);
  }

  /** Records of two types are kept apart. */
  method FetchObjectOfType() returns (objects: Result<seq<TestObject>>)
    ensures objects == Success([Foo])
  {
    var db := EmptyDatabase();
    UpsertEdits();
    var _ := db.UpsertObject(TestObjectTag, Foo, {});
    assert db.defaults == map[TestObjectTag := Data([Foo])];
    var _ := db.UpsertObject(OtherTestObjectTag, TestObject(2, "other"), {});
    assert db.defaults[TestObjectTag] == Data([Foo]);
    objects := db.FetchObjects(TestObjectTag);
  }

  /** An observer added after two inserts is handed both records. */
  method AddingObserverToPopulatedDatabase() returns (initialValues: seq<TestObject>)
    ensures initialValues == [Foo, Bar]
  {
    var db := EmptyDatabase();
    InsertEdits();
    var _ := db.InsertObject(TestObjectTag, Foo, {});
    assert db.FetchObjects(TestObjectTag) == Success([Foo]);
    var _ := db.InsertObject(TestObjectTag, Bar, {});
    assert db.FetchObjects(TestObjectTag) == Success([Foo, Bar]);
    var observer: ObserverId := 1;
    var _ := db.AddObserver(observer, TestObjectTag);
    var log := db.observationManager.log;
    assert log[|log| - 1] == Delivery(observer, DidAddObserver, [Foo, Bar]);
    initialValues := log[|log| - 1].values;
  }

  /** Two observers of the type are both told about an insert, with the one
      record it leaves. */
  method MultipleObserversAreNotified() returns (notified: multiset<ObserverId>, values: seq<seq<TestObject>>)
    ensures notified == multiset{1, 2}
    ensures values == [[Foo], [Foo]]
  {
    var db := EmptyDatabase();
    var empty: Registry := map[];
    var _ := db.AddObserver(1, TestObjectTag);
    var none: set<ObserverId> := {};
    assert none + {1} == {1};
    assert db.observationManager.observersDictionary == empty[TestObjectTag := {1}];
    var _ := db.AddObserver(2, TestObjectTag);
    assert {1} + {2} == {1, 2};
    assert db.observationManager.observersDictionary == empty[TestObjectTag := {1, 2}];
    var start := |db.observationManager.log|;
    InsertEdits();
    var _ := db.InsertObject(TestObjectTag, Foo, {1, 2});
    var sent := db.observationManager.log[start..];
    assert db.observationManager.Observers(TestObjectTag, {1, 2}) == {1, 2};
    notified := Recipients(sent);
    assert |sent| == 2;
    values := [sent[0].values, sent[1].values];
  }

  /** An observer is counted while it is alive and no longer once its
      lifetime has ended, without being removed. */
  method DeallocatingObserver() returns (countBefore: nat, countAfter: nat, registry: Registry)
    ensures countBefore == 1 && countAfter == 0
    ensures TestObjectTag in registry && 1 in registry[TestObjectTag]
  {
    var db := EmptyDatabase();
    var observer: ObserverId := 1;
    var _ := db.AddObserver(observer, TestObjectTag);
    var tables := db.observationManager.observersDictionary;
    var empty: Registry := map[];
    assert tables == empty[TestObjectTag := {} + {observer}];
    GatherSplit(tables, tables.Keys, TestObjectTag, {observer});
    countBefore := db.observationManager.NumberOfObservers({observer});
    var _ := db.InsertObject(TestObjectTag, Foo, {});
    GatherSplit(tables, tables.Keys, TestObjectTag, {});
    countAfter := db.observationManager.NumberOfObservers({});
    registry := db.observationManager.observersDictionary;
  }
}
