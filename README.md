# SimpleDatabase: a typed record store in UserDefaults, modelled in Dafny

SimpleDatabase is the persistence layer of the Palettes app. It keeps records
of any `Codable` type that has a primary key. Each record type name has its
own partition of a UserDefaults suite. The suite key of the partition is the
type's name, and its value is the JSON encoding of the whole record list.
Every mutation follows the same steps:

1. read the type's list;
2. search it by primary key;
3. edit a local copy;
4. write the whole list back;
5. only then tell each observer of the type the new list, once.

Observers are held weakly. An observer whose lifetime has ended is no longer
counted or called, but it is never removed from the registry.

The model has five modules:

- `KeyedList` (keyed_list.dfy): the list searches the store uses. These are
  `first(where:)`, `firstIndex(where:)` and `remove(at:)`, specialised to a
  primary-key match. The module also has a reference definition,
  `WithoutKey`, and lemmas relating the searches and edits to it.
- `Store` (store.dfy): the stored value of one partition, and how `read`
  turns it into a list or a `readError`. It also has the list each of
  insert, update, upsert and delete writes back (or the error it throws),
  with the properties those edits promise:
  - each edit keeps primary keys unique;
  - an upsert acts as an insert or as an update;
  - upserting is idempotent;
  - lookups of other keys are unaffected.
- `Observation` (observation_manager.dfy): `ObservationManager` as a class
  with two fields. One is the registry (type key to observer set). The other
  is a log of the callbacks made.
- `Database` (database.dfy): `UserDefaultDatabase` as a class. It holds the
  suite as a map, the record type's primary-key function, the encoder's
  success condition, and the observation manager. Every public operation
  is a method or a function with a full contract.
- `Scenarios` (scenarios.dfy): the store's XCTest cases, replayed on an
  empty suite. Each postcondition implies what the test asserts. Where the
  test checks only a count, the postcondition usually gives the exact
  list.

Some things outside the model become parameters:

- JSON encoding becomes a predicate `canEncode`. Encoding fails exactly on
  the lists where it is false.
- Decoding becomes the stored `Value`. A value is either absent, not
  `Data`, `Data` that decodes to a list, or `Data` that does not decode.
- The lifetime of each observer becomes a set `live` of identities. Every
  operation that reads the registry is given this set.

## Model

| member | source | states |
|---|---|---|
| `KeyedList.FirstIndex` | Palettes/SimpleDatabase/UserDefaultsDatabase.swift:43 | `firstIndex(where:)` yields nil exactly when no record has the key; otherwise it yields an index holding the key, and no earlier index holds it |
| `KeyedList.FirstMatch` | Palettes/SimpleDatabase/UserDefaultsDatabase.swift:32 | `first(where:)` yields nil exactly when no record has the key; otherwise it yields a record with the key that no earlier record with the key precedes |
| `KeyedList.RemoveAt` | Palettes/SimpleDatabase/UserDefaultsDatabase.swift:47 | `remove(at:)` shortens the list by one; elements before `i` stay, and those after it move down one place |
| `KeyedList.WithoutKey` | Palettes/SimpleDatabase/UserDefaultsDatabase.swift:69 | reference deletion: the result holds no record with the key, every other record of the input is kept, and nothing else is added |
| `KeyedList.RemoveFirstIsWithoutKey` | Palettes/SimpleDatabase/UserDefaultsDatabase.swift:65-69 | on a key-unique list, removing the first match removes every record with the key, and the others keep their order |
| `KeyedList.WithoutAbsentKey` | Palettes/SimpleDatabase/UserDefaultsDatabase.swift:55-58 | filtering out a key nobody has leaves the list unchanged |
| `KeyedList.WithoutKeyAppend` | Palettes/SimpleDatabase/UserDefaultsDatabase.swift:58 | filtering distributes over concatenation |
| `KeyedList.RemoveAtKeepsUnique` | Palettes/SimpleDatabase/UserDefaultsDatabase.swift:47 | removing an element keeps a key-unique list key-unique |
| `KeyedList.AppendFreshKeepsUnique` | Palettes/SimpleDatabase/UserDefaultsDatabase.swift:32-36 | appending a record whose key is new keeps the list key-unique |
| `KeyedList.FirstMatchAppend` | Palettes/SimpleDatabase/UserDefaultsDatabase.swift:36 | a lookup after an append finds the old match if there was one, else the appended record when its key matches, else nothing |
| `KeyedList.FirstMatchRemoveOther` | Palettes/SimpleDatabase/UserDefaultsDatabase.swift:69 | removing a record with another key does not change what a lookup finds |
| `Store.Lookup` | Palettes/SimpleDatabase/UserDefaultsDatabase.swift:93-94 | a type key the suite does not hold reads as absent; a key it holds yields the value stored under it |
| `Store.Read` | Palettes/SimpleDatabase/UserDefaultsDatabase.swift:92-106 | an absent value reads as the empty list; a value that is not `Data`, or does not decode, is a `readError`, and those are the only failures; decodable data reads as its list |
| `Store.Inserted` | Palettes/SimpleDatabase/UserDefaultsDatabase.swift:30-36 | throws `duplicateFoundWhileTryingToInsert` exactly when the key is present; otherwise the old list with the record appended |
| `Store.Updated` | Palettes/SimpleDatabase/UserDefaultsDatabase.swift:41-48 | throws `objectNotFound` exactly when the key is absent; otherwise the length is unchanged, the first match is removed, the others keep their order, and the new record is last (the multiset is old minus the first match plus the new record) |
| `Store.Upserted` | Palettes/SimpleDatabase/UserDefaultsDatabase.swift:53-58 | never fails; the length grows by one exactly when the key was absent, and the new record is last |
| `Store.Deleted` | Palettes/SimpleDatabase/UserDefaultsDatabase.swift:63-69 | throws `objectNotFound` exactly when the key is absent; otherwise exactly the first match is removed and the others keep their order |
| `Store.FirstIndexMatches` | Palettes/SimpleDatabase/UserDefaultsDatabase.swift:32-43 | `firstIndex(where:)` and `first(where:)` agree on which record matches |
| `Store.InsertKeepsUnique` | Palettes/SimpleDatabase/UserDefaultsDatabase.swift:30-39 | insert keeps the partition key-unique, and a lookup of the key then finds the new record |
| `Store.UpdateKeepsUnique` | Palettes/SimpleDatabase/UserDefaultsDatabase.swift:41-51 | on a key-unique list, update is the list without the key plus the new record; it stays key-unique, and a lookup finds the new record |
| `Store.UpsertKeepsUnique` | Palettes/SimpleDatabase/UserDefaultsDatabase.swift:53-61 | after upsert exactly one record has the key: the new one, last, after the old list without that key in order; the list stays key-unique |
| `Store.UpsertIsInsertOrUpdate` | Palettes/SimpleDatabase/UserDefaultsDatabase.swift:53-61 | upsert writes what update writes when the key is present, and what insert writes when it is absent |
| `Store.UpsertIdempotent` | Palettes/SimpleDatabase/UserDefaultsDatabase.swift:53-61 | on a key-unique list, upserting the same record twice gives the list that upserting it once gives |
| `Store.DeleteKeepsUnique` | Palettes/SimpleDatabase/UserDefaultsDatabase.swift:63-72 | on a key-unique list, delete removes every record with the key, keeps the rest in order, and a lookup then finds nothing |
| `Store.OtherKeysUnaffected` | Palettes/SimpleDatabase/UserDefaultsDatabase.swift:30-72 | none of the four edits changes what a lookup of any other key finds |
| `Store.EditsKeepSuiteUnique` | Palettes/SimpleDatabase/UserDefaultsDatabase.swift:30-72 | when every partition of the suite is key-unique, the suite each successful insert, update, upsert or delete writes back is key-unique in every partition too |
| `Observation.Recipients` | Palettes/SimpleDatabase/ObservationManager.swift:27-29 | one recipient is counted per callback made |
| `Observation.RecipientsAppend` | Palettes/SimpleDatabase/ObservationManager.swift:34-39 | the recipients of two runs of callbacks are those of each run, added |
| `Observation.FanOutAppend` | Palettes/SimpleDatabase/ObservationManager.swift:34-39 | two runs of `databaseDidChange` with the same values, one after the other, reach the two target multisets added |
| `Observation.Registered` | Palettes/SimpleDatabase/ObservationManager.swift:43-46 | adding an observer creates the type's table if missing; the table then holds exactly its earlier members plus the observer, and every other table is left as it was |
| `Observation.RegisteredIdempotent` | Palettes/SimpleDatabase/ObservationManager.swift:44-45 | the table is a set: adding the same observer twice is adding it once |
| `Observation.GatherSplit` | Palettes/SimpleDatabase/ObservationManager.swift:18-20 | the live observers of all tables are the same multiset whichever table is visited first |
| `Observation.GatherStep` | Palettes/SimpleDatabase/ObservationManager.swift:33-39 | visiting one more table adds exactly its live members to those already visited |
| `Observation.GatherCount` | Palettes/SimpleDatabase/ObservationManager.swift:15-23 | an observer is counted once per table it is registered in while it is alive, and not at all once its lifetime has ended |
| `Observation.GatherAgree` | Palettes/SimpleDatabase/ObservationManager.swift:15-23 | registries that agree on the visited tables count the same observers |
| `Observation.RegisteredCount` | Palettes/SimpleDatabase/ObservationManager.swift:42-46 | after adding an observer the count grows by one exactly when the observer is alive and was not yet in the type's table; otherwise it is unchanged |
| `Observation.ObservationManager.constructor` | Palettes/SimpleDatabase/ObservationManager.swift:13 | a new manager has no tables and has made no callbacks |
| `Observation.ObservationManager.Observers` | Palettes/SimpleDatabase/ObservationManager.swift:53-59 | an observer is returned exactly when the type has a table, the observer is in it, and it is alive |
| `Observation.ObservationManager.NumberOfObservers` | Palettes/SimpleDatabase/ObservationManager.swift:15-23 | the count is the number of live members summed over every table, and the registry is not changed |
| `Observation.ObservationManager.Deliver` | Palettes/SimpleDatabase/ObservationManager.swift:27-29 | each target receives `databaseDidChange` with the values exactly once; earlier callbacks are kept |
| `Observation.ObservationManager.NotifyObservers` | Palettes/SimpleDatabase/ObservationManager.swift:25-30 | each live observer of the type receives the values exactly once and nobody else receives anything; no table means no callbacks |
| `Observation.ObservationManager.NotifyObserversOfDatabaseReset` | Palettes/SimpleDatabase/ObservationManager.swift:32-40 | every live member of every table receives the empty list once per table holding it, and there are no other callbacks |
| `Observation.ObservationManager.AddObserver` | Palettes/SimpleDatabase/ObservationManager.swift:42-48 | the observer joins its type's table and receives `databaseDidAddObserver` with the given values, once, as the only new callback |
| `Database.UserDefaultDatabase.constructor` | Palettes/SimpleDatabase/UserDefaultsDatabase.swift:20-28 | the store wraps the given suite and starts with an empty observation manager |
| `Database.UserDefaultDatabase.FetchObjects` | Palettes/SimpleDatabase/UserDefaultsDatabase.swift:79-81 | an unwritten or absent type reads as the empty list; only an unreadable value fails, with `readError`; otherwise the stored list |
| `Database.UserDefaultDatabase.FetchObject` | Palettes/SimpleDatabase/UserDefaultsDatabase.swift:74-77 | read errors propagate; nil exactly when no record of the type has the key; otherwise the first record with the key |
| `Database.UserDefaultDatabase.Write` | Palettes/SimpleDatabase/UserDefaultsDatabase.swift:108-115 | an encodable list replaces the type's value and nothing else; an unencodable one throws `writeError` and changes nothing |
| `Database.UserDefaultDatabase.NotifyObservers` | Palettes/SimpleDatabase/UserDefaultsDatabase.swift:117-122 | each live observer of the type receives the updated values exactly once |
| `Database.UserDefaultDatabase.InsertObject` | Palettes/SimpleDatabase/UserDefaultsDatabase.swift:30-39 | a read error or a duplicate key throws, with nothing written and nobody told; otherwise the type's partition, and only it, holds the appended list (or `writeError` with nothing changed), and each live observer is then told the whole new list once |
| `Database.UserDefaultDatabase.UpdateObject` | Palettes/SimpleDatabase/UserDefaultsDatabase.swift:41-51 | a read error or a missing key throws, with nothing changed; otherwise only this partition is rewritten with the updated list, and each live observer is told it once |
| `Database.UserDefaultDatabase.UpsertObject` | Palettes/SimpleDatabase/UserDefaultsDatabase.swift:53-61 | only a read or write error throws; otherwise only this partition is rewritten with the upserted list, and each live observer is told it once |
| `Database.UserDefaultDatabase.DeleteObject` | Palettes/SimpleDatabase/UserDefaultsDatabase.swift:63-72 | a read error or a missing key throws, with nothing changed; otherwise only this partition is rewritten without the first match, and each live observer is told it once |
| `Database.UserDefaultDatabase.AddObserver` | Palettes/SimpleDatabase/UserDefaultsDatabase.swift:83-87 | on a readable partition the observer is registered for the type and handed exactly the type's current list, once; on a read error `readError` is thrown |
| `Scenarios.InsertingDuplicateObjectThrows` | Palettes/SimpleDatabaseTests/DatabaseWriteTests.swift:35-44 | a second insert of the same key throws `duplicateFoundWhileTryingToInsert`, and the partition still holds the one record |
| `Scenarios.UpdateObject` | Palettes/SimpleDatabaseTests/DatabaseWriteTests.swift:46-57 | after an insert then an update, the partition holds one record, with the new name |
| `Scenarios.UpdatingNonExistentObjectThrows` | Palettes/SimpleDatabaseTests/DatabaseWriteTests.swift:59-67 | updating in an empty store throws `objectNotFound` |
| `Scenarios.UpsertingExistingObjectUpdatesIt` | Palettes/SimpleDatabaseTests/DatabaseWriteTests.swift:76-87 | two upserts under one key leave one record, with the second name |
| `Scenarios.DeleteObject` | Palettes/SimpleDatabaseTests/DatabaseWriteTests.swift:89-101 | deleting one of two records leaves exactly the other |
| `Scenarios.FetchObjectThatDoesNotExistInDatabase` | Palettes/SimpleDatabaseTests/DatabaseReadTests.swift:27-31 | fetching a key nobody inserted yields nil, not an error |
| `Scenarios.FetchObjectOfType` | Palettes/SimpleDatabaseTests/DatabaseReadTests.swift:33-40 | records of another type do not appear in a type's list |
| `Scenarios.AddingObserverToPopulatedDatabase` | Palettes/SimpleDatabaseTests/DatabaseObservationTests.swift:34-45 | an observer added after two inserts is handed both records |
| `Scenarios.MultipleObserversAreNotified` | Palettes/SimpleDatabaseTests/DatabaseObservationTests.swift:107-120 | both observers of the type are told about an insert once each, with the one record it leaves |
| `Scenarios.DeallocatingObserver` | Palettes/SimpleDatabaseTests/DatabaseObservationTests.swift:90-105 | an observer counts while it is alive, and stops counting when its lifetime ends, without being removed |

## Left out

- JSON encoding and decoding are not modelled byte by byte. A stored value
  is modelled as absent, non-`Data`, a decoded list, or undecodable `Data`.
  A value written by `write` reads back as the same list, which assumes
  `JSONDecoder` inverts `JSONEncoder`. Encoding success is the predicate
  `canEncode` given to the constructor.
- `UserDefaults` is a map from type key to value in the `defaults` field.
  Persistence to disk, and other processes sharing the suite, are not
  modelled.
- `String(describing: T)` is modelled as an explicit type-key parameter, a
  string, on every operation. The Swift generic parameter `T` has no
  counterpart; one `UserDefaultDatabase` instance holds records of one
  Dafny type `R`. `String(describing:)` gives a type's unqualified name, so
  two types with the same simple name share one partition. For example,
  the top-level `TestObject` of the test target and the nested
  `UserDefaultsDatabaseTests.TestObject` share it. The partition
  statements (`Database.UserDefaultDatabase.InsertObject` and the other
  mutations, `Store.EditsKeepSuiteUnique` and
  `Scenarios.FetchObjectOfType`) are about distinct tags, not distinct
  types.
- Weak references, ARC and `autoreleasepool` are modelled by the `live`
  parameter, the identities whose objects still exist. Identities are
  assumed never to be reused.
- Hash-table and dictionary iteration order is not modelled. The callbacks
  of one notification are stated as a multiset of recipients, not a
  sequence.
- The `String` messages that the error cases carry are left out.
- `Database.UserDefaultDatabase.AddObserver` reads the partition before
  registering, and registers only when the read succeeds. The Swift code
  (UserDefaultsDatabase.swift:84-86) registers first, so when the read
  throws the observer stays registered. The Swift code also calls the
  manager with two arguments, which does not match the three-argument
  `addObserver(_:forType:withInitialValues:)` in ObservationManager.swift.
  The model passes the list read to the manager, which delivers it once.
- `Database.UserDefaultDatabase.NotifyObservers` goes through the manager's
  `notifyObservers`. The Swift private helper calls `observers(forType:)`
  directly, and the two loops do the same thing.
- The `Database` protocol (Database.swift) is not part of this model.
  Nor is the batch `upsertObjects` that the read tests call
  (DatabaseReadTests.swift:22), which the source does not define.
  There is no database-wide reset in the source either.
  `Observation.ObservationManager.NotifyObserversOfDatabaseReset` models
  only the manager's notification. The app's UIKit code is not part of
  this model.
- `Store.UpsertKeepsUnique`, `Store.UpdateKeepsUnique`,
  `Store.DeleteKeepsUnique` and `Store.UpsertIdempotent` hold only for
  key-unique lists. The constructor accepts any suite, and on a list that
  already has duplicate keys the store writes duplicates back. Upsert is
  then not idempotent either: upserting `(1, 30)` into
  `[(1, 10), (1, 20)]` gives `[(1, 20), (1, 30)]`, and upserting it again
  gives `[(1, 30), (1, 30)]`. `Store.EditsKeepSuiteUnique` shows that the
  store keeps every partition key-unique when every partition starts that
  way, as an empty suite does. For any list, `Store.Updated` and
  `Store.Deleted` still state the result: exactly the first match is
  removed.
- Observer callbacks (`databaseDidAddObserver`, `databaseDidChange`) are
  modelled as having no effect beyond their entry in the log. In Swift
  they run the observer's own code inline, and that code may call back
  into the store or the manager. The contracts of the notifying
  operations assume that no callback does so. These contracts say that
  nothing else changes and that nobody else is called.
