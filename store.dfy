/** The values kept in the UserDefaults suite, how a partition is read back,
    and what each mutation of the store does to one partition's record list. */
module Store {
  import opened KeyedList

  /** `String(describing: T)`: the name of a record type, used as the suite key
      of that type's partition. */
  type TypeTag = string

  /** `UserDefaultDatabaseError`. The Swift cases also carry a message. */
  datatype Error =
    | DuplicateFoundWhileTryingToInsert
    | ObjectNotFound
    | ReadError
    | WriteError

  datatype Result<T> = Success(value: T) | Failure(error: Error)

  /** What `defaults.value(forKey:)` holds for one type's key: nothing, an
      object that is not `Data`, `Data` that decodes to a record list, or
      `Data` that does not decode as a list of that type. */
  datatype Value<R> = Absent | NonData | Data(records: seq<R>) | Undecodable

  /** The UserDefaults suite: one stored value per type key. */
  type Suite<R> = map<TypeTag, Value<R>>

  function Lookup<R>(suite: Suite<R>, tag: TypeTag): (v: Value<R>)
    ensures tag !in suite ==> v.Absent?
    ensures tag in suite ==> v == suite[tag]
  {
    if tag in suite then suite[tag] else Absent
  }

  /** The private `read(objectsOfType:)`, after the lookup: an absent
      partition is an empty list; anything that is not decodable `Data` is a
      `readError`. */
  function Read<R>(v: Value<R>): (r: Result<seq<R>>)
    ensures v.Absent? ==> r == Success([])
    ensures r.Failure? <==> v.NonData? || v.Undecodable?
    ensures r.Failure? ==> r.error == ReadError
    ensures v.Data? ==> r == Success(v.records)
  {
    match v
    case Absent => Success([])
    case NonData => Failure(ReadError)
    case Data(records) => Success(records)
    case Undecodable => Failure(ReadError)
  }

  /** The list `insertObject` writes back: refused when the key is taken,
      otherwise the new record goes last. */
  function Inserted<R, K(==)>(s: seq<R>, key: R -> K, x: R): (r: Result<seq<R>>)
    ensures r.Failure? <==> HasKey(s, key, key(x))
    ensures r.Failure? ==> r.error == DuplicateFoundWhileTryingToInsert
    ensures r.Success? ==> |r.value| == |s| + 1 && r.value[..|s|] == s && r.value[|s|] == x
  {
    if FirstMatch(s, key, key(x)).Some? then Failure(DuplicateFoundWhileTryingToInsert)
    else Success(s + [x])
  }

  /** The list `updateObject` writes back: refused when the key is missing,
      otherwise the first record with that key is taken out and the new one
      goes last. */
  function Updated<R, K(==)>(s: seq<R>, key: R -> K, x: R): (r: Result<seq<R>>)
    ensures r.Failure? <==> !HasKey(s, key, key(x))
    ensures r.Failure? ==> r.error == ObjectNotFound
    ensures r.Success? ==> |r.value| == |s| && r.value[|s| - 1] == x
    ensures r.Success? ==> var i := FirstIndex(s, key, key(x)).value;
                           forall p :: 0 <= p < |s| - 1 ==> r.value[p] == s[if p < i then p else p + 1]
    ensures r.Success? ==> multiset(r.value) ==
                           multiset(s) - multiset{FirstMatch(s, key, key(x)).value} + multiset{x}
  {
    match FirstIndex(s, key, key(x))
    case None => Failure(ObjectNotFound)
    case Some(i) =>
      assert s == s[..i] + [s[i]] + s[i + 1..];
      assert FirstMatch(s, key, key(x)) == Some(s[i]) by { FirstIndexMatches(s, key, key(x)); }
      Success(RemoveAt(s, i) + [x])
  }

  /** The list `upsertObject` writes back: never refused; the first record with
      the key, if any, is taken out and the new one goes last. */
  function Upserted<R, K(==)>(s: seq<R>, key: R -> K, x: R): (r: seq<R>)
    ensures |r| == if HasKey(s, key, key(x)) then |s| else |s| + 1
    ensures r[|r| - 1] == x
  {
    match FirstIndex(s, key, key(x))
    case None => s + [x]
    case Some(i) => RemoveAt(s, i) + [x]
  }

  /** The list `deleteObject` writes back: refused when the key is missing,
      otherwise the first record with that key is taken out. */
  function Deleted<R, K(==)>(s: seq<R>, key: R -> K, x: R): (r: Result<seq<R>>)
    ensures r.Failure? <==> !HasKey(s, key, key(x))
    ensures r.Failure? ==> r.error == ObjectNotFound
    ensures r.Success? ==> |r.value| == |s| - 1
    ensures r.Success? ==> var i := FirstIndex(s, key, key(x)).value;
                           forall p :: 0 <= p < |r.value| ==> r.value[p] == s[if p < i then p else p + 1]
    ensures r.Success? ==> multiset(r.value) == multiset(s) - multiset{FirstMatch(s, key, key(x)).value}
  {
    match FirstIndex(s, key, key(x))
    case None => Failure(ObjectNotFound)
    case Some(i) =>
      assert s == s[..i] + [s[i]] + s[i + 1..];
      assert FirstMatch(s, key, key(x)) == Some(s[i]) by { FirstIndexMatches(s, key, key(x)); }
      Success(RemoveAt(s, i))
  }

  /** `firstIndex(where:)` and `first(where:)` agree. */
  lemma {:induction false} FirstIndexMatches<R, K>(s: seq<R>, key: R -> K, k: K)
    ensures FirstIndex(s, key, k).Some? ==> FirstMatch(s, key, k) == Some(s[FirstIndex(s, key, k).value])
  {
    if |s| > 0 && key(s[0]) != k {
      FirstIndexMatches(s[1..], key, k);
    }
  }

  /** `insertObject` keeps the list key-unique, and the new record is what a
      lookup of its key then finds. */
  lemma InsertKeepsUnique<R, K>(s: seq<R>, key: R -> K, x: R)
    requires KeyUnique(s, key) && Inserted(s, key, x).Success?
    ensures KeyUnique(Inserted(s, key, x).value, key)
    ensures FirstMatch(Inserted(s, key, x).value, key, key(x)) == Some(x)
  {
    AppendFreshKeepsUnique(s, key, x);
    FirstMatchAppend(s, key, x, key(x));
  }

  /** On a key-unique list `updateObject` replaces the one record with the
      key: the others stay in their order, the new record is last, and it is
      what a lookup of its key then finds. */
  lemma UpdateKeepsUnique<R, K>(s: seq<R>, key: R -> K, x: R)
    requires KeyUnique(s, key) && Updated(s, key, x).Success?
    ensures Updated(s, key, x).value == WithoutKey(s, key, key(x)) + [x]
    ensures KeyUnique(Updated(s, key, x).value, key)
    ensures FirstMatch(Updated(s, key, x).value, key, key(x)) == Some(x)
  {
    var i := FirstIndex(s, key, key(x)).value;
    RemoveFirstIsWithoutKey(s, key, key(x), i);
    RemoveAtKeepsUnique(s, key, i);
    AppendFreshKeepsUnique(RemoveAt(s, i), key, x);
    FirstMatchAppend(RemoveAt(s, i), key, x, key(x));
  }

  /** On a key-unique list, after `upsertObject` exactly one record has the
      key, it is the new one, it is last, and the rest is the old list
      without that key, in order. */
  lemma UpsertKeepsUnique<R, K>(s: seq<R>, key: R -> K, x: R)
    requires KeyUnique(s, key)
    ensures Upserted(s, key, x) == WithoutKey(s, key, key(x)) + [x]
    ensures KeyUnique(Upserted(s, key, x), key)
    ensures forall i :: 0 <= i < |Upserted(s, key, x)| - 1 ==> key(Upserted(s, key, x)[i]) != key(x)
    ensures FirstMatch(Upserted(s, key, x), key, key(x)) == Some(x)
  {
    var w := WithoutKey(s, key, key(x));
    var found := FirstIndex(s, key, key(x));
    if found.Some? {
      RemoveFirstIsWithoutKey(s, key, key(x), found.value);
      RemoveAtKeepsUnique(s, key, found.value);
    } else {
      WithoutAbsentKey(s, key, key(x));
    }
    assert KeyUnique(w, key);
    AppendFreshKeepsUnique(w, key, x);
    FirstMatchAppend(w, key, x, key(x));
    forall i | 0 <= i < |w + [x]| - 1 ensures key((w + [x])[i]) != key(x) {
      assert (w + [x])[i] == w[i];
    }
  }

  /** Upserting is inserting when the key is new and updating when it is not. */
  lemma UpsertIsInsertOrUpdate<R, K>(s: seq<R>, key: R -> K, x: R)
    ensures HasKey(s, key, key(x)) ==> Upserted(s, key, x) == Updated(s, key, x).value
    ensures !HasKey(s, key, key(x)) ==> Upserted(s, key, x) == Inserted(s, key, x).value
  {
  }

  /** Upserting the same record twice leaves the list as upserting it once. */
  lemma UpsertIdempotent<R, K>(s: seq<R>, key: R -> K, x: R)
    requires KeyUnique(s, key)
    ensures Upserted(Upserted(s, key, x), key, x) == Upserted(s, key, x)
  {
    var w := WithoutKey(s, key, key(x));
    UpsertKeepsUnique(s, key, x);
    UpsertKeepsUnique(w + [x], key, x);
    WithoutKeyAppend(w, [x], key, key(x));
    WithoutAbsentKey(w, key, key(x));
    assert WithoutKey([x], key, key(x)) == [];
  }

  /** On a key-unique list `deleteObject` removes every record with the key
      and keeps all the others in their order. */
  lemma DeleteKeepsUnique<R, K>(s: seq<R>, key: R -> K, x: R)
    requires KeyUnique(s, key) && Deleted(s, key, x).Success?
    ensures Deleted(s, key, x).value == WithoutKey(s, key, key(x))
    ensures KeyUnique(Deleted(s, key, x).value, key)
    ensures FirstMatch(Deleted(s, key, x).value, key, key(x)) == None
  {
    var i := FirstIndex(s, key, key(x)).value;
    RemoveFirstIsWithoutKey(s, key, key(x), i);
    RemoveAtKeepsUnique(s, key, i);
  }

  /** None of the four mutations changes what a lookup of another key finds,
      whether or not the list is key-unique. */
  lemma OtherKeysUnaffected<R, K>(s: seq<R>, key: R -> K, x: R, k: K)
    requires k != key(x)
    ensures Inserted(s, key, x).Success? ==> FirstMatch(Inserted(s, key, x).value, key, k) == FirstMatch(s, key, k)
    ensures Updated(s, key, x).Success? ==> FirstMatch(Updated(s, key, x).value, key, k) == FirstMatch(s, key, k)
    ensures FirstMatch(Upserted(s, key, x), key, k) == FirstMatch(s, key, k)
    ensures Deleted(s, key, x).Success? ==> FirstMatch(Deleted(s, key, x).value, key, k) == FirstMatch(s, key, k)
  {
    FirstMatchAppend(s, key, x, k);
    match FirstIndex(s, key, key(x))
    case None =>
    case Some(i) =>
      var t := RemoveAt(s, i);
      FirstMatchRemoveOther(s, key, i, k);
      FirstMatchAppend(t, key, x, k);
      assert HasKey(s, key, k) ==> HasKey(t, key, k) by {
        if HasKey(s, key, k) {
          var j :| 0 <= j < |s| && key(s[j]) == k;
          assert j != i;
          assert t[if j < i then j else j - 1] == s[j];
        }
      }
      assert !HasKey(s, key, k) ==> !HasKey(t, key, k) by {
        if HasKey(t, key, k) {
          var j :| 0 <= j < |t| && key(t[j]) == k;
          assert t[j] == s[if j < i then j else j + 1];
        }
      }
  }

  /** Every partition of the suite that holds a decoded list is key-unique. */
  predicate SuiteUnique<R, K(==)>(suite: Suite<R>, key: R -> K)
  {
    forall t :: t in suite && suite[t].Data? ==> KeyUnique(suite[t].records, key)
  }

  lemma WriteKeepsSuiteUnique<R, K>(suite: Suite<R>, tag: TypeTag, key: R -> K, objects: seq<R>)
    requires SuiteUnique(suite, key) && KeyUnique(objects, key)
    ensures SuiteUnique(suite[tag := Data(objects)], key)
  {
  }

  /** Starting from a suite whose partitions are all key-unique (an empty
      suite is one), each of the four mutations writes back a suite whose
      partitions are still all key-unique. */
  lemma EditsKeepSuiteUnique<R, K>(suite: Suite<R>, tag: TypeTag, key: R -> K, x: R)
    requires SuiteUnique(suite, key) && Read(Lookup(suite, tag)).Success?
    ensures var s := Read(Lookup(suite, tag)).value;
            Inserted(s, key, x).Success? ==> SuiteUnique(suite[tag := Data(Inserted(s, key, x).value)], key)
    ensures var s := Read(Lookup(suite, tag)).value;
            Updated(s, key, x).Success? ==> SuiteUnique(suite[tag := Data(Updated(s, key, x).value)], key)
    ensures var s := Read(Lookup(suite, tag)).value;
            SuiteUnique(suite[tag := Data(Upserted(s, key, x))], key)
    ensures var s := Read(Lookup(suite, tag)).value;
            Deleted(s, key, x).Success? ==> SuiteUnique(suite[tag := Data(Deleted(s, key, x).value)], key)
  {
    var s := Read(Lookup(suite, tag)).value;
    assert KeyUnique(s, key);
    if Inserted(s, key, x).Success? {
      InsertKeepsUnique(s, key, x);
      WriteKeepsSuiteUnique(suite, tag, key, Inserted(s, key, x).value);
    }
    if Updated(s, key, x).Success? {
      UpdateKeepsUnique(s, key, x);
      WriteKeepsSuiteUnique(suite, tag, key, Updated(s, key, x).value);
    }
    UpsertKeepsUnique(s, key, x);
    WriteKeepsSuiteUnique(suite, tag, key, Upserted(s, key, x));
    if Deleted(s, key, x).Success? {
      DeleteKeepsUnique(s, key, x);
      WriteKeepsSuiteUnique(suite, tag, key, Deleted(s, key, x).value);
    }
  }
}
