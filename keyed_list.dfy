/** Searching and editing an ordered list of records by primary key.

    A record type R carries a primary key of an equality type K, read through
    `key` (the `UniquelyIdentifiable.primaryKey` requirement). The functions
    here are the Swift standard-library calls the store is written with:
    `first(where:)`, `firstIndex(where:)` and `remove(at:)`, each specialised
    to "the key equals k". */
module KeyedList {

  datatype Option<T> = None | Some(value: T)

  /** Some record of `s` has primary key `k`. */
  predicate HasKey<R, K(==)>(s: seq<R>, key: R -> K, k: K)
  {
    exists i :: 0 <= i < |s| && key(s[i]) == k
  }

  /** No two records of `s` share a primary key. */
  predicate KeyUnique<R, K(==)>(s: seq<R>, key: R -> K)
  {
    forall i, j :: 0 <= i < j < |s| ==> key(s[i]) != key(s[j])
  }

  /** `firstIndex(where: { $0.primaryKey == k })` */
  function FirstIndex<R, K(==)>(s: seq<R>, key: R -> K, k: K): (r: Option<nat>)
    ensures r.None? <==> !HasKey(s, key, k)
    ensures r.Some? ==> r.value < |s| && key(s[r.value]) == k
    ensures r.Some? ==> forall j :: 0 <= j < r.value ==> key(s[j]) != k
  {
    if |s| == 0 then None
    else if key(s[0]) == k then Some(0)
    else
      match FirstIndex(s[1..], key, k)
      case None => None
      case Some(i) => Some(i + 1)
  }

  /** `first(where: { $0.primaryKey == k })` */
  function FirstMatch<R, K(==)>(s: seq<R>, key: R -> K, k: K): (r: Option<R>)
    ensures r.None? <==> !HasKey(s, key, k)
    ensures r.Some? ==> exists i :: 0 <= i < |s| && s[i] == r.value && key(s[i]) == k &&
                                    forall j :: 0 <= j < i ==> key(s[j]) != k
  {
    if |s| == 0 then None
    else if key(s[0]) == k then Some(s[0])
    else
      var r := FirstMatch(s[1..], key, k);
      assert r.Some? ==> exists i :: 0 <= i < |s[1..]| && s[1..][i] == r.value && key(s[1..][i]) == k &&
                                     forall j :: 0 <= j < i ==> key(s[1..][j]) != k;
      r
  }

  /** `remove(at: i)`: the element at `i` goes, the ones after it move down by one. */
  function RemoveAt<R>(s: seq<R>, i: nat): (r: seq<R>)
    requires i < |s|
    ensures |r| == |s| - 1
    ensures forall p :: 0 <= p < i ==> r[p] == s[p]
    ensures forall p :: i <= p < |r| ==> r[p] == s[p + 1]
  {
    s[..i] + s[i + 1..]
  }

  /** The reference notion of deletion by key: keep, in order, exactly the
      records whose key is not `k`. */
  function WithoutKey<R, K(==)>(s: seq<R>, key: R -> K, k: K): (r: seq<R>)
    ensures |r| <= |s|
    ensures !HasKey(r, key, k)
    ensures forall i :: 0 <= i < |r| ==> r[i] in s && key(r[i]) != k
    ensures forall i :: 0 <= i < |s| && key(s[i]) != k ==> s[i] in r
  {
    if |s| == 0 then []
    else if key(s[0]) == k then WithoutKey(s[1..], key, k)
    else [s[0]] + WithoutKey(s[1..], key, k)
  }

  lemma {:induction false} WithoutAbsentKey<R, K>(s: seq<R>, key: R -> K, k: K)
    requires !HasKey(s, key, k)
    ensures WithoutKey(s, key, k) == s
  {
    if |s| > 0 {
      assert key(s[0]) != k;
      assert !HasKey(s[1..], key, k) by {
        forall i | 0 <= i < |s[1..]| ensures key(s[1..][i]) != k {
          assert s[1..][i] == s[i + 1];
        }
      }
      WithoutAbsentKey(s[1..], key, k);
      assert s == [s[0]] + s[1..];
    }
  }

  lemma {:induction false} WithoutKeyAppend<R, K>(s: seq<R>, t: seq<R>, key: R -> K, k: K)
    ensures WithoutKey(s + t, key, k) == WithoutKey(s, key, k) + WithoutKey(t, key, k)
  {
    if |s| > 0 {
      assert (s + t)[0] == s[0];
      assert (s + t)[1..] == s[1..] + t;
      WithoutKeyAppend(s[1..], t, key, k);
    } else {
      assert s + t == t;
    }
  }

  /** On a key-unique list, removing the first record with key `k` removes
      every record with key `k`. */
  lemma {:induction false} RemoveFirstIsWithoutKey<R, K>(s: seq<R>, key: R -> K, k: K, i: nat)
    requires KeyUnique(s, key)
    requires FirstIndex(s, key, k) == Some(i)
    ensures RemoveAt(s, i) == WithoutKey(s, key, k)
  {
    if i == 0 {
      assert !HasKey(s[1..], key, k) by {
        forall p | 0 <= p < |s[1..]| ensures key(s[1..][p]) != k {
          assert s[1..][p] == s[p + 1];
        }
      }
      WithoutAbsentKey(s[1..], key, k);
      assert RemoveAt(s, 0) == s[1..];
    } else {
      assert key(s[0]) != k;
      var t := s[1..];
      assert KeyUnique(t, key) by {
        forall p, q | 0 <= p < q < |t| ensures key(t[p]) != key(t[q]) {
          assert t[p] == s[p + 1] && t[q] == s[q + 1];
        }
      }
      assert FirstIndex(t, key, k) == Some(i - 1);
      RemoveFirstIsWithoutKey(t, key, k, i - 1);
      assert RemoveAt(s, i) == [s[0]] + RemoveAt(t, i - 1);
    }
  }

  lemma RemoveAtKeepsUnique<R, K>(s: seq<R>, key: R -> K, i: nat)
    requires i < |s| && KeyUnique(s, key)
    ensures KeyUnique(RemoveAt(s, i), key)
  {
    var r := RemoveAt(s, i);
    forall p, q | 0 <= p < q < |r| ensures key(r[p]) != key(r[q]) {
      var p' := if p < i then p else p + 1;
      var q' := if q < i then q else q + 1;
      assert r[p] == s[p'] && r[q] == s[q'] && p' < q';
    }
  }

  lemma AppendFreshKeepsUnique<R, K>(s: seq<R>, key: R -> K, x: R)
    requires KeyUnique(s, key) && !HasKey(s, key, key(x))
    ensures KeyUnique(s + [x], key)
  {
    var t := s + [x];
    forall p, q | 0 <= p < q < |t| ensures key(t[p]) != key(t[q]) {
      if q == |s| {
        assert t[p] == s[p];
      } else {
        assert t[p] == s[p] && t[q] == s[q];
      }
    }
  }

  /** Looking a key up after one record was appended. */
  lemma {:induction false} FirstMatchAppend<R, K>(s: seq<R>, key: R -> K, y: R, k: K)
    ensures FirstMatch(s + [y], key, k) ==
            if HasKey(s, key, k) then FirstMatch(s, key, k)
            else if key(y) == k then Some(y) else None
  {
    if |s| == 0 {
      assert s + [y] == [y];
    } else {
      assert (s + [y])[0] == s[0];
      assert (s + [y])[1..] == s[1..] + [y];
      if key(s[0]) != k {
        FirstMatchAppend(s[1..], key, y, k);
        assert HasKey(s, key, k) <==> HasKey(s[1..], key, k) by {
          if HasKey(s, key, k) {
            var i :| 0 <= i < |s| && key(s[i]) == k;
            assert s[1..][i - 1] == s[i];
          }
          if HasKey(s[1..], key, k) {
            var i :| 0 <= i < |s[1..]| && key(s[1..][i]) == k;
            assert s[1..][i] == s[i + 1];
          }
        }
      }
    }
  }

  /** Removing a record whose key is not `k` does not change which record a
      lookup of `k` finds. */
  lemma {:induction false} FirstMatchRemoveOther<R, K>(s: seq<R>, key: R -> K, i: nat, k: K)
    requires i < |s| && key(s[i]) != k
    ensures FirstMatch(RemoveAt(s, i), key, k) == FirstMatch(s, key, k)
  {
    if i == 0 {
      assert RemoveAt(s, 0) == s[1..];
    } else {
      var t := s[1..];
      assert RemoveAt(s, i) == [s[0]] + RemoveAt(t, i - 1);
      assert ([s[0]] + RemoveAt(t, i - 1))[1..] == RemoveAt(t, i - 1);
      if key(s[0]) != k {
        FirstMatchRemoveOther(t, key, i - 1, k);
      }
    }
  }
}
