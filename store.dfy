/**
 * mock_store.go: the in-memory `Store` — key records by key id, a rotation
 * counter and an injectable rotation error.
 */
module Store {
  import opened Wrappers
  import opened Types

  /** `data` after a successful `Rotate(newKey, oldKey)`: the stored record named by `oldKey` is deactivated, then `newKey` is put under its id. */
  function RotatedData(data: map<string, Key>, newKey: Key, oldKey: Option<Key>): (d: map<string, Key>)
    ensures d.Keys == data.Keys + {newKey.kid}
    ensures newKey.kid in d && d[newKey.kid] == newKey
    ensures forall kid :: kid in data && kid != newKey.kid ==>
      d[kid] == (if oldKey.Some? && kid == oldKey.value.kid then data[kid].(isActive := false) else data[kid])
  {
    var cleared := if oldKey.Some? && oldKey.value.kid in data
      then data[oldKey.value.kid := data[oldKey.value.kid].(isActive := false)]
      else data;
    cleared[newKey.kid := newKey]
  }

  /** Every record is stored under its own key id. */
  ghost predicate KeyedById(data: map<string, Key>)
  {
    forall kid :: kid in data ==> data[kid].kid == kid
  }

  predicate ActiveFor(k: Key, alg: Alg)
  {
    k.alg == alg && k.isActive
  }

  /** The ids of the active records for `alg`. */
  function ActiveKids(data: map<string, Key>, alg: Alg): set<string>
  {
    set kid | kid in data && ActiveFor(data[kid], alg)
  }

  /** No algorithm has two active records. */
  ghost predicate AtMostOneActive(data: map<string, Key>)
  {
    forall k1, k2 :: k1 in data && k2 in data && data[k1].isActive && data[k2].isActive && data[k1].alg == data[k2].alg ==> k1 == k2
  }

  /** `alg` has at most one active record. */
  ghost predicate OneActiveFor(data: map<string, Key>, alg: Alg)
  {
    forall k1, k2 :: k1 in data && k2 in data && ActiveFor(data[k1], alg) && ActiveFor(data[k2], alg) ==> k1 == k2
  }

  /** `OneActiveFor` says that the active ids of `alg` number at most one. */
  lemma OneActiveForCard(data: map<string, Key>, alg: Alg)
    ensures OneActiveFor(data, alg) <==> |ActiveKids(data, alg)| <= 1
  {
    var ids := ActiveKids(data, alg);
    if OneActiveFor(data, alg) && ids != {} {
      var k :| k in ids;
      assert ids == {k};
    }
    if !OneActiveFor(data, alg) {
      var k1, k2 :| k1 in data && k2 in data && ActiveFor(data[k1], alg) && ActiveFor(data[k2], alg) && k1 != k2;
      assert {k1, k2} <= ids;
      assert |{k1, k2}| == 2;
      SubsetCard({k1, k2}, ids);
    }
  }

  lemma SubsetCard<T>(a: set<T>, b: set<T>)
    requires a <= b
    ensures |a| <= |b|
  {
    assert b == a + (b - a);
  }

  /**
   * The preconditions `KeyManager.Rotate` establishes before it calls
   * `Rotate`: at most one active record for the new record's algorithm,
   * whatever the other algorithms hold.
   */
  ghost predicate RotationPre(data: map<string, Key>, newKey: Key, oldKey: Option<Key>)
  {
    && KeyedById(data) && OneActiveFor(data, newKey.alg)
    && newKey.isActive && newKey.kid !in data
    && (oldKey.Some? ==> oldKey.value.kid in data && ActiveFor(data[oldKey.value.kid], newKey.alg))
    && (oldKey.None? ==> ActiveKids(data, newKey.alg) == {})
  }

  /**
   * A rotation that deactivates the active record of `newKey.alg` (if any) and
   * adds an active record under a fresh id leaves the new record the only
   * active one for its algorithm, and one record more stored.
   */
  lemma RotationActivatesNew(data: map<string, Key>, newKey: Key, oldKey: Option<Key>)
    requires RotationPre(data, newKey, oldKey)
    ensures var d := RotatedData(data, newKey, oldKey);
      && KeyedById(d)
      && ActiveKids(d, newKey.alg) == {newKey.kid}
      && |d| == |data| + 1
  {
    RotatedKeyedById(data, newKey, oldKey);
    RotatedActiveKids(data, newKey, oldKey);
    RotatedSize(data, newKey, oldKey);
  }

  lemma RotatedKeyedById(data: map<string, Key>, newKey: Key, oldKey: Option<Key>)
    requires KeyedById(data)
    ensures KeyedById(RotatedData(data, newKey, oldKey))
  {
  }

  lemma RotatedActiveKids(data: map<string, Key>, newKey: Key, oldKey: Option<Key>)
    requires RotationPre(data, newKey, oldKey)
    ensures ActiveKids(RotatedData(data, newKey, oldKey), newKey.alg) == {newKey.kid}
  {
    var d := RotatedData(data, newKey, oldKey);
    forall kid | kid in d && ActiveFor(d[kid], newKey.alg) ensures kid == newKey.kid {
      if kid != newKey.kid {
        assert false;
      }
    }
  }

  lemma RotatedSize(data: map<string, Key>, newKey: Key, oldKey: Option<Key>)
    requires newKey.kid !in data
    ensures |RotatedData(data, newKey, oldKey)| == |data| + 1
  {
    var d := RotatedData(data, newKey, oldKey);
    assert d.Keys == data.Keys + {newKey.kid};
    assert |d.Keys| == |data.Keys| + 1;
  }

  /** The same rotation leaves the active records of every other algorithm as they were. */
  lemma RotationKeepsOthers(data: map<string, Key>, newKey: Key, oldKey: Option<Key>, alg: Alg)
    requires RotationPre(data, newKey, oldKey) && alg != newKey.alg
    ensures ActiveKids(RotatedData(data, newKey, oldKey), alg) == ActiveKids(data, alg)
  {
  }

  /** And so at most one record per algorithm stays active. */
  lemma RotationKeepsOneActive(data: map<string, Key>, newKey: Key, oldKey: Option<Key>)
    requires RotationPre(data, newKey, oldKey) && AtMostOneActive(data)
    ensures AtMostOneActive(RotatedData(data, newKey, oldKey))
  {
    var d := RotatedData(data, newKey, oldKey);
    RotationActivatesNew(data, newKey, oldKey);
    forall k1, k2 | k1 in d && k2 in d && d[k1].isActive && d[k2].isActive && d[k1].alg == d[k2].alg
      ensures k1 == k2
    {
      if d[k1].alg == newKey.alg {
        assert k1 in ActiveKids(d, newKey.alg) && k2 in ActiveKids(d, newKey.alg);
      } else {
        assert k1 != newKey.kid && k2 != newKey.kid;
        assert data[k1].isActive && data[k2].isActive;
      }
    }
  }

  /** Whether some stored record is active for `alg`. */
  ghost predicate HasActive(data: map<string, Key>, alg: Alg)
  {
    exists kid :: kid in data && ActiveFor(data[kid], alg)
  }

  /**
   * A rotation for one algorithm, under a fresh id, that deactivates only a
   * record of that algorithm, changes no other algorithm's having an active
   * record: no record of another algorithm is activated, and none is
   * deactivated or overwritten.
   */
  lemma RotationOthersActive(data: map<string, Key>, newKey: Key, oldKey: Option<Key>, alg: Alg)
    requires alg != newKey.alg && newKey.kid !in data
    requires oldKey.Some? && oldKey.value.kid in data ==> data[oldKey.value.kid].alg == newKey.alg
    ensures HasActive(RotatedData(data, newKey, oldKey), alg) <==> HasActive(data, alg)
  {
    var d := RotatedData(data, newKey, oldKey);
    if HasActive(data, alg) {
      var kid :| kid in data && ActiveFor(data[kid], alg);
      assert kid != newKey.kid && d[kid] == data[kid];
    }
    if HasActive(d, alg) {
      var kid :| kid in d && ActiveFor(d[kid], alg);
      assert kid in data && ActiveFor(data[kid], alg);
    }
  }

  /** `Rotate(newKey, nil)` with no prior active record is a plain insertion. */
  lemma RotationWithoutOld(data: map<string, Key>, newKey: Key)
    ensures RotatedData(data, newKey, None) == data[newKey.kid := newKey]
  {
  }

  /** Deactivation is keyed by id: an `oldKey` record absent from the store changes nothing but the insertion. */
  lemma RotationUnknownOld(data: map<string, Key>, newKey: Key, oldKey: Key)
    requires oldKey.kid !in data
    ensures RotatedData(data, newKey, Some(oldKey)) == RotatedData(data, newKey, None)
  {
  }

  predicate DistinctKids(keys: seq<Key>)
  {
    forall i, j :: 0 <= i < j < |keys| ==> keys[i].kid != keys[j].kid
  }

  /** `keys` lists the records of `data`: each once, and nothing else. */
  ghost predicate IsListing(data: map<string, Key>, keys: seq<Key>)
  {
    && DistinctKids(keys)
    && (forall i :: 0 <= i < |keys| ==> keys[i].kid in data && data[keys[i].kid] == keys[i])
    && (forall kid :: kid in data ==> exists i :: 0 <= i < |keys| && keys[i].kid == kid)
  }

  /** A listing has one entry per stored record. */
  lemma {:induction false} ListingSize(data: map<string, Key>, keys: seq<Key>)
    requires IsListing(data, keys)
    ensures |keys| == |data|
  {
    var kids := set i | 0 <= i < |keys| :: keys[i].kid;
    assert kids == data.Keys;
    KidsCard(keys);
  }

  lemma {:induction false} KidsCard(keys: seq<Key>)
    requires DistinctKids(keys)
    ensures |set i | 0 <= i < |keys| :: keys[i].kid| == |keys|
  {
    if keys != [] {
      var init := keys[..|keys| - 1];
      KidsCard(init);
      var s := set i | 0 <= i < |keys| :: keys[i].kid;
      var s0 := set i | 0 <= i < |init| :: init[i].kid;
      assert s == s0 + {keys[|keys| - 1].kid};
      assert keys[|keys| - 1].kid !in s0;
    }
  }

  class MockStore {
    var data: map<string, Key>
    var rotateCount: int
    var rotateErr: Option<Error>

    ghost predicate Valid()
      reads this
    {
      KeyedById(data)
    }

    /** `NewMockStore`: empty, no rotations, no injected error. */
    constructor ()
      ensures Valid()
      ensures data == map[] && rotateCount == 0 && rotateErr == None
    {
      data := map[];
      rotateCount := 0;
      rotateErr := None;
    }

    /** `Save`: store (or replace) the record under its id; never fails. */
    method Save(key: Key) returns (r: Status)
      requires Valid()
      modifies this
      ensures Valid()
      ensures r == Pass
      ensures data == old(data)[key.kid := key]
      ensures rotateCount == old(rotateCount) && rotateErr == old(rotateErr)
    {
      data := data[key.kid := key];
      r := Pass;
    }

    /** `List`: every stored record once, in the map's (unspecified) order; never fails. */
    method List() returns (keys: seq<Key>)
      requires Valid()
      ensures IsListing(data, keys)
    {
      keys := [];
      var remaining := data.Keys;
      while remaining != {}
        invariant remaining <= data.Keys
        invariant DistinctKids(keys)
        invariant forall i :: 0 <= i < |keys| ==> keys[i].kid in data && data[keys[i].kid] == keys[i] && keys[i].kid !in remaining
        invariant forall kid :: kid in data ==> kid in remaining || exists i :: 0 <= i < |keys| && keys[i].kid == kid
        decreases remaining
      {
        var kid :| kid in remaining;
        remaining := remaining - {kid};
        assert data[kid].kid == kid;
        ghost var before := keys;
        keys := keys + [data[kid]];
        assert keys[|keys| - 1].kid == kid;
        forall k | k in data && k !in remaining
          ensures exists i :: 0 <= i < |keys| && keys[i].kid == k
        {
          if k != kid {
            var i :| 0 <= i < |before| && before[i].kid == k;
            assert keys[i].kid == k;
          }
        }
      }
    }

    /**
     * `Rotate`: the injected error, if set, is returned before anything
     * changes; otherwise the counter goes up and the store becomes
     * `RotatedData(data, newKey, oldKey)`.
     */
    method Rotate(newKey: Key, oldKey: Option<Key>) returns (r: Status)
      requires Valid()
      modifies this
      ensures Valid()
      ensures rotateErr == old(rotateErr)
      ensures old(rotateErr).Some? ==> r == Fail(old(rotateErr).value) && data == old(data) && rotateCount == old(rotateCount)
      ensures old(rotateErr).None? ==> r == Pass && data == RotatedData(old(data), newKey, oldKey) && rotateCount == old(rotateCount) + 1
    {
      if rotateErr.Some? {
        return Fail(rotateErr.value);
      }
      rotateCount := rotateCount + 1;
      if oldKey.Some? && oldKey.value.kid in data {
        var stored := data[oldKey.value.kid];
        data := data[oldKey.value.kid := stored.(isActive := false)];
      }
      data := data[newKey.kid := newKey];
      r := Pass;
    }
  }
}
