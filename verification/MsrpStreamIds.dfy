/**
  The stream IDs that a client has declared interesting, held in the sorted EUI-64 table: the
  model's set of IDs, and its full table, are those of the table's keys.
 */
module MsrpStreamIds {
  import opened Mrpdu
  import opened Msrp
  import opened Eui64Set

  lemma ReadInjective(a: id8, b: id8)
    ensures Read(a) == Read(b) <==> a == b
  {
    ReadIsBigEndian(a);
    ReadIsBigEndian(b);
    if BigEndian(a) == BigEndian(b) {
      BigEndianInjective(a, b);
    }
  }

  /** The table holds each of the IDs once, and nothing else. */
  ghost predicate Holds(keys: multiset<u64>, ids: set<id8>) {
    && (forall id: id8 :: keys[Read(id)] == if id in ids then 1 else 0)
  }

  lemma AddHolds(keys: multiset<u64>, ids: set<id8>, id: id8)
    requires Holds(keys, ids) && id !in ids
    ensures Holds(keys + multiset{Read(id)}, ids + {id})
  {
    hide Read;
    forall other: id8 ensures (keys + multiset{Read(id)})[Read(other)] == if other in ids + {id} then 1 else 0 {
      ReadInjective(id, other);
      assert keys[Read(other)] == if other in ids then 1 else 0;
    }
  }

  lemma RemoveHolds(keys: multiset<u64>, ids: set<id8>, id: id8)
    requires Holds(keys, ids) && id in ids
    ensures Holds(keys - multiset{Read(id)}, ids - {id})
  {
    hide Read;
    forall other: id8 ensures (keys - multiset{Read(id)})[Read(other)] == if other in ids - {id} then 1 else 0 {
      ReadInjective(id, other);
      assert keys[Read(other)] == if other in ids then 1 else 0;
    }
  }

  lemma InHolds(keys: multiset<u64>, ids: set<id8>, id: id8)
    requires Holds(keys, ids)
    ensures Read(id) in keys <==> id in ids
  {
    hide Read;
    assert keys[Read(id)] == if id in ids then 1 else 0;
  }

  class StreamTable {
    const keys: KeySet
    ghost var ids: set<id8>

    ghost predicate Valid()
      reads this, keys, keys.storage
    {
      keys.Valid() && Holds(keys.Keys(), ids)
    }

    constructor (max: nat)
      ensures Valid() && ids == {} && fresh(keys) && fresh(keys.storage) && keys.storage.Length == max
    {
      keys := new KeySet(max);
      ids := {};
    }

    method Find(id: id8) returns (found: bool)
      requires Valid()
      ensures found == (id in ids)
    {
      var k := keys.Find(Read(id));
      InHolds(keys.Keys(), ids, id);
      found := k < keys.count;
    }

    /** The part of the command I+S after its parameters are read: no duplicates, no overflow. */
    method Add(id: id8) returns (ok: bool)
      requires Valid()
      modifies this, keys, keys.storage
      ensures Valid() && ok == (id !in old(ids) && !old(keys.IsFull()))
      ensures ids == if ok then old(ids) + {id} else old(ids)
    {
      hide Holds, KeysOf, Sorted, Read;
      var known := Find(id);
      ok := false;
      if !known {
        AddHolds(keys.Keys(), ids, id);
        ok := keys.InsertAndSort(Read(id), 0);
        if ok {
          ids := ids + {id};
        }
      }
    }

    method Remove(id: id8) returns (found: bool)
      requires Valid()
      modifies this, keys, keys.storage
      ensures Valid() && found == (id in old(ids)) && ids == old(ids) - {id}
    {
      hide Holds, KeysOf, Sorted, Read;
      InHolds(keys.Keys(), ids, id);
      ghost var before := keys.Keys();
      var freed;
      found, freed := keys.RemoveAndSort(Read(id));
      if found {
        RemoveHolds(before, ids, id);
        ids := ids - {id};
      } else {
        Absent(before, Read(id));
      }
    }

    method Clear()
      requires Valid()
      modifies this, keys
      ensures Valid() && ids == {}
    {
      keys.Clear();
      ids := {};
    }
  }
}
