/** Which VM mapping owns a cgroup ID. */
module CgroupIndex {
  import opened Words

  datatype Mapping = Mapping(name: string, cgroupIds: seq<u64>)

  /** Two VM names claim the same cgroup ID. */
  datatype Conflict = Conflict(id: u64, owner: string, other: string)

  ghost predicate Owns(mappings: seq<Mapping>, i: nat, id: u64) {
    i < |mappings| && id != 0 && id in mappings[i].cgroupIds
  }

  ghost predicate Named(mappings: seq<Mapping>, name: string, id: u64) {
    exists i :: 0 <= i < |mappings| && Owns(mappings, i, id) && mappings[i].name == name
  }

  ghost predicate Conflicting(mappings: seq<Mapping>, c: Conflict) {
    c.owner != c.other && Named(mappings, c.owner, c.id) && Named(mappings, c.other, c.id)
  }

  /** No cgroup ID belongs to two VM names. */
  ghost predicate Unambiguous(mappings: seq<Mapping>) {
    forall i: nat, j: nat, id: u64 :: Owns(mappings, i, id) && Owns(mappings, j, id) ==> mappings[i].name == mappings[j].name
  }

  /** Mapping i owns the ID, counting the first n mappings and the IDs seen of the next. */
  ghost predicate OwnsSoFar(mappings: seq<Mapping>, n: nat, seen: set<u64>, i: nat, id: u64) {
    i < |mappings| && id != 0 && (if i < n then id in mappings[i].cgroupIds else i == n && id in seen)
  }

  ghost predicate Indexed(mappings: seq<Mapping>, n: nat, seen: set<u64>, index: map<u64, nat>) {
    && (forall i: nat, id: u64 | OwnsSoFar(mappings, n, seen, i, id) :: id in index && i <= index[id])
    && (forall id: u64 | id in index :: OwnsSoFar(mappings, n, seen, index[id], id))
  }

  ghost predicate OwnersKnown(mappings: seq<Mapping>, n: nat, seen: set<u64>, owners: map<u64, string>) {
    forall i: nat, id: u64 | OwnsSoFar(mappings, n, seen, i, id) :: id in owners && mappings[i].name == owners[id]
  }

  /** An ID is in the index exactly when a mapping owns it, under the last one that does. */
  ghost predicate IsIndex(mappings: seq<Mapping>, index: map<u64, nat>) {
    && (forall i: nat, id: u64 | Owns(mappings, i, id) :: id in index && i <= index[id])
    && (forall id: u64 | id in index :: Owns(mappings, index[id], id))
  }

  lemma OneMore(ids: seq<u64>, k: nat)
    requires k < |ids|
    ensures forall id: u64 :: id in ids[..k + 1] <==> id in ids[..k] || id == ids[k]
  {
    assert ids[..k + 1] == ids[..k] + [ids[k]];
  }

  lemma AddId(mappings: seq<Mapping>, n: nat, seen: set<u64>, id: u64, index: map<u64, nat>)
    requires n < |mappings| && Indexed(mappings, n, seen, index)
    ensures Indexed(mappings, n, seen + {id}, if id == 0 then index else index[id := n])
  {
    assert forall i: nat, other: u64 :: OwnsSoFar(mappings, n, seen + {id}, i, other)
                                        <==> OwnsSoFar(mappings, n, seen, i, other) || (i == n && other == id != 0);
  }

  lemma AddOwner(mappings: seq<Mapping>, n: nat, seen: set<u64>, id: u64, owners: map<u64, string>)
    requires n < |mappings| && OwnersKnown(mappings, n, seen, owners)
    requires id in owners ==> id == 0 || owners[id] == mappings[n].name
    ensures OwnersKnown(mappings, n, seen + {id}, if id == 0 then owners else owners[id := mappings[n].name])
  {
  }

  /** All IDs of mapping n have been seen. */
  lemma NextMapping(mappings: seq<Mapping>, n: nat, seen: set<u64>, index: map<u64, nat>, owners: map<u64, string>)
    requires n < |mappings| && Indexed(mappings, n, seen, index) && OwnersKnown(mappings, n, seen, owners)
    requires forall id: u64 :: id in seen <==> id in mappings[n].cgroupIds
    ensures Indexed(mappings, n + 1, {}, index) && OwnersKnown(mappings, n + 1, {}, owners)
  {
    var m := n + 1;
    assert forall i: nat, id: u64 :: OwnsSoFar(mappings, m, {}, i, id) <==> OwnsSoFar(mappings, n, seen, i, id);
  }

  /** Indexing fails exactly when two names claim one ID, with such a conflict; the index
      has every nonzero ID under its last mapping. */
  method IndexVMCgroupMappings(mappings: seq<Mapping>) returns (r: Result<map<u64, nat>, Conflict>)
    ensures r.Ok? <==> Unambiguous(mappings)
    ensures r.Ok? ==> IsIndex(mappings, r.value)
    ensures r.Err? ==> Conflicting(mappings, r.error)
  {
    var index: map<u64, nat> := map[];
    var owners: map<u64, string> := map[];
    for mappingIndex := 0 to |mappings|
      invariant Indexed(mappings, mappingIndex, {}, index) && OwnersKnown(mappings, mappingIndex, {}, owners)
      invariant owners.Keys == index.Keys
    {
      var mapping := mappings[mappingIndex];
      ghost var seen: set<u64> := {};
      for k := 0 to |mapping.cgroupIds|
        invariant forall id: u64 :: id in seen <==> id in mapping.cgroupIds[..k]
        invariant Indexed(mappings, mappingIndex, seen, index) && OwnersKnown(mappings, mappingIndex, seen, owners)
        invariant owners.Keys == index.Keys
      {
        var id := mapping.cgroupIds[k];
        OneMore(mapping.cgroupIds, k);
        AddId(mappings, mappingIndex, seen, id, index);
        if id == 0 {
          AddOwner(mappings, mappingIndex, seen, id, owners);
          seen := seen + {id};
          continue;
        }
        if id in owners && owners[id] != mapping.name {
          assert Owns(mappings, index[id], id) && Owns(mappings, mappingIndex, id);
          return Err(Conflict(id, owners[id], mapping.name));
        }
        AddOwner(mappings, mappingIndex, seen, id, owners);
        owners := owners[id := mapping.name];
        index := index[id := mappingIndex];
        seen := seen + {id};
      }
      assert mapping.cgroupIds[..|mapping.cgroupIds|] == mapping.cgroupIds;
      NextMapping(mappings, mappingIndex, seen, index, owners);
    }
    assert forall i: nat, id: u64 :: Owns(mappings, i, id) <==> OwnsSoFar(mappings, |mappings|, {}, i, id);
    return Ok(index);
  }

  /** The index does not depend on which of its mappings of the same name comes last,
      as far as the VM's name goes. */
  lemma IndexNamesOwner(mappings: seq<Mapping>, index: map<u64, nat>, i: nat, id: u64)
    requires IsIndex(mappings, index) && Unambiguous(mappings) && Owns(mappings, i, id)
    ensures id in index && index[id] < |mappings| && mappings[index[id]].name == mappings[i].name
  {
    assert Owns(mappings, index[id], id);
  }
}
