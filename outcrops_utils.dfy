/**
  `CuddleLibs.Utility.OutcropsUtils`: registering outcrop drops (the upserting
  `EnsureOutcropDrop` and the try-adding `SetOutcropDrop`, each with its overloads),
  removing vanilla drops, and choosing the resource a break yields.
  The static `BreakableResourcePatcher.CustomDrops` is passed in as `customDrops`; every
  operation is proved against the `DropTable` function it implements.
 */
module OutcropsUtils {
  import opened Tech
  import opened DropTable
  import opened Interfaces
  import opened Registries
  import opened Game
  import opened Selection

  /** The default `chance` of `EnsureOutcropDrop` and `SetOutcropDrop`. */
  const DefaultChance: real := 0.25

  /** `ToOutcropDropData`: a vanilla prefab as an outcrop drop. */
  function ToOutcropDropData(randomPrefab: RandomPrefab): (d: OutcropDropData)
    ensures d.resource == randomPrefab.prefabTechType && d.chance == randomPrefab.chance
  {
    Entry(randomPrefab.prefabTechType, randomPrefab.chance, ())
  }

  /** The upserts a `ChooseRandomResourceTechType` makes: one per vanilla prefab, in list order. */
  function VanillaOps(outcrop: TechType, prefabs: seq<RandomPrefab>): (ops: seq<Op<()>>)
    ensures |ops| == |prefabs|
    ensures forall i | 0 <= i < |prefabs| ::
      ops[i] == Op(outcrop, prefabs[i].prefabTechType, prefabs[i].chance, ())
  {
    seq(|prefabs|, i requires 0 <= i < |prefabs| => Op(outcrop, prefabs[i].prefabTechType, prefabs[i].chance, ()))
  }

  /** The registrations of a batch of `(outcrop, resource, chance)` triples, in order. */
  function TripleOps(values: seq<(TechType, TechType, real)>): (ops: seq<Op<()>>)
    ensures |ops| == |values|
    ensures forall i | 0 <= i < |values| :: ops[i] == Op(values[i].0, values[i].1, values[i].2, ())
  {
    seq(|values|, i requires 0 <= i < |values| => Op(values[i].0, values[i].1, values[i].2, ()))
  }

  /** The registrations of a batch of `(outcrop, dropData)` pairs, in order. */
  function DataOps(values: seq<(TechType, OutcropDropData)>): (ops: seq<Op<()>>)
    ensures |ops| == |values|
    ensures forall i | 0 <= i < |values| ::
      ops[i] == Op(values[i].0, values[i].1.resource, values[i].1.chance, ())
  {
    seq(|values|, i requires 0 <= i < |values| => Op(values[i].0, values[i].1.resource, values[i].1.chance, ()))
  }

  /** `CustomDrops[source].RemoveAll(d => d.TechType in rs)` guarded by `ContainsKey(source)`. */
  function RemoveResources(t: Table<()>, source: TechType, rs: set<TechType>): Table<()>
  {
    if source in t then t[source := Without(t[source], rs)] else t
  }

  /** The resources of a prefab list. */
  function PrefabResources(prefabs: seq<RandomPrefab>): set<TechType>
  {
    set p | p in prefabs :: p.prefabTechType
  }

  // ---------------------------------------------------------------------------
  // Upsert

  /** `EnsureOutcropDrop(outcrop, resource, chance)`: overwrite the chance of the entry for
      `resource` under `outcrop`, or append one (creating the outcrop's list when it has
      none); the entry is returned. */
  method EnsureOutcropDrop(customDrops: OutcropDrops, outcrop: TechType, resource: TechType, chance: real := DefaultChance)
    returns (data: OutcropDropData)
    modifies customDrops
    ensures customDrops.drops == Upsert(old(customDrops.drops), outcrop, resource, chance, ())
    ensures data == Entry(resource, chance, ())
    ensures Lookup(customDrops.drops, outcrop, resource) == Some(data)
  {
    if outcrop in customDrops.drops {
      var outcropDropsDatas := customDrops.drops[outcrop];
      var k := IndexOf(outcropDropsDatas, resource);
      if k < 0 {
        data := Entry(resource, chance, ());
        customDrops.drops := customDrops.drops[outcrop := outcropDropsDatas + [data]];
        UpsertAppends(old(customDrops.drops), outcrop, resource, chance, ());
      } else {
        var existingOutcrop := outcropDropsDatas[k];
        data := existingOutcrop.(chance := chance);
        assert data.extra == ();
        customDrops.drops := customDrops.drops[outcrop := outcropDropsDatas[k := data]];
        UpsertOverwrites(old(customDrops.drops), outcrop, resource, chance, ());
      }
    } else {
      data := Entry(resource, chance, ());
      customDrops.drops := customDrops.drops[outcrop := [data]];
      UpsertNewSource(old(customDrops.drops), outcrop, resource, chance, ());
    }
    LookupAfterUpsert(old(customDrops.drops), outcrop, resource, chance, ());
  }

  /** `EnsureOutcropDrop(outcrop, dropData)`: the upsert of the given entry's fields. */
  method EnsureOutcropDropFromData(customDrops: OutcropDrops, outcrop: TechType, dropData: OutcropDropData)
    returns (data: OutcropDropData)
    modifies customDrops
    ensures customDrops.drops == Upsert(old(customDrops.drops), outcrop, dropData.resource, dropData.chance, ())
    ensures data == dropData
  {
    data := EnsureOutcropDrop(customDrops, outcrop, dropData.resource, dropData.chance);
    assert dropData.extra == ();
  }

  /** `EnsureOutcropDrop(params (TechType, TechType, float)[] values)`: every triple upserted
      in order, the entry of each call in the array. */
  method EnsureOutcropDrops(customDrops: OutcropDrops, values: seq<(TechType, TechType, real)>)
    returns (datas: array<OutcropDropData>)
    modifies customDrops
    ensures fresh(datas) && datas.Length == |values|
    ensures customDrops.drops == UpsertAll(old(customDrops.drops), TripleOps(values))
    ensures forall i | 0 <= i < |values| :: datas[i] == Entry(values[i].1, values[i].2, ())
  {
    datas := new OutcropDropData[|values|];
    ghost var drops0, ops := customDrops.drops, TripleOps(values);
    for i := 0 to |values|
      invariant customDrops.drops == UpsertAll(drops0, ops[..i])
      invariant forall j | 0 <= j < i :: datas[j] == Entry(values[j].1, values[j].2, ())
    {
      var v := values[i];
      datas[i] := EnsureOutcropDrop(customDrops, v.0, v.1, v.2);
      UpsertAllStep(drops0, ops, i);
    }
    assert ops[..|values|] == ops;
  }

  /** `EnsureOutcropDrop(params (TechType, OutcropDropData)[] values)`: every pair upserted
      in order; each call returns the entry it was given. */
  method EnsureOutcropDropsFromData(customDrops: OutcropDrops, values: seq<(TechType, OutcropDropData)>)
    returns (datas: array<OutcropDropData>)
    modifies customDrops
    ensures fresh(datas) && datas.Length == |values|
    ensures customDrops.drops == UpsertAll(old(customDrops.drops), DataOps(values))
    ensures forall i | 0 <= i < |values| :: datas[i] == values[i].1
  {
    datas := new OutcropDropData[|values|];
    ghost var drops0, ops := customDrops.drops, DataOps(values);
    for i := 0 to |values|
      invariant customDrops.drops == UpsertAll(drops0, ops[..i])
      invariant forall j | 0 <= j < i :: datas[j] == values[j].1
    {
      var v := values[i];
      datas[i] := EnsureOutcropDropFromData(customDrops, v.0, v.1);
      UpsertAllStep(drops0, ops, i);
    }
    assert ops[..|values|] == ops;
  }

  // ---------------------------------------------------------------------------
  // Try-add

  /** `SetOutcropDrop(outcrop, resource, out dropData, chance)`: when an entry for `resource`
      exists under `outcrop` it is output and nothing changes (`false`); otherwise a new
      entry is appended (or the outcrop's list created) and output (`true`). */
  method SetOutcropDropOut(customDrops: OutcropDrops, outcrop: TechType, resource: TechType, chance: real := DefaultChance)
    returns (created: bool, dropData: OutcropDropData)
    modifies customDrops
    ensures (created, customDrops.drops) == TryAdd(old(customDrops.drops), outcrop, resource, chance, ())
    ensures Lookup(customDrops.drops, outcrop, resource) == Some(dropData)
    ensures !created ==> Lookup(old(customDrops.drops), outcrop, resource) == Some(dropData)
    ensures created ==> dropData == Entry(resource, chance, ())
  {
    if outcrop in customDrops.drops {
      if IndexOf(customDrops.drops[outcrop], resource) >= 0 {
        dropData := customDrops.drops[outcrop][IndexOf(customDrops.drops[outcrop], resource)];
        return false, dropData;
      }
      dropData := Entry(resource, chance, ());
      customDrops.drops := customDrops.drops[outcrop := customDrops.drops[outcrop] + [dropData]];
      IndexOfIs(customDrops.drops[outcrop], resource, |customDrops.drops[outcrop]| - 1);
      return true, dropData;
    }
    dropData := Entry(resource, chance, ());
    customDrops.drops := customDrops.drops[outcrop := [dropData]];
    TryAddNewSource(old(customDrops.drops), outcrop, resource, chance, ());
    return true, dropData;
  }

  /** `SetOutcropDrop(outcrop, resource, chance)`: the try-add, reporting only whether it
      created an entry. */
  method SetOutcropDrop(customDrops: OutcropDrops, outcrop: TechType, resource: TechType, chance: real := DefaultChance)
    returns (created: bool)
    modifies customDrops
    ensures (created, customDrops.drops) == TryAdd(old(customDrops.drops), outcrop, resource, chance, ())
  {
    var dropData;
    created, dropData := SetOutcropDropOut(customDrops, outcrop, resource, chance);
  }

  /** `SetOutcropDrop(params (TechType, TechType, float)[] values)`: every triple tried in
      order; the array holds each call's report. */
  method SetOutcropDrops(customDrops: OutcropDrops, values: seq<(TechType, TechType, real)>)
    returns (flags: array<bool>)
    modifies customDrops
    ensures fresh(flags)
    ensures flags[..] == TryAddFlags(old(customDrops.drops), TripleOps(values))
    ensures customDrops.drops == TryAddAll(old(customDrops.drops), TripleOps(values))
  {
    flags := new bool[|values|];
    ghost var drops0, ops := customDrops.drops, TripleOps(values);
    for i := 0 to |values|
      invariant customDrops.drops == TryAddAll(drops0, ops[..i])
      invariant flags[..i] == TryAddFlags(drops0, ops[..i])
    {
      var v := values[i];
      ghost var reported := flags[..];
      TryAddAllStep(drops0, ops, i, reported);
      flags[i] := SetOutcropDrop(customDrops, v.0, v.1, v.2);
      assert flags[..] == reported[i := flags[i]];
    }
    assert ops[..|values|] == ops;
    assert flags[..] == flags[..|values|];
  }

  /** `SetOutcropDrop(out OutcropDropData[] dropDatas, params (TechType, TechType, float)[] values)`:
      the batch try-add that also outputs each call's entry. Try-add never overwrites, so
      every output entry is still the one registered for its pair at the end. */
  method SetOutcropDropsOut(customDrops: OutcropDrops, values: seq<(TechType, TechType, real)>)
    returns (flags: array<bool>, dropDatas: array<OutcropDropData>)
    modifies customDrops
    ensures fresh(flags) && fresh(dropDatas) && dropDatas.Length == |values|
    ensures flags[..] == TryAddFlags(old(customDrops.drops), TripleOps(values))
    ensures customDrops.drops == TryAddAll(old(customDrops.drops), TripleOps(values))
    ensures FoundAll(customDrops.drops, values, dropDatas[..], |values|)
  {
    flags := new bool[|values|];
    dropDatas := new OutcropDropData[|values|];
    ghost var drops0 := customDrops.drops;
    for i := 0 to |values|
      invariant OutSoFar(drops0, values, customDrops.drops, flags[..i], dropDatas[..i], i)
    {
      ghost var before, reported, found := customDrops.drops, flags[..i], dropDatas[..i];
      var created, dropData := SetOutcropDropAt(customDrops, values[i], i, flags, dropDatas);
      OutSoFarStep(drops0, values, before, reported, found, i, created, dropData);
    }
    assert TripleOps(values)[..|values|] == TripleOps(values);
    assert flags[..] == flags[..|values|];
    assert dropDatas[..] == dropDatas[..|values|];
  }

  /** One iteration of the batch: try-add the triple `v` and write its flag and entry to
      slot `i` of the output arrays. */
  method SetOutcropDropAt(customDrops: OutcropDrops, v: (TechType, TechType, real), i: nat,
                          flags: array<bool>, dropDatas: array<OutcropDropData>)
    returns (created: bool, dropData: OutcropDropData)
    requires i < flags.Length && i < dropDatas.Length
    modifies customDrops, flags, dropDatas
    ensures (created, customDrops.drops) == TryAdd(old(customDrops.drops), v.0, v.1, v.2, ())
    ensures Lookup(customDrops.drops, v.0, v.1) == Some(dropData)
    ensures flags[..i + 1] == old(flags[..i]) + [created]
    ensures dropDatas[..i + 1] == old(dropDatas[..i]) + [dropData]
  {
    created, dropData := SetOutcropDropOut(customDrops, v.0, v.1, v.2);
    flags[i] := created;
    dropDatas[i] := dropData;
  }

  /** After the first `i` triples of the batch: the table, the reported flags and the output
      entries are those of try-adding `values[..i]`. */
  ghost predicate OutSoFar(t0: Table<()>, values: seq<(TechType, TechType, real)>, t: Table<()>,
                           reported: seq<bool>, found: seq<OutcropDropData>, i: nat)
  {
    i <= |values| && |found| == i &&
    t == TryAddAll(t0, TripleOps(values)[..i]) &&
    reported == TryAddFlags(t0, TripleOps(values)[..i]) &&
    FoundAll(t, values, found, i)
  }

  /** The `i`-th try-add of the batch moves the progress on by one triple. */
  lemma OutSoFarStep(t0: Table<()>, values: seq<(TechType, TechType, real)>, t: Table<()>,
                     reported: seq<bool>, found: seq<OutcropDropData>, i: nat, created: bool, d: OutcropDropData)
    requires i < |values| && OutSoFar(t0, values, t, reported, found, i)
    requires Lookup(TryAdd(t, values[i].0, values[i].1, values[i].2, ()).1, values[i].0, values[i].1) == Some(d)
    requires created == TryAdd(t, values[i].0, values[i].1, values[i].2, ()).0
    ensures OutSoFar(t0, values, TryAdd(t, values[i].0, values[i].1, values[i].2, ()).1, reported + [created], found + [d], i + 1)
  {
    var ops := TripleOps(values);
    TryAddAllStep(t0, ops, i, reported + [created]);
    assert (reported + [created])[..i] == reported;
    assert (reported + [created])[i := created] == reported + [created];
    FoundAllStep(t, values, found, i, d);
  }

  /** Each of the first `n` triples finds, under its outcrop and resource, the entry at its
      position in `found`. */
  ghost predicate FoundAll(t: Table<()>, values: seq<(TechType, TechType, real)>, found: seq<OutcropDropData>, n: nat)
  {
    n <= |values| && n <= |found| &&
    forall j | 0 <= j < n :: Lookup(t, values[j].0, values[j].1) == Some(found[j])
  }

  /** One try-add keeps every entry found so far, and the entry it outputs is found for
      its own triple. */
  lemma FoundAllStep(t: Table<()>, values: seq<(TechType, TechType, real)>, found: seq<OutcropDropData>, i: nat,
                     d: OutcropDropData)
    requires i < |values| && |found| == i && FoundAll(t, values, found, i)
    requires Lookup(TryAdd(t, values[i].0, values[i].1, values[i].2, ()).1, values[i].0, values[i].1) == Some(d)
    ensures FoundAll(TryAdd(t, values[i].0, values[i].1, values[i].2, ()).1, values, found + [d], i + 1)
  {
    forall j | 0 <= j < i
      ensures Lookup(TryAdd(t, values[i].0, values[i].1, values[i].2, ()).1, values[j].0, values[j].1) == Some(found[j])
    {
      TryAddKeepsLookup(t, values[i].0, values[i].1, values[i].2, (), values[j].0, values[j].1);
    }
  }

  /** `SetOutcropDrop(outcrop, dropData, out outputDropData)`: the try-add of the given
      entry's fields. */
  method SetOutcropDropFromDataOut(customDrops: OutcropDrops, outcrop: TechType, dropData: OutcropDropData)
    returns (created: bool, outputDropData: OutcropDropData)
    modifies customDrops
    ensures (created, customDrops.drops) == TryAdd(old(customDrops.drops), outcrop, dropData.resource, dropData.chance, ())
    ensures Lookup(customDrops.drops, outcrop, dropData.resource) == Some(outputDropData)
    ensures created ==> outputDropData == dropData
  {
    created, outputDropData := SetOutcropDropOut(customDrops, outcrop, dropData.resource, dropData.chance);
    assert dropData.extra == ();
  }

  /** `SetOutcropDrop(outcrop, dropData)`: the try-add of the given entry's fields. */
  method SetOutcropDropFromData(customDrops: OutcropDrops, outcrop: TechType, dropData: OutcropDropData)
    returns (created: bool)
    modifies customDrops
    ensures (created, customDrops.drops) == TryAdd(old(customDrops.drops), outcrop, dropData.resource, dropData.chance, ())
  {
    created := SetOutcropDrop(customDrops, outcrop, dropData.resource, dropData.chance);
  }

  // ---------------------------------------------------------------------------
  // Removal and choice

  /** `RemoveVanillaDrops`: with no vanilla prefab, `false` and nothing changes; otherwise
      the outcrop's entries for the prefabs' resources are removed (the others kept in
      order), the prefab list is cleared and the answer is `true`. */
  method RemoveVanillaDrops(customDrops: OutcropDrops, instance: BreakableResource) returns (removed: bool)
    modifies customDrops, instance`prefabList
    ensures removed <==> |old(instance.prefabList)| > 0
    ensures !removed ==> customDrops.drops == old(customDrops.drops) && instance.prefabList == old(instance.prefabList)
    ensures removed ==> instance.prefabList == []
    ensures removed ==> customDrops.drops == RemoveResources(old(customDrops.drops), instance.techType, PrefabResources(old(instance.prefabList)))
  {
    var outcropTechType := instance.techType;
    if |instance.prefabList| > 0 {
      if outcropTechType in customDrops.drops {
        customDrops.drops := customDrops.drops[outcropTechType :=
          Without(customDrops.drops[outcropTechType], PrefabResources(instance.prefabList))];
      }
      instance.prefabList := [];
      return true;
    }
    return false;
  }

  /** `ChooseRandomResourceTechType`: upsert every vanilla prefab of the outcrop, in list
      order, then scan the outcrop's entries (`CustomDrops[outcrop]`, a
      `KeyNotFoundException` when it is missing) for the first successful check. */
  method ChooseRandomResourceTechType(customDrops: OutcropDrops, instance: BreakableResource, entropy: PlayerEntropy)
    returns (result: Outcome<TechType>)
    modifies customDrops, entropy`checks
    ensures customDrops.drops == UpsertAll(old(customDrops.drops), VanillaOps(instance.techType, instance.prefabList))
    ensures (result, entropy.checks) == Select(customDrops.drops, instance.techType, entropy.answer, old(entropy.checks))
  {
    var outcropTechType := instance.techType;
    var prefabs := instance.prefabList;
    ghost var drops0, ops := customDrops.drops, VanillaOps(outcropTechType, prefabs);
    for i := 0 to |prefabs|
      invariant customDrops.drops == UpsertAll(drops0, ops[..i])
      invariant entropy.checks == old(entropy.checks)
    {
      var randPrefab := prefabs[i];
      var data := EnsureOutcropDrop(customDrops, outcropTechType, randPrefab.prefabTechType, randPrefab.chance);
      UpsertAllStep(drops0, ops, i);
    }
    assert ops[..|prefabs|] == ops;
    if outcropTechType !in customDrops.drops {
      return Threw(KeyNotFound);
    }
    var chosen := ScanDrops(customDrops.drops[outcropTechType], entropy);
    return Done(chosen);
  }

  /** After the vanilla upserts, a vanilla prefab's entry carries the chance of that prefab
      (the last one for its resource): a custom chance registered for the same resource is
      overwritten on every break. */
  lemma VanillaChanceOverwrites(t: Table<()>, outcrop: TechType, prefabs: seq<RandomPrefab>, i: nat)
    requires i < |prefabs|
    requires forall j | i < j < |prefabs| :: prefabs[j].prefabTechType != prefabs[i].prefabTechType
    ensures Lookup(UpsertAll(t, VanillaOps(outcrop, prefabs)), outcrop, prefabs[i].prefabTechType)
         == Some(Entry(prefabs[i].prefabTechType, prefabs[i].chance, ()))
  {
    UpsertAllLastFor(t, VanillaOps(outcrop, prefabs), i);
  }
}
