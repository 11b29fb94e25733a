/**
  OutcropsHelper's `OutcropsUtils`, the older revision: its choice of a resource scans the
  outcrop's registered drops followed by its vanilla prefabs, without writing the vanilla
  prefabs into the registry, and its one registration call is the upsert
  `AddOrUpdateOutcropDrop`. The static `BreakableResourcePatcher.CustomDrops` of this
  revision is passed in as `customDrops`. Its `ToOutcropDropData` is the same conversion as
  CuddleLibs', `OutcropsUtils.ToOutcropDropData`.
 */
module HelperOutcropsUtils {
  import opened Tech
  import opened DropTable
  import opened Interfaces
  import opened Registries
  import opened Game
  import opened Selection
  import OutcropsUtils

  /** The default `chance` of `AddOrUpdateOutcropDrop`. */
  const DefaultChance: real := 0.5

  /** The vanilla prefabs as outcrop drops, one per prefab, in list order. */
  function Converted(prefabs: seq<RandomPrefab>): (c: seq<OutcropDropData>)
    ensures |c| == |prefabs|
    ensures forall i | 0 <= i < |prefabs| ::
      c[i].resource == prefabs[i].prefabTechType && c[i].chance == prefabs[i].chance
  {
    seq(|prefabs|, i requires 0 <= i < |prefabs| => OutcropsUtils.ToOutcropDropData(prefabs[i]))
  }

  /** `foreach (randPrefab in instance.prefabList) convertedDropsDatas.Add(randPrefab.ToOutcropDropData())`. */
  method ConvertPrefabs(prefabs: seq<RandomPrefab>) returns (converted: seq<OutcropDropData>)
    ensures converted == Converted(prefabs)
  {
    converted := [];
    for i := 0 to |prefabs|
      invariant converted == Converted(prefabs[..i])
    {
      converted := converted + [OutcropsUtils.ToOutcropDropData(prefabs[i])];
    }
    assert prefabs[..|prefabs|] == prefabs;
  }

  /** `CustomDrops.TryGetValue(outcrop, out customDropsDatas)` followed by
      `customDropsDatas.Union(convertedDropsDatas)` and the scan of the union: an
      `ArgumentNullException` when the outcrop has no list (the union of `null`), otherwise
      the first successful check over the registered entries, then the vanilla ones. */
  function Choose(t: Table<()>, outcrop: TechType, prefabs: seq<RandomPrefab>,
                  answer: (nat, TechType, real) -> bool, k: nat): (Outcome<TechType>, nat)
  {
    if outcrop !in t then (Threw(ArgumentNull), k)
    else
      var (r, k') := Scan(t[outcrop] + Converted(prefabs), answer, k);
      (Done(r), k')
  }

  /** `ChooseRandomResourceTechType`: the choice of `Choose`; the registry is only read. */
  method ChooseRandomResourceTechType(customDrops: OutcropDrops, instance: BreakableResource, entropy: PlayerEntropy)
    returns (result: Outcome<TechType>)
    modifies entropy`checks
    ensures (result, entropy.checks) == Choose(customDrops.drops, instance.techType, instance.prefabList,
                                               entropy.answer, old(entropy.checks))
  {
    var convertedDropsDatas := ConvertPrefabs(instance.prefabList);
    var outcropTechType := instance.techType;
    if outcropTechType !in customDrops.drops {
      return Threw(ArgumentNull);
    }
    var customDropsDatas := customDrops.drops[outcropTechType];
    var unionedDropDatas := customDropsDatas + convertedDropsDatas;
    var chosen := ScanDrops(unionedDropDatas, entropy);
    return Done(chosen);
  }

  /** Registered drops come first: a vanilla prefab is only checked once every registered
      entry's check failed, and then the vanilla prefabs are scanned as if alone, from the
      check count the registered entries left. A missing list throws before any check. */
  lemma ChooseCustomFirst(t: Table<()>, outcrop: TechType, prefabs: seq<RandomPrefab>,
                          answer: (nat, TechType, real) -> bool, k: nat)
    ensures outcrop !in t ==> Choose(t, outcrop, prefabs, answer, k) == (Threw(ArgumentNull), k)
    ensures outcrop in t && FirstSuccess(t[outcrop], answer, k) >= 0 ==>
      var (r, k') := Scan(t[outcrop], answer, k);
      Choose(t, outcrop, prefabs, answer, k) == (Done(r), k')
    ensures outcrop in t && FirstSuccess(t[outcrop], answer, k) < 0 ==>
      var (r, k') := Scan(Converted(prefabs), answer, k + |t[outcrop]|);
      Choose(t, outcrop, prefabs, answer, k) == (Done(r), k')
  {
    if outcrop in t {
      ScanAppend(t[outcrop], Converted(prefabs), answer, k);
    }
  }

  /** `AddOrUpdateOutcropDrop(resource, outcrop, chance)`: overwrite the chance of the entry
      for `resource` under `outcrop`, or append one (creating the outcrop's list when it has
      none); the entry is returned. The code is the upsert of CuddleLibs'
      `EnsureOutcropDrop`, with the resource first and a default chance of 0.5. */
  method AddOrUpdateOutcropDrop(customDrops: OutcropDrops, resource: TechType, outcrop: TechType, chance: real := DefaultChance)
    returns (data: OutcropDropData)
    modifies customDrops
    ensures customDrops.drops == Upsert(old(customDrops.drops), outcrop, resource, chance, ())
    ensures data == Entry(resource, chance, ())
    ensures Lookup(customDrops.drops, outcrop, resource) == Some(data)
  {
    data := OutcropsUtils.EnsureOutcropDrop(customDrops, outcrop, resource, chance);
  }
}
