/**
  CuddleLibs' `CreatureDropsUtils`: the upsert of creature drops (`EnsureCreatureDrop` and
  its overloads) and the choice of a resource when a creature dies. The static
  `CreaturePatcher.CustomDrops` is passed in as `customDrops`.
 */
module CreatureDropsUtils {
  import opened Tech
  import opened DropTable
  import opened Interfaces
  import opened Registries
  import opened Game
  import opened Selection

  /** The default `chance` of `EnsureCreatureDrop`. */
  const DefaultChance: real := 0.25

  /** The registrations of a batch of `(creature, resource, chance, spawn_amount, unique)`
      tuples, in order. */
  function TupleOps(values: seq<(TechType, TechType, real, UShort, bool)>): (ops: seq<Op<CreatureExtra>>)
    ensures |ops| == |values|
    ensures forall i | 0 <= i < |values| ::
      ops[i] == Op(values[i].0, values[i].1, values[i].2, CreatureExtra(values[i].3, values[i].4))
  {
    seq(|values|, i requires 0 <= i < |values| =>
      Op(values[i].0, values[i].1, values[i].2, CreatureExtra(values[i].3, values[i].4)))
  }

  /** The registrations of a batch of `(creature, data)` pairs, in order. */
  function DataOps(values: seq<(TechType, CreatureDropData)>): (ops: seq<Op<CreatureExtra>>)
    ensures |ops| == |values|
    ensures forall i | 0 <= i < |values| ::
      ops[i] == Op(values[i].0, values[i].1.resource, values[i].1.chance, values[i].1.extra)
  {
    seq(|values|, i requires 0 <= i < |values| =>
      Op(values[i].0, values[i].1.resource, values[i].1.chance, values[i].1.extra))
  }

  /** `ChooseRandomResourceTechType(this Creature)`: `CustomDrops[creature]` (a
      `KeyNotFoundException` when the creature is not registered), then the first entry whose
      check succeeds; the registry is only read. */
  method ChooseRandomResourceTechType(customDrops: CreatureDrops, instance: Creature, entropy: PlayerEntropy)
    returns (result: Outcome<TechType>)
    modifies entropy`checks
    ensures (result, entropy.checks) == Select(customDrops.drops, instance.techType, entropy.answer, old(entropy.checks))
  {
    var creatureTechType := instance.techType;
    if creatureTechType !in customDrops.drops {
      return Threw(KeyNotFound);
    }
    var chosen := ScanDrops(customDrops.drops[creatureTechType], entropy);
    return Done(chosen);
  }

  /** `EnsureCreatureDrop(creature, resource, chance, spawn_amount, unique)`: overwrite the
      chance, amount and unique flag of the entry for `resource` under `creature`, or append
      one (creating the creature's list when it has none); the entry is returned. */
  method EnsureCreatureDrop(customDrops: CreatureDrops, creature: TechType, resource: TechType,
                            chance: real := DefaultChance, spawnAmount: UShort := 1, unique: bool := false)
    returns (data: CreatureDropData)
    modifies customDrops
    ensures customDrops.drops == Upsert(old(customDrops.drops), creature, resource, chance, CreatureExtra(spawnAmount, unique))
    ensures data == Entry(resource, chance, CreatureExtra(spawnAmount, unique))
    ensures Lookup(customDrops.drops, creature, resource) == Some(data)
  {
    if creature in customDrops.drops {
      var creatureDropsDatas := customDrops.drops[creature];
      var k := IndexOf(creatureDropsDatas, resource);
      if k < 0 {
        data := Entry(resource, chance, CreatureExtra(spawnAmount, unique));
        customDrops.drops := customDrops.drops[creature := creatureDropsDatas + [data]];
        UpsertAppends(old(customDrops.drops), creature, resource, chance, CreatureExtra(spawnAmount, unique));
      } else {
        var existingOutcrop := creatureDropsDatas[k];
        data := existingOutcrop.(chance := chance, extra := CreatureExtra(spawnAmount, unique));
        customDrops.drops := customDrops.drops[creature := creatureDropsDatas[k := data]];
        UpsertOverwrites(old(customDrops.drops), creature, resource, chance, CreatureExtra(spawnAmount, unique));
      }
    } else {
      data := Entry(resource, chance, CreatureExtra(spawnAmount, unique));
      customDrops.drops := customDrops.drops[creature := [data]];
      UpsertNewSource(old(customDrops.drops), creature, resource, chance, CreatureExtra(spawnAmount, unique));
    }
    LookupAfterUpsert(old(customDrops.drops), creature, resource, chance, CreatureExtra(spawnAmount, unique));
  }

  /** `EnsureCreatureDrop(creature, data)`: the upsert of all four fields of the given entry. */
  method EnsureCreatureDropFromData(customDrops: CreatureDrops, creature: TechType, dropData: CreatureDropData)
    returns (data: CreatureDropData)
    modifies customDrops
    ensures customDrops.drops == Upsert(old(customDrops.drops), creature, dropData.resource, dropData.chance, dropData.extra)
    ensures data == dropData
  {
    data := EnsureCreatureDrop(customDrops, creature, dropData.resource, dropData.chance,
                               dropData.extra.dropAmount, dropData.extra.unique);
  }

  /** `EnsureCreatureDrop(params (TechType, TechType, float, ushort, bool)[] values)`: every
      tuple upserted in order, the entry of each call in the array. */
  method EnsureCreatureDrops(customDrops: CreatureDrops, values: seq<(TechType, TechType, real, UShort, bool)>)
    returns (datas: array<CreatureDropData>)
    modifies customDrops
    ensures fresh(datas) && datas.Length == |values|
    ensures customDrops.drops == UpsertAll(old(customDrops.drops), TupleOps(values))
    ensures forall i | 0 <= i < |values| ::
      datas[i] == Entry(values[i].1, values[i].2, CreatureExtra(values[i].3, values[i].4))
  {
    datas := new CreatureDropData[|values|];
    ghost var drops0, ops := customDrops.drops, TupleOps(values);
    for i := 0 to |values|
      invariant customDrops.drops == UpsertAll(drops0, ops[..i])
      invariant forall j | 0 <= j < i :: datas[j] == Entry(values[j].1, values[j].2, CreatureExtra(values[j].3, values[j].4))
    {
      var v := values[i];
      datas[i] := EnsureCreatureDrop(customDrops, v.0, v.1, v.2, v.3, v.4);
      UpsertAllStep(drops0, ops, i);
    }
    assert ops[..|values|] == ops;
  }

  /** `EnsureCreatureDrop(params (TechType, CreatureDropData)[] values)`: every pair upserted
      in order; each call returns the entry it was given. */
  method EnsureCreatureDropsFromData(customDrops: CreatureDrops, values: seq<(TechType, CreatureDropData)>)
    returns (datas: array<CreatureDropData>)
    modifies customDrops
    ensures fresh(datas) && datas.Length == |values|
    ensures customDrops.drops == UpsertAll(old(customDrops.drops), DataOps(values))
    ensures forall i | 0 <= i < |values| :: datas[i] == values[i].1
  {
    datas := new CreatureDropData[|values|];
    ghost var drops0, ops := customDrops.drops, DataOps(values);
    for i := 0 to |values|
      invariant customDrops.drops == UpsertAll(drops0, ops[..i])
      invariant forall j | 0 <= j < i :: datas[j] == values[j].1
    {
      var v := values[i];
      datas[i] := EnsureCreatureDropFromData(customDrops, v.0, v.1);
      UpsertAllStep(drops0, ops, i);
    }
    assert ops[..|values|] == ops;
  }
}
