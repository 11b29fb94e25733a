/**
  CuddleLibs' `GadgetExtension`: the `ICustomPrefab` extensions a mod calls to make its item
  drop from outcrops and creatures. Each is a thin wrapper over an upsert, with the custom
  prefab's TechType as the resource; `prefab` stands for `customPrefab.Info.TechType`.
 */
module GadgetExtensions {
  import opened Tech
  import opened DropTable
  import opened Interfaces
  import opened Registries
  import OutcropsUtils
  import CreatureDropsUtils

  /** The default `chance` of both extensions. */
  const DefaultChance: real := 0.25

  /** The upserts of a batch of `(outcrop, chance)` pairs for one prefab, in order. */
  function OutcropPairOps(prefab: TechType, data: seq<(TechType, real)>): (ops: seq<Op<()>>)
    ensures |ops| == |data|
    ensures forall i | 0 <= i < |data| :: ops[i] == Op(data[i].0, prefab, data[i].1, ())
  {
    seq(|data|, i requires 0 <= i < |data| => Op(data[i].0, prefab, data[i].1, ()))
  }

  /** The upserts of a batch of `(creature, chance, amount, unique)` tuples for one prefab,
      in order. */
  function CreatureTupleOps(prefab: TechType, data: seq<(TechType, real, UShort, bool)>): (ops: seq<Op<CreatureExtra>>)
    ensures |ops| == |data|
    ensures forall i | 0 <= i < |data| ::
      ops[i] == Op(data[i].0, prefab, data[i].1, CreatureExtra(data[i].2, data[i].3))
  {
    seq(|data|, i requires 0 <= i < |data| => Op(data[i].0, prefab, data[i].1, CreatureExtra(data[i].2, data[i].3)))
  }

  /** `SetOutcropDrop(outcropTechType, chance)`: `EnsureOutcropDrop(outcrop, prefab, chance)`. */
  method SetOutcropDrop(customDrops: OutcropDrops, prefab: TechType, outcrop: TechType, chance: real := DefaultChance)
    returns (data: OutcropDropData)
    modifies customDrops
    ensures customDrops.drops == Upsert(old(customDrops.drops), outcrop, prefab, chance, ())
    ensures data == Entry(prefab, chance, ())
    ensures Lookup(customDrops.drops, outcrop, prefab) == Some(data)
  {
    data := OutcropsUtils.EnsureOutcropDrop(customDrops, outcrop, prefab, chance);
  }

  /** `SetOutcropDrop(params (TechType, float)[] data)`: one upsert per pair, in order, the
      entry of each in the array. */
  method SetOutcropDrops(customDrops: OutcropDrops, prefab: TechType, data: seq<(TechType, real)>)
    returns (datas: array<OutcropDropData>)
    modifies customDrops
    ensures fresh(datas) && datas.Length == |data|
    ensures customDrops.drops == UpsertAll(old(customDrops.drops), OutcropPairOps(prefab, data))
    ensures forall i | 0 <= i < |data| :: datas[i] == Entry(prefab, data[i].1, ())
  {
    datas := new OutcropDropData[|data|];
    ghost var drops0, ops := customDrops.drops, OutcropPairOps(prefab, data);
    ghost var out: seq<OutcropDropData> := [];
    for i := 0 to |data|
      invariant customDrops.drops == UpsertAll(drops0, ops[..i])
      invariant datas[..i] == out
      invariant forall j | 0 <= j < i :: out[j] == Entry(prefab, data[j].1, ())
    {
      var v := data[i];
      var dropData := OutcropsUtils.EnsureOutcropDrop(customDrops, v.0, prefab, v.1);
      UpsertAllStep(drops0, ops, i);
      datas[i] := dropData;
      out := out + [dropData];
    }
    assert ops[..|data|] == ops;
  }

  /** When the batch names an outcrop more than once, the last pair for it sets the chance:
      the entry stored under pair `i`'s outcrop carries pair `i`'s chance when no later pair
      names that outcrop again. */
  lemma OutcropBatchLastWins(t: Table<()>, prefab: TechType, data: seq<(TechType, real)>, i: nat)
    requires i < |data|
    requires forall j | i < j < |data| :: data[j].0 != data[i].0
    ensures Lookup(UpsertAll(t, OutcropPairOps(prefab, data)), data[i].0, prefab) == Some(Entry(prefab, data[i].1, ()))
  {
    UpsertAllLastFor(t, OutcropPairOps(prefab, data), i);
  }

  /** `SetCreatureDrop(creatureTechType, chance, spawn_amount, unique)`:
      `EnsureCreatureDrop(creature, prefab, chance, spawn_amount, unique)`. */
  method SetCreatureDrop(customDrops: CreatureDrops, prefab: TechType, creature: TechType,
                         chance: real := DefaultChance, spawnAmount: UShort := 1, unique: bool := false)
    returns (data: CreatureDropData)
    modifies customDrops
    ensures customDrops.drops == Upsert(old(customDrops.drops), creature, prefab, chance, CreatureExtra(spawnAmount, unique))
    ensures data == Entry(prefab, chance, CreatureExtra(spawnAmount, unique))
    ensures Lookup(customDrops.drops, creature, prefab) == Some(data)
  {
    data := CreatureDropsUtils.EnsureCreatureDrop(customDrops, creature, prefab, chance, spawnAmount, unique);
  }

  /** `SetCreatureDrop(params (TechType, float, ushort, bool)[] data)`: one upsert per tuple,
      in order, the entry of each in the array. */
  method SetCreatureDrops(customDrops: CreatureDrops, prefab: TechType, data: seq<(TechType, real, UShort, bool)>)
    returns (datas: array<CreatureDropData>)
    modifies customDrops
    ensures fresh(datas) && datas.Length == |data|
    ensures customDrops.drops == UpsertAll(old(customDrops.drops), CreatureTupleOps(prefab, data))
    ensures forall i | 0 <= i < |data| :: datas[i] == Entry(prefab, data[i].1, CreatureExtra(data[i].2, data[i].3))
  {
    datas := new CreatureDropData[|data|];
    ghost var drops0, ops := customDrops.drops, CreatureTupleOps(prefab, data);
    ghost var out: seq<CreatureDropData> := [];
    for i := 0 to |data|
      invariant customDrops.drops == UpsertAll(drops0, ops[..i])
      invariant datas[..i] == out
      invariant forall j | 0 <= j < i :: out[j] == Entry(prefab, data[j].1, CreatureExtra(data[j].2, data[j].3))
    {
      var v := data[i];
      var dropData := CreatureDropsUtils.EnsureCreatureDrop(customDrops, v.0, prefab, v.1, v.2, v.3);
      UpsertAllStep(drops0, ops, i);
      datas[i] := dropData;
      out := out + [dropData];
    }
    assert ops[..|data|] == ops;
  }

  /** The same for creatures: the last tuple naming a creature sets its chance, amount and
      unique flag. */
  lemma CreatureBatchLastWins(t: Table<CreatureExtra>, prefab: TechType, data: seq<(TechType, real, UShort, bool)>, i: nat)
    requires i < |data|
    requires forall j | i < j < |data| :: data[j].0 != data[i].0
    ensures Lookup(UpsertAll(t, CreatureTupleOps(prefab, data)), data[i].0, prefab)
         == Some(Entry(prefab, data[i].1, CreatureExtra(data[i].2, data[i].3)))
  {
    UpsertAllLastFor(t, CreatureTupleOps(prefab, data), i);
  }
}
