/**
  CuddleLibs' `BreakableResourcePatcher`: the `HandTarget.Awake` postfix that seeds the
  registry with an outcrop's vanilla drops and registers the randomizers of every
  registered resource, and the `BreakableResource.BreakIntoResources` prefix that replaces
  the game's break with rolls over the registry. What a break puts into the world is its
  list of `Spawn`s; sounds, effects, messages and log text are not modelled.
 */
module BreakableResourcePatcher {
  import opened Tech
  import opened DropTable
  import opened Interfaces
  import opened Registries
  import opened Game
  import opened Selection
  import opened EntropyUtils
  import OutcropsUtils

  // ---------------------------------------------------------------------------
  // Awake

  /** The try-adds of the seeding loop as written: `SetOutcropDrop(prefabTechType,
      outcropTechType, chance)` passes the prefab's resource where the outcrop belongs and
      the outcrop where the resource belongs. */
  function SwappedOps(outcrop: TechType, prefabs: seq<RandomPrefab>): (ops: seq<Op<()>>)
    ensures |ops| == |prefabs|
    ensures forall i | 0 <= i < |prefabs| :: ops[i] == Op(prefabs[i].prefabTechType, outcrop, prefabs[i].chance, ())
  {
    seq(|prefabs|, i requires 0 <= i < |prefabs| => Op(prefabs[i].prefabTechType, outcrop, prefabs[i].chance, ()))
  }

  /** Every resource registered under any source has a randomizer. */
  ghost predicate EntropyCovers(rs: seq<TechEntropy>, drops: Table<()>)
  {
    forall o, e | o in drops && e in drops[o] :: Has(rs, e.resource)
  }

  /** The randomizers of the resources of one list are ensured, in list order. */
  method EnsureEntropyOfList(player: PlayerEntropy, list: seq<OutcropDropData>)
    modifies player`randomizers
    ensures old(player.randomizers) <= player.randomizers
    ensures forall e | e in list :: Has(player.randomizers, e.resource)
    ensures UniqueTypes(old(player.randomizers)) ==> UniqueTypes(player.randomizers)
  {
    for j := 0 to |list|
      invariant old(player.randomizers) <= player.randomizers
      invariant forall i | 0 <= i < j :: Has(player.randomizers, list[i].resource)
      invariant UniqueTypes(old(player.randomizers)) ==> UniqueTypes(player.randomizers)
    {
      ghost var before := player.randomizers;
      var techEntropy := EnsureTechEntropy(player, list[j].resource);
      EnsuredHas(before, list[j].resource, techEntropy);
      if UniqueTypes(before) {
        EnsuredKeepsUnique(before, list[j].resource, techEntropy);
      }
      forall i | 0 <= i < j ensures Has(player.randomizers, list[i].resource) {
        HasGrows(before, player.randomizers, list[i].resource);
      }
    }
  }

  /** `foreach (var kvp in CustomDrops) foreach (var dropData in kvp.Value)
      EnsureTechEntropy(dropData.resourceTechType)`, over the sources in any order. */
  method EnsureEntropyOfDrops(player: PlayerEntropy, drops: Table<()>)
    modifies player`randomizers
    ensures old(player.randomizers) <= player.randomizers
    ensures EntropyCovers(player.randomizers, drops)
    ensures UniqueTypes(old(player.randomizers)) ==> UniqueTypes(player.randomizers)
  {
    var todo := drops.Keys;
    while todo != {}
      invariant todo <= drops.Keys
      invariant old(player.randomizers) <= player.randomizers
      invariant forall o, e | o in drops && o !in todo && e in drops[o] :: Has(player.randomizers, e.resource)
      invariant UniqueTypes(old(player.randomizers)) ==> UniqueTypes(player.randomizers)
      decreases todo
    {
      var o :| o in todo;
      ghost var before := player.randomizers;
      EnsureEntropyOfList(player, drops[o]);
      forall p, e | p in drops && p !in todo - {o} && e in drops[p]
        ensures Has(player.randomizers, e.resource)
      {
        if p != o {
          HasGrows(before, player.randomizers, e.resource);
        }
      }
      todo := todo - {o};
    }
  }

  /** The `HandTarget.Awake` postfix as written: nothing for a target that is not a
      `BreakableResource`; otherwise every vanilla prefab is try-added with its arguments
      swapped, then every registered resource gets a randomizer. */
  method Awake(customDrops: OutcropDrops, player: PlayerEntropy, target: HandTarget)
    modifies customDrops, player`randomizers
    ensures target.OtherTarget? ==>
      customDrops.drops == old(customDrops.drops) && player.randomizers == old(player.randomizers)
    ensures target.Breakable? ==>
      customDrops.drops == TryAddAll(old(customDrops.drops), SwappedOps(target.resource.techType, target.resource.prefabList))
    ensures target.Breakable? ==> EntropyCovers(player.randomizers, customDrops.drops)
    ensures old(player.randomizers) <= player.randomizers
    ensures UniqueTypes(old(player.randomizers)) ==> UniqueTypes(player.randomizers)
  {
    if target.OtherTarget? {
      return;
    }
    var instance := target.resource;
    var outcropTechType := instance.techType;
    var prefabs := instance.prefabList;
    ghost var drops0, ops := customDrops.drops, SwappedOps(outcropTechType, prefabs);
    for i := 0 to |prefabs|
      invariant customDrops.drops == TryAddAll(drops0, ops[..i])
      invariant player.randomizers == old(player.randomizers)
    {
      var randPrefab := prefabs[i];
      var created := OutcropsUtils.SetOutcropDrop(customDrops, randPrefab.prefabTechType, outcropTechType, randPrefab.chance);
      assert ops[..i + 1] == ops[..i] + [ops[i]];
      TryAddAllSnoc(drops0, ops[..i], ops[i]);
    }
    assert ops[..|prefabs|] == ops;
    EnsureEntropyOfDrops(player, customDrops.drops);
  }

  /** As written, seeding an outcrop that has no list yet leaves it without one: its vanilla
      resources are registered as sources, each with the outcrop as its one drop. */
  lemma SwappedSeedingMissesOutcrop(t: Table<()>, outcrop: TechType, prefabs: seq<RandomPrefab>)
    requires outcrop !in t
    requires forall i | 0 <= i < |prefabs| :: prefabs[i].prefabTechType != outcrop
    ensures outcrop !in TryAddAll(t, SwappedOps(outcrop, prefabs))
    ensures forall i | 0 <= i < |prefabs| ::
      Lookup(TryAddAll(t, SwappedOps(outcrop, prefabs)), prefabs[i].prefabTechType, outcrop) != NoEntry
  {
    TryAddAllKeys(t, SwappedOps(outcrop, prefabs), outcrop);
    TryAddAllMakesPresent(t, SwappedOps(outcrop, prefabs));
  }

  /** One outcrop with one vanilla prefab shows it: the prefab's resource is not found
      under the outcrop after seeding. */
  lemma SwappedSeedingExample()
    ensures var t := TryAddAll(map[], SwappedOps(Tech(1), [RandomPrefab(Tech(2), 0.5)]));
      Lookup(t, Tech(1), Tech(2)) == NoEntry
  {
    SwappedSeedingMissesOutcrop(map[], Tech(1), [RandomPrefab(Tech(2), 0.5)]);
  }

  /** The evidently intended postfix: the same, with each prefab try-added under the outcrop
      (`SetOutcropDrop(outcropTechType, prefabTechType, chance)`). */
  method AwakeIntended(customDrops: OutcropDrops, player: PlayerEntropy, target: HandTarget)
    modifies customDrops, player`randomizers
    ensures target.OtherTarget? ==>
      customDrops.drops == old(customDrops.drops) && player.randomizers == old(player.randomizers)
    ensures target.Breakable? ==>
      customDrops.drops == TryAddAll(old(customDrops.drops), OutcropsUtils.VanillaOps(target.resource.techType, target.resource.prefabList))
    ensures target.Breakable? ==> EntropyCovers(player.randomizers, customDrops.drops)
    ensures old(player.randomizers) <= player.randomizers
    ensures UniqueTypes(old(player.randomizers)) ==> UniqueTypes(player.randomizers)
  {
    if target.OtherTarget? {
      return;
    }
    var instance := target.resource;
    var outcropTechType := instance.techType;
    var prefabs := instance.prefabList;
    ghost var drops0, ops := customDrops.drops, OutcropsUtils.VanillaOps(outcropTechType, prefabs);
    for i := 0 to |prefabs|
      invariant customDrops.drops == TryAddAll(drops0, ops[..i])
      invariant player.randomizers == old(player.randomizers)
    {
      var randPrefab := prefabs[i];
      var created := OutcropsUtils.SetOutcropDrop(customDrops, outcropTechType, randPrefab.prefabTechType, randPrefab.chance);
      assert ops[..i + 1] == ops[..i] + [ops[i]];
      TryAddAllSnoc(drops0, ops[..i], ops[i]);
    }
    assert ops[..|prefabs|] == ops;
    EnsureEntropyOfDrops(player, customDrops.drops);
  }

  /** Intended seeding registers every vanilla prefab under the outcrop and never changes an
      entry that was already registered, so a custom chance survives it; seeding again
      changes nothing. */
  lemma IntendedSeeding(t: Table<()>, outcrop: TechType, prefabs: seq<RandomPrefab>, r: TechType)
    ensures forall i | 0 <= i < |prefabs| ::
      Lookup(TryAddAll(t, OutcropsUtils.VanillaOps(outcrop, prefabs)), outcrop, prefabs[i].prefabTechType) != NoEntry
    ensures Lookup(t, outcrop, r) != NoEntry ==>
      Lookup(TryAddAll(t, OutcropsUtils.VanillaOps(outcrop, prefabs)), outcrop, r) == Lookup(t, outcrop, r)
    ensures TryAddAll(TryAddAll(t, OutcropsUtils.VanillaOps(outcrop, prefabs)), OutcropsUtils.VanillaOps(outcrop, prefabs))
         == TryAddAll(t, OutcropsUtils.VanillaOps(outcrop, prefabs))
  {
    var ops := OutcropsUtils.VanillaOps(outcrop, prefabs);
    TryAddAllMakesPresent(t, ops);
    assert forall i | 0 <= i < |prefabs| :: ops[i].source == outcrop && ops[i].resource == prefabs[i].prefabTechType;
    if Lookup(t, outcrop, r) != NoEntry {
      TryAddAllKeepsLookup(t, ops, outcrop, r);
    }
    TryAddAllIdempotent(t, ops);
  }

  // ---------------------------------------------------------------------------
  // BreakIntoResources

  /** `n` rolls of a break. Each roll upserts the vanilla prefabs again, which changes
      nothing after the first time (`UpsertAllIdempotent`), so every roll scans the same
      list; the first roll throws when the outcrop still has no list. */
  function Rolls(t: Table<()>, outcrop: TechType, prefabs: seq<RandomPrefab>,
                 answer: (nat, TechType, real) -> bool, k: nat, n: nat): Rolled
  {
    if n == 0 then Rolled(false, [], t, k)
    else
      var d := UpsertAll(t, OutcropsUtils.VanillaOps(outcrop, prefabs));
      if outcrop !in d then Rolled(true, [], d, k)
      else
        var (rolls, k') := ScanRolls(d[outcrop], answer, k, n);
        Rolled(false, rolls, d, k')
  }

  /** A break makes one roll per chance, and throws exactly when the outcrop has neither a
      registered list nor a vanilla prefab to create one; after any roll the registry is
      the one the vanilla upserts make, and another break's upserts leave it as it is. */
  lemma RollsCount(t: Table<()>, outcrop: TechType, prefabs: seq<RandomPrefab>,
                   answer: (nat, TechType, real) -> bool, k: nat, n: nat)
    ensures var r := Rolls(t, outcrop, prefabs, answer, k, n);
      && (r.thrown <==> n > 0 && outcrop !in t && prefabs == [])
      && (!r.thrown ==> |r.rolls| == n)
      && (n > 0 ==> r.drops == UpsertAll(t, OutcropsUtils.VanillaOps(outcrop, prefabs)))
      && UpsertAll(r.drops, OutcropsUtils.VanillaOps(outcrop, prefabs)) == UpsertAll(t, OutcropsUtils.VanillaOps(outcrop, prefabs))
  {
    var ops := OutcropsUtils.VanillaOps(outcrop, prefabs);
    UpsertAllKeys(t, ops, outcrop);
    if prefabs != [] {
      assert ops[0].source == outcrop;
    }
    var d := UpsertAll(t, ops);
    if n > 0 && outcrop in d {
      ScanRollsCount(d[outcrop], answer, k, n);
    }
    UpsertAllIdempotent(t, ops);
  }

  /** What a break spawns from its rolls: every chosen resource as many times as it was
      chosen, and the default prefab, alone, exactly when every roll chose nothing. */
  lemma BreakSpawns(rolls: seq<TechType>, r: TechType)
    requires r != None
    ensures multiset(SpawnsOf(rolls))[Resource(r)] == multiset(rolls)[r]
    ensures DefaultPrefab in SpawnsOf(rolls) <==> forall i | 0 <= i < |rolls| :: rolls[i] == None
    ensures DefaultPrefab in SpawnsOf(rolls) ==> SpawnsOf(rolls) == [DefaultPrefab]
  {
    SpawnsOfFallback(rolls);
    ChosenCounts(rolls, r);
  }

  /** The rolls of a break and what they spawn: `numChances` calls of
      `ChooseRandomResourceTechType`, a spawn for every resource chosen, and the default
      prefab when none was (`spawnSuccessful` still false). A roll that throws ends the
      rolls, with nothing spawned. */
  method RollResources(customDrops: OutcropDrops, instance: BreakableResource, entropy: PlayerEntropy)
    returns (thrown: bool, spawns: seq<Spawn>)
    modifies customDrops, entropy`checks
    ensures var r := Rolls(old(customDrops.drops), instance.techType, instance.prefabList, entropy.answer,
                           old(entropy.checks), NumRolls(instance.numChances));
      && customDrops.drops == r.drops && entropy.checks == r.checks && thrown == r.thrown
      && spawns == if r.thrown then [] else SpawnsOf(r.rolls)
  {
    ghost var drops0, k0 := customDrops.drops, entropy.checks;
    ghost var outcrop, prefabs, answer := instance.techType, instance.prefabList, entropy.answer;
    ghost var d1 := UpsertAll(drops0, OutcropsUtils.VanillaOps(outcrop, prefabs));
    ghost var rolls: seq<TechType> := [];
    var spawnSuccessful := false;
    spawns := [];
    var i := 0;
    while i < instance.numChances
      invariant 0 <= i <= NumRolls(instance.numChances)
      invariant i == 0 ==> customDrops.drops == drops0 && entropy.checks == k0 && rolls == []
      invariant i > 0 ==> customDrops.drops == d1 && outcrop in d1
      invariant i > 0 ==> (rolls, entropy.checks) == ScanRolls(d1[outcrop], answer, k0, i)
      invariant spawns == Chosen(rolls)
      invariant spawnSuccessful <==> spawns != []
    {
      if i > 0 {
        UpsertAllIdempotent(drops0, OutcropsUtils.VanillaOps(outcrop, prefabs));
      }
      var chosen := OutcropsUtils.ChooseRandomResourceTechType(customDrops, instance, entropy);
      assert customDrops.drops == d1;
      if chosen.Threw? {
        return true, [];
      }
      var chosenResource := chosen.value;
      if chosenResource != None {
        spawns := spawns + [Resource(chosenResource)];
        spawnSuccessful := true;
      }
      ChosenSnoc(rolls, chosenResource);
      rolls := rolls + [chosenResource];
      i := i + 1;
    }
    if !spawnSuccessful {
      spawns := spawns + [DefaultPrefab];
    }
    assert spawns == SpawnsOf(rolls);
    return false, spawns;
  }

  /** The `BreakableResource.BreakIntoResources` prefix: on an outcrop already broken it
      does nothing; otherwise it marks the outcrop broken and makes its rolls and spawns.
      It returns `false` so the game's own break never runs; a `KeyNotFoundException` from
      a roll ends the break. */
  method BreakIntoResources(customDrops: OutcropDrops, instance: BreakableResource, entropy: PlayerEntropy)
    returns (result: Outcome<bool>, spawns: seq<Spawn>)
    modifies instance`broken, customDrops, entropy`checks
    ensures instance.broken
    ensures old(instance.broken) ==>
      result == Done(false) && spawns == [] &&
      customDrops.drops == old(customDrops.drops) && entropy.checks == old(entropy.checks)
    ensures !old(instance.broken) ==>
      var r := Rolls(old(customDrops.drops), instance.techType, instance.prefabList, entropy.answer,
                     old(entropy.checks), NumRolls(instance.numChances));
      && customDrops.drops == r.drops && entropy.checks == r.checks
      && (r.thrown ==> result == Threw(KeyNotFound) && spawns == [])
      && (!r.thrown ==> result == Done(false) && spawns == SpawnsOf(r.rolls))
  {
    if instance.broken {
      return Done(false), [];
    }
    instance.broken := true;
    var thrown;
    thrown, spawns := RollResources(customDrops, instance, entropy);
    if thrown {
      return Threw(KeyNotFound), spawns;
    }
    return Done(false), spawns;
  }
}
