/**
  OutcropsHelper's `BreakableResourcePatcher`, the older revision: the `HandTarget.Awake`
  postfix only makes sure the outcrop has a list in the registry, and the
  `BreakableResource.BreakIntoResources` prefix rolls with this revision's
  `ChooseRandomResourceTechType`, which never writes the registry. Sounds, effects,
  messages and log text are not modelled; what a break puts into the world is its list
  of `Spawn`s.
 */
module HelperBreakableResourcePatcher {
  import opened Tech
  import opened DropTable
  import opened Interfaces
  import opened Registries
  import opened Game
  import opened Selection
  import opened HelperOutcropsUtils

  // ---------------------------------------------------------------------------
  // Awake

  /** `if (!CustomDrops.ContainsKey(outcrop)) CustomDrops.Add(outcrop, new())`. */
  function WithList(t: Table<()>, outcrop: TechType): Table<()>
  {
    if outcrop in t then t else t[outcrop := []]
  }

  /** The `HandTarget.Awake` postfix: nothing for a target that is not a
      `BreakableResource`; otherwise the outcrop gets an empty list when it has none. The
      vanilla prefabs are converted and united with the list, but the union is discarded, so
      the registry keeps what it had. */
  method Awake(customDrops: OutcropDrops, target: HandTarget)
    modifies customDrops
    ensures target.OtherTarget? ==> customDrops.drops == old(customDrops.drops)
    ensures target.Breakable? ==> customDrops.drops == WithList(old(customDrops.drops), target.resource.techType)
  {
    if target.OtherTarget? {
      return;
    }
    var instance := target.resource;
    var outcropTechType := instance.techType;
    if outcropTechType !in customDrops.drops {
      customDrops.drops := customDrops.drops[outcropTechType := []];
    }
    var convertedDropsDatas := ConvertPrefabs(instance.prefabList);
    var discarded := customDrops.drops[outcropTechType] + convertedDropsDatas;
  }

  /** After the postfix the outcrop has a list, every registered entry (of any source) is
      still found with the same data, no source other than the outcrop appears, and running
      the postfix again changes nothing. */
  lemma WithListKeeps(t: Table<()>, outcrop: TechType, source: TechType, r: TechType)
    ensures outcrop in WithList(t, outcrop)
    ensures Lookup(WithList(t, outcrop), source, r) == Lookup(t, source, r)
    ensures source in WithList(t, outcrop) <==> source in t || source == outcrop
    ensures WithList(WithList(t, outcrop), outcrop) == WithList(t, outcrop)
  {
    if source == outcrop && outcrop !in t {
      var none: seq<OutcropDropData> := [];
      assert IndexOf(none, r) == -1;
    }
  }

  // ---------------------------------------------------------------------------
  // BreakIntoResources

  /** `n` rolls of a break. The registry is never written, so every roll scans the same
      list, the outcrop's entries followed by its vanilla prefabs; the first roll throws
      when the outcrop has no list. */
  function Rolls(t: Table<()>, outcrop: TechType, prefabs: seq<RandomPrefab>,
                 answer: (nat, TechType, real) -> bool, k: nat, n: nat): Rolled
  {
    if n == 0 then Rolled(false, [], t, k)
    else if outcrop !in t then Rolled(true, [], t, k)
    else
      var (rolls, k') := ScanRolls(t[outcrop] + Converted(prefabs), answer, k, n);
      Rolled(false, rolls, t, k')
  }

  /** A break makes one roll per chance, each the choice `Choose` makes from the count the
      previous roll left; it throws exactly when it rolls at all and the outcrop has no list,
      and it leaves the registry as it was. */
  lemma RollsCount(t: Table<()>, outcrop: TechType, prefabs: seq<RandomPrefab>,
                   answer: (nat, TechType, real) -> bool, k: nat, n: nat)
    ensures var r := Rolls(t, outcrop, prefabs, answer, k, n);
      && (r.thrown <==> n > 0 && outcrop !in t)
      && (!r.thrown ==> |r.rolls| == n)
      && r.drops == t
    ensures n > 0 && outcrop in t ==>
      var r := Rolls(t, outcrop, prefabs, answer, k, n);
      var before := Rolls(t, outcrop, prefabs, answer, k, n - 1);
      (Done(r.rolls[n - 1]), r.checks) == Choose(t, outcrop, prefabs, answer, before.checks)
  {
    if n > 0 && outcrop in t {
      var list := t[outcrop] + Converted(prefabs);
      ScanRollsCount(list, answer, k, n);
      if n > 1 {
        ScanRollsCount(list, answer, k, n - 1);
      }
    }
  }

  /** Once the `Awake` postfix has run for the outcrop, its break never throws; when the
      outcrop had no registered drops, each roll scans its vanilla prefabs alone. */
  lemma AwakeThenRolls(t: Table<()>, outcrop: TechType, prefabs: seq<RandomPrefab>,
                       answer: (nat, TechType, real) -> bool, k: nat, n: nat)
    ensures !Rolls(WithList(t, outcrop), outcrop, prefabs, answer, k, n).thrown
    ensures outcrop !in t && n > 0 ==>
      Rolls(WithList(t, outcrop), outcrop, prefabs, answer, k, n).rolls == ScanRolls(Converted(prefabs), answer, k, n).0
  {
    assert [] + Converted(prefabs) == Converted(prefabs);
  }

  /** The rolls of a break and what they spawn: `numChances` calls of
      `ChooseRandomResourceTechType`, a spawn for every resource chosen, and the default
      prefab when none was. A roll that throws ends the rolls, with nothing spawned. */
  method RollResources(customDrops: OutcropDrops, instance: BreakableResource, entropy: PlayerEntropy)
    returns (thrown: bool, spawns: seq<Spawn>)
    modifies entropy`checks
    ensures var r := Rolls(customDrops.drops, instance.techType, instance.prefabList, entropy.answer,
                           old(entropy.checks), NumRolls(instance.numChances));
      && entropy.checks == r.checks && thrown == r.thrown
      && spawns == if r.thrown then [] else SpawnsOf(r.rolls)
  {
    ghost var k0 := entropy.checks;
    ghost var outcrop, prefabs, answer := instance.techType, instance.prefabList, entropy.answer;
    ghost var rolls: seq<TechType> := [];
    var spawnSuccessful := false;
    spawns := [];
    var i := 0;
    while i < instance.numChances
      invariant 0 <= i <= NumRolls(instance.numChances)
      invariant i == 0 ==> entropy.checks == k0 && rolls == []
      invariant i > 0 ==> outcrop in customDrops.drops
      invariant i > 0 ==> (rolls, entropy.checks) == ScanRolls(customDrops.drops[outcrop] + Converted(prefabs), answer, k0, i)
      invariant spawns == Chosen(rolls)
      invariant spawnSuccessful <==> spawns != []
    {
      var chosen := ChooseRandomResourceTechType(customDrops, instance, entropy);
      if chosen.Threw? {
        return true, [];
      }
      var chosenResource := chosen.value;
      if chosenResource != None {
        spawns := spawns + [Resource(chosenResource)];
        spawnSuccessful := true;
      }
      ChosenSnoc(rolls, chosenResource);
      rolls := rolls + [chosenResource];
      i := i + 1;
    }
    if !spawnSuccessful {
      spawns := spawns + [DefaultPrefab];
    }
    assert spawns == SpawnsOf(rolls);
    return false, spawns;
  }

  /** The `BreakableResource.BreakIntoResources` prefix: on an outcrop already broken it
      does nothing; otherwise it marks the outcrop broken and makes its rolls and spawns.
      It returns `false` so the game's own break never runs; an `ArgumentNullException`
      from a roll ends the break. */
  method BreakIntoResources(customDrops: OutcropDrops, instance: BreakableResource, entropy: PlayerEntropy)
    returns (result: Outcome<bool>, spawns: seq<Spawn>)
    modifies instance`broken, entropy`checks
    ensures instance.broken
    ensures old(instance.broken) ==> result == Done(false) && spawns == [] && entropy.checks == old(entropy.checks)
    ensures !old(instance.broken) ==>
      var r := Rolls(customDrops.drops, instance.techType, instance.prefabList, entropy.answer,
                     old(entropy.checks), NumRolls(instance.numChances));
      && entropy.checks == r.checks
      && (r.thrown ==> result == Threw(ArgumentNull) && spawns == [])
      && (!r.thrown ==> result == Done(false) && spawns == SpawnsOf(r.rolls))
  {
    if instance.broken {
      return Done(false), [];
    }
    instance.broken := true;
    var thrown;
    thrown, spawns := RollResources(customDrops, instance, entropy);
    if thrown {
      return Threw(ArgumentNull), spawns;
    }
    return Done(false), spawns;
  }
}
