/**
  The parts of the game the drop core touches, reduced to what the core reads and writes:
  a breakable outcrop, a creature, the player's entropy store and the spawns a break
  produces. The random answers of the player's entropy are a parameter of the model.
 */
module Game {
  import opened Tech

  /** `BreakableResource.RandomPrefab`: one vanilla drop of an outcrop. */
  datatype RandomPrefab = RandomPrefab(prefabTechType: TechType, chance: real)

  /** What a break puts into the world: a resource by TechType, or the outcrop's
      `defaultPrefabReference`. */
  datatype Spawn = Resource(techType: TechType) | DefaultPrefab

  /** A breakable outcrop. `techType` is `CraftData.GetTechType(gameObject)`. */
  class BreakableResource {
    const techType: TechType
    var prefabList: seq<RandomPrefab>
    const numChances: int
    var broken: bool

    constructor (techType: TechType, prefabList: seq<RandomPrefab>, numChances: int)
      ensures this.techType == techType && this.prefabList == prefabList
      ensures this.numChances == numChances && !broken
    {
      this.techType := techType;
      this.prefabList := prefabList;
      this.numChances := numChances;
      broken := false;
    }
  }

  /** The component a patched `Awake` runs on: a `BreakableResource`, or anything else. */
  datatype HandTarget = Breakable(resource: BreakableResource) | OtherTarget

  /** A creature. `techType` is `CraftData.GetTechType(gameObject)`; `enabled` is the
      component's flag the kill patch checks first. */
  class Creature {
    const techType: TechType
    const enabled: bool

    constructor (techType: TechType, enabled: bool)
      ensures this.techType == techType && this.enabled == enabled
    {
      this.techType := techType;
      this.enabled := enabled;
    }
  }

  /** `PlayerEntropy.TechEntropy`: the fair randomizer kept for one TechType. */
  class TechEntropy {
    const techType: TechType

    constructor (techType: TechType)
      ensures this.techType == techType
    {
      this.techType := techType;
    }
  }

  /** `PlayerEntropy`: the list of per-TechType randomizers and the chance checks.
      The answer to the n-th check is `answer(n, techType, chance)`; `checks` counts the
      checks made so far. */
  class PlayerEntropy {
    var randomizers: seq<TechEntropy>
    const answer: (nat, TechType, real) -> bool
    var checks: nat

    constructor (answer: (nat, TechType, real) -> bool)
      ensures randomizers == [] && this.answer == answer && checks == 0
    {
      randomizers := [];
      this.answer := answer;
      checks := 0;
    }

    /** `CheckChance(techType, chance)`: the next answer of the oracle. */
    method CheckChance(techType: TechType, chance: real) returns (success: bool)
      modifies this`checks
      ensures checks == old(checks) + 1
      ensures success == answer(old(checks), techType, chance)
    {
      success := answer(checks, techType, chance);
      checks := checks + 1;
    }
  }
}
