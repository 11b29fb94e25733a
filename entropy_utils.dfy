/**
  CuddleLibs' `EntropyUtils.EnsureTechEntropy`: the find-or-append of the fair randomizer
  kept for a TechType in the player's `PlayerEntropy.randomizers` list. `Player.main`'s
  component is passed in as `player`.
 */
module EntropyUtils {
  import opened Tech
  import opened Game

  /** `randomizers.Find(pete => pete.techType == techType)`: the position of the first
      randomizer for `t`, or -1 when there is none. */
  function FindEntropy(rs: seq<TechEntropy>, t: TechType): (k: int)
    ensures -1 <= k < |rs|
    ensures 0 <= k ==> rs[k].techType == t
    ensures forall i | 0 <= i < |rs| && (k < 0 || i < k) :: rs[i].techType != t
    decreases |rs|
  {
    if rs == [] then -1
    else if rs[|rs| - 1].techType != t then
      FindEntropy(rs[..|rs| - 1], t)
    else
      var k := FindEntropy(rs[..|rs| - 1], t);
      if k < 0 then |rs| - 1 else k
  }

  /** The list after an ensure of `t`: unchanged when `t` has a randomizer, otherwise with
      `created` appended. */
  function Ensured(rs: seq<TechEntropy>, t: TechType, created: TechEntropy): seq<TechEntropy>
  {
    if FindEntropy(rs, t) < 0 then rs + [created] else rs
  }

  /** At most one randomizer per TechType. */
  ghost predicate UniqueTypes(rs: seq<TechEntropy>)
  {
    forall i, j | 0 <= i < j < |rs| :: rs[i].techType != rs[j].techType
  }

  /** `EnsureTechEntropy(techType)`: the randomizer already kept for `techType`, or a new one
      appended to the list. */
  method EnsureTechEntropy(player: PlayerEntropy, techType: TechType) returns (techEntropy: TechEntropy)
    modifies player`randomizers
    ensures techEntropy.techType == techType
    ensures player.randomizers == Ensured(old(player.randomizers), techType, techEntropy)
    ensures FindEntropy(old(player.randomizers), techType) >= 0 ==>
      techEntropy == old(player.randomizers)[FindEntropy(old(player.randomizers), techType)]
    ensures FindEntropy(old(player.randomizers), techType) < 0 ==> fresh(techEntropy)
  {
    var k := FindEntropy(player.randomizers, techType);
    if k < 0 {
      techEntropy := new TechEntropy(techType);
      player.randomizers := player.randomizers + [techEntropy];
    } else {
      techEntropy := player.randomizers[k];
    }
  }

  /** After an ensure the TechType has a randomizer, and the one found is the one returned. */
  lemma EnsuredFinds(rs: seq<TechEntropy>, t: TechType, created: TechEntropy)
    requires created.techType == t
    ensures var k := FindEntropy(Ensured(rs, t, created), t);
      && 0 <= k
      && (FindEntropy(rs, t) < 0 ==> Ensured(rs, t, created)[k] == created)
      && (FindEntropy(rs, t) >= 0 ==> k == FindEntropy(rs, t))
  {
    if FindEntropy(rs, t) < 0 {
      var rs' := rs + [created];
      assert rs'[..|rs'| - 1] == rs;
    }
  }

  /** A second ensure of the same TechType finds what the first left and changes nothing. */
  lemma EnsuredIdempotent(rs: seq<TechEntropy>, t: TechType, first: TechEntropy, second: TechEntropy)
    requires first.techType == t
    ensures Ensured(Ensured(rs, t, first), t, second) == Ensured(rs, t, first)
  {
    EnsuredFinds(rs, t, first);
  }

  /** An ensure keeps at most one randomizer per TechType. */
  lemma EnsuredKeepsUnique(rs: seq<TechEntropy>, t: TechType, created: TechEntropy)
    requires UniqueTypes(rs) && created.techType == t
    ensures UniqueTypes(Ensured(rs, t, created))
  {
  }

  /** Two ensures of one TechType: the second returns the first's randomizer and leaves the
      list as the first left it. */
  method EnsureTechEntropyTwice(player: PlayerEntropy, techType: TechType)
    returns (first: TechEntropy, second: TechEntropy)
    modifies player`randomizers
    ensures first == second && first.techType == techType
    ensures player.randomizers == Ensured(old(player.randomizers), techType, first)
  {
    first := EnsureTechEntropy(player, techType);
    EnsuredFinds(old(player.randomizers), techType, first);
    second := EnsureTechEntropy(player, techType);
    EnsuredIdempotent(old(player.randomizers), techType, first, second);
  }

  /** Some randomizer of the list is kept for `t`. */
  ghost predicate Has(rs: seq<TechEntropy>, t: TechType)
  {
    exists i | 0 <= i < |rs| :: rs[i].techType == t
  }

  /** An ensure leaves `t` with a randomizer and keeps every randomizer there was. */
  lemma EnsuredHas(rs: seq<TechEntropy>, t: TechType, created: TechEntropy)
    requires created.techType == t
    ensures rs <= Ensured(rs, t, created)
    ensures Has(Ensured(rs, t, created), t)
  {
    var rs' := Ensured(rs, t, created);
    var k := FindEntropy(rs, t);
    if k < 0 {
      assert rs'[|rs|].techType == t;
    } else {
      assert rs'[k].techType == t;
    }
  }

  /** A list that grows at its end keeps every randomizer it had. */
  lemma HasGrows(rs: seq<TechEntropy>, rs': seq<TechEntropy>, t: TechType)
    requires rs <= rs' && Has(rs, t)
    ensures Has(rs', t)
  {
    var i :| 0 <= i < |rs| && rs[i].techType == t;
    assert rs'[i] == rs[i];
  }
}
