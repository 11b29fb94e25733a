/**
  The chance scan every `ChooseRandomResourceTechType` runs, and what a roll loop of the
  break patches spawns from its rolls.
 */
module Selection {
  import opened Tech
  import opened DropTable
  import opened Game

  /** `foreach (dropData in list) if (CheckChance(dropData.TechType, dropData.chance))
      { result = dropData.TechType; break; }` starting from `result = None`. */
  method ScanDrops<X>(list: seq<Entry<X>>, entropy: PlayerEntropy) returns (result: TechType)
    modifies entropy`checks
    ensures (result, entropy.checks) == Scan(list, entropy.answer, old(entropy.checks))
  {
    ghost var k := entropy.checks;
    result := None;
    var j := 0;
    while j < |list|
      invariant 0 <= j <= |list|
      invariant entropy.checks == k + j
      invariant forall i | 0 <= i < j :: !entropy.answer(k + i, list[i].resource, list[i].chance)
    {
      var success := entropy.CheckChance(list[j].resource, list[j].chance);
      if success {
        FirstSuccessIs(list, entropy.answer, k, j);
        return list[j].resource;
      }
      j := j + 1;
    }
    FirstSuccessIs(list, entropy.answer, k, -1);
  }

  /** What a roll loop spawns: every roll that chose a resource, in roll order, and the
      default prefab once when no roll did. */
  function SpawnsOf(rolls: seq<TechType>): seq<Spawn>
  {
    var chosen := Chosen(rolls);
    if chosen == [] then [DefaultPrefab] else chosen
  }

  /** The spawns of the rolls that chose a resource, in roll order. */
  function Chosen(rolls: seq<TechType>): (spawns: seq<Spawn>)
    ensures |spawns| <= |rolls|
    ensures forall s | s in spawns :: s.Resource? && s.techType != None && s.techType in rolls
    decreases |rolls|
  {
    if rolls == [] then []
    else (if rolls[0] != None then [Resource(rolls[0])] else []) + Chosen(rolls[1..])
  }

  /** Nothing is chosen exactly when every roll came back `None`. */
  lemma {:induction false} ChosenEmpty(rolls: seq<TechType>)
    ensures Chosen(rolls) == [] <==> forall i | 0 <= i < |rolls| :: rolls[i] == None
    decreases |rolls|
  {
    if rolls != [] {
      ChosenEmpty(rolls[1..]);
      assert forall i | 1 <= i < |rolls| :: rolls[i] == rolls[1..][i - 1];
    }
  }

  /** Every roll that chose a resource is spawned once: a resource is spawned as many times
      as the rolls chose it. */
  lemma {:induction false} ChosenCounts(rolls: seq<TechType>, r: TechType)
    requires r != None
    ensures multiset(Chosen(rolls))[Resource(r)] == multiset(rolls)[r]
    decreases |rolls|
  {
    if rolls != [] {
      ChosenCounts(rolls[1..], r);
      assert rolls == [rolls[0]] + rolls[1..];
      assert multiset(rolls) == multiset{rolls[0]} + multiset(rolls[1..]);
      var head: seq<Spawn> := if rolls[0] != None then [Resource(rolls[0])] else [];
      assert multiset(Chosen(rolls)) == multiset(head) + multiset(Chosen(rolls[1..]));
    }
  }

  /** The default prefab is spawned once when every roll failed and never otherwise, and
      the resources spawned are exactly the chosen ones. */
  lemma SpawnsOfFallback(rolls: seq<TechType>)
    ensures DefaultPrefab in SpawnsOf(rolls) <==> forall i | 0 <= i < |rolls| :: rolls[i] == None
    ensures DefaultPrefab in SpawnsOf(rolls) ==> SpawnsOf(rolls) == [DefaultPrefab]
    ensures DefaultPrefab !in SpawnsOf(rolls) ==> SpawnsOf(rolls) == Chosen(rolls)
  {
    ChosenEmpty(rolls);
  }

  /** One more roll: its spawn, if it chose a resource, follows the earlier ones. */
  lemma {:induction false} ChosenSnoc(rolls: seq<TechType>, r: TechType)
    ensures Chosen(rolls + [r]) == Chosen(rolls) + (if r != None then [Resource(r)] else [])
    decreases |rolls|
  {
    if rolls != [] {
      assert (rolls + [r])[1..] == rolls[1..] + [r];
      ChosenSnoc(rolls[1..], r);
    }
  }

  /** `n` scans of one list, each starting from the check count the previous one left: the
      resources chosen (`None` for a scan where every check failed) and the final count. */
  function ScanRolls<X>(list: seq<Entry<X>>, answer: (nat, TechType, real) -> bool, k: nat, n: nat): (seq<TechType>, nat)
    decreases n
  {
    if n == 0 then ([], k)
    else
      var (rolls, k1) := ScanRolls(list, answer, k, n - 1);
      var (r, k2) := Scan(list, answer, k1);
      (rolls + [r], k2)
  }

  /** Each of `n` scans makes one roll, the `j`-th choosing the first entry whose check
      succeeded in that scan. */
  lemma {:induction false} ScanRollsCount<X>(list: seq<Entry<X>>, answer: (nat, TechType, real) -> bool, k: nat, n: nat)
    ensures |ScanRolls(list, answer, k, n).0| == n
    ensures n > 0 ==> var (rolls, k1) := ScanRolls(list, answer, k, n - 1);
      ScanRolls(list, answer, k, n).0[n - 1] == Scan(list, answer, k1).0
    decreases n
  {
    if n > 0 {
      ScanRollsCount(list, answer, k, n - 1);
    }
  }

  /** What the rolls of a break leave: whether one threw, the resources chosen (`None` for
      a roll that chose nothing), and the registry and check count after them. */
  datatype Rolled = Rolled(thrown: bool, rolls: seq<TechType>, drops: Table<()>, checks: nat)

  /** `n + 1` rolls are the first roll followed by `n` rolls from the count it left. */
  lemma {:induction false} ScanRollsCons<X>(list: seq<Entry<X>>, answer: (nat, TechType, real) -> bool, k: nat, n: nat)
    ensures var (r, k1) := Scan(list, answer, k);
      var (rest, kr) := ScanRolls(list, answer, k1, n);
      ScanRolls(list, answer, k, n + 1) == ([r] + rest, kr)
    decreases n
  {
    var (r, k1) := Scan(list, answer, k);
    if n > 0 {
      ScanRollsCons(list, answer, k, n - 1);
      var (rest, kr) := ScanRolls(list, answer, k1, n - 1);
      assert [r] + rest + [Scan(list, answer, kr).0] == [r] + (rest + [Scan(list, answer, kr).0]);
    } else {
      assert [] + [r] == [r] + [];
    }
  }
  /** The same `n` rolls, unrolled from the first: the first roll, then the rest from the
      count it left. */
  function RollsFrom<X>(list: seq<Entry<X>>, answer: (nat, TechType, real) -> bool, k: nat, n: nat): (seq<TechType>, nat)
    decreases n
  {
    if n == 0 then ([], k)
    else
      var (r, k1) := Scan(list, answer, k);
      var (rest, kr) := RollsFrom(list, answer, k1, n - 1);
      ([r] + rest, kr)
  }

  /** Unrolling the rolls from the first or from the last gives the same rolls and count. */
  lemma {:induction false} RollsFromIsScanRolls<X>(list: seq<Entry<X>>, answer: (nat, TechType, real) -> bool, k: nat, n: nat)
    ensures RollsFrom(list, answer, k, n) == ScanRolls(list, answer, k, n)
    decreases n
  {
    if n > 0 {
      var k1 := Scan(list, answer, k).1;
      RollsFromIsScanRolls(list, answer, k1, n - 1);
      ScanRollsCons(list, answer, k, n - 1);
    }
  }


  /** `for (int i = 0; i < numChances; i++)` makes this many rolls. */
  function NumRolls(numChances: int): (n: nat)
    ensures numChances <= 0 ==> n == 0
    ensures numChances >= 0 ==> n == numChances
  {
    if numChances < 0 then 0 else numChances
  }
}
