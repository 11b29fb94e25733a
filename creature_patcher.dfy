/**
  CuddleLibs' `CreaturePatcher`: the `Creature.OnKill` postfix that rolls a dead creature's
  registered drops and spawns them. The roll loop makes `CustomDrops.Count` rolls (one per
  registered creature), each a `ChooseRandomResourceTechType`, and a `unique` pick replaces
  everything picked so far and ends the rolls; the spawn loop then spawns `dropAmount`
  copies of every pick.

  Four defects of the code as written are modelled beside the evident intent:
  - a non-unique pick is added to the list twice (`ChooseDropsAsWritten`, `DoubleAddExample`);
  - a roll whose pick has no drop data (every check failed, so the pick is `None`) is
    logged and then dereferenced (`NullPickExample`);
  - the inner spawn loop increments `i` instead of `j`, so for a `dropAmount` of one or more
    it never ends (`SpawnLoopAsWritten`, `SpawnLoopNeverExits`);
  - the closing registry dump renders creature entries with `OutcropDropData`'s fields and
    throws an `ArgumentException` (`DumpAsWritten`, `DumpThrowsExample`).
  The corrected `ChooseDrops`, `SpawnDrops` and `OnKill` add a pick once, skip a roll that
  picked nothing, and spawn exactly `dropAmount` copies.
 */
module CreaturePatcher {
  import opened Tech
  import opened DropTable
  import opened Interfaces
  import opened Registries
  import opened Game
  import opened Selection
  import CreatureDropsUtils

  /** `CustomDrops[creature].Find(ctr => ctr.TechType == r) != null`. */
  predicate Registered(list: seq<CreatureDropData>, r: TechType)
  {
    IndexOf(list, r) >= 0
  }

  /** The drop data found for `r` is marked `unique`. */
  predicate IsUnique(list: seq<CreatureDropData>, r: TechType)
  {
    var idx := IndexOf(list, r);
    idx >= 0 && list[idx].extra.unique
  }

  /** The `dropAmount` of the drop data found for `r`; none is spawned without one. */
  function Amount(list: seq<CreatureDropData>, r: TechType): (n: nat)
    ensures n < 0x1_0000
    ensures !Registered(list, r) ==> n == 0
  {
    var idx := IndexOf(list, r);
    if idx < 0 then 0 else list[idx].extra.dropAmount
  }

  // ---------------------------------------------------------------------------
  // The roll loop

  /** The remaining `m` rolls of the corrected loop, after the picks `acc`: a roll whose
      pick has no drop data adds nothing, a `unique` pick is all that is kept and ends the
      rolls, any other pick is added once. Returns the picks and the check count. */
  function Picks(list: seq<CreatureDropData>, answer: (nat, TechType, real) -> bool, k: nat, m: nat,
                 acc: seq<TechType>): (seq<TechType>, nat)
    decreases m
  {
    if m == 0 then (acc, k)
    else
      var (r, k1) := Scan(list, answer, k);
      if !Registered(list, r) then Picks(list, answer, k1, m - 1, acc)
      else if IsUnique(list, r) then ([r], k1)
      else Picks(list, answer, k1, m - 1, acc + [r])
  }

  /** The remaining `m` rolls of the loop as written: a non-unique pick is added twice
      (lines 39 and 52), and a pick without drop data throws a `NullReferenceException`
      when `dropData.unique` is read. */
  function PicksAsWritten(list: seq<CreatureDropData>, answer: (nat, TechType, real) -> bool, k: nat, m: nat,
                          acc: seq<TechType>): (Outcome<seq<TechType>>, nat)
    decreases m
  {
    if m == 0 then (Done(acc), k)
    else
      var (r, k1) := Scan(list, answer, k);
      if !Registered(list, r) then (Threw(NullReference), k1)
      else if IsUnique(list, r) then (Done([r]), k1)
      else PicksAsWritten(list, answer, k1, m - 1, acc + [r, r])
  }

  /** The roll loop as written, for a registered creature. */
  method ChooseDropsAsWritten(customDrops: CreatureDrops, instance: Creature, entropy: PlayerEntropy)
    returns (result: Outcome<seq<TechType>>)
    requires instance.techType in customDrops.drops
    modifies entropy`checks
    ensures (result, entropy.checks) == PicksAsWritten(customDrops.drops[instance.techType], entropy.answer,
                                                       old(entropy.checks), |customDrops.drops|, [])
  {
    ghost var list, answer, n := customDrops.drops[instance.techType], entropy.answer, |customDrops.drops|;
    ghost var whole := PicksAsWritten(list, answer, entropy.checks, n, []);
    var choosenTechTypes: seq<TechType> := [];
    var i := 0;
    while i < |customDrops.drops|
      invariant 0 <= i <= n
      invariant whole == PicksAsWritten(list, answer, entropy.checks, n - i, choosenTechTypes)
    {
      var chosen := CreatureDropsUtils.ChooseRandomResourceTechType(customDrops, instance, entropy);
      var choosenTechType := chosen.value;
      var idx := IndexOf(customDrops.drops[instance.techType], choosenTechType);
      choosenTechTypes := choosenTechTypes + [choosenTechType];
      if idx < 0 {
        return Threw(NullReference);
      }
      if customDrops.drops[instance.techType][idx].extra.unique {
        choosenTechTypes := [choosenTechType];
        return Done(choosenTechTypes);
      }
      assert choosenTechTypes + [choosenTechType] == (choosenTechTypes[..|choosenTechTypes| - 1]) + [choosenTechType, choosenTechType];
      choosenTechTypes := choosenTechTypes + [choosenTechType];
      i := i + 1;
    }
    return Done(choosenTechTypes);
  }

  /** The corrected roll loop, for a registered creature. */
  method ChooseDrops(customDrops: CreatureDrops, instance: Creature, entropy: PlayerEntropy)
    returns (picks: seq<TechType>)
    requires instance.techType in customDrops.drops
    modifies entropy`checks
    ensures (picks, entropy.checks) == Picks(customDrops.drops[instance.techType], entropy.answer,
                                             old(entropy.checks), |customDrops.drops|, [])
  {
    ghost var list, answer, n := customDrops.drops[instance.techType], entropy.answer, |customDrops.drops|;
    ghost var whole := Picks(list, answer, entropy.checks, n, []);
    picks := [];
    var i := 0;
    while i < |customDrops.drops|
      invariant 0 <= i <= n
      invariant whole == Picks(list, answer, entropy.checks, n - i, picks)
    {
      var chosen := CreatureDropsUtils.ChooseRandomResourceTechType(customDrops, instance, entropy);
      var choosenTechType := chosen.value;
      var idx := IndexOf(customDrops.drops[instance.techType], choosenTechType);
      if idx >= 0 {
        if customDrops.drops[instance.techType][idx].extra.unique {
          return [choosenTechType];
        }
        picks := picks + [choosenTechType];
      }
      i := i + 1;
    }
  }

  /** What the corrected rolls keep: every pick has drop data; there is at most one pick
      per roll; a `unique` pick is kept alone; and when no pick is `unique`, the picks made
      before are all kept, in order. */
  lemma {:induction false} PicksShape(list: seq<CreatureDropData>, answer: (nat, TechType, real) -> bool, k: nat, m: nat,
                                      acc: seq<TechType>)
    requires forall x | x in acc :: Registered(list, x) && !IsUnique(list, x)
    ensures var (p, k') := Picks(list, answer, k, m, acc);
      && (forall x | x in p :: Registered(list, x))
      && |p| <= |acc| + m
      && (forall x | x in p && IsUnique(list, x) :: p == [x])
      && ((forall x | x in p :: !IsUnique(list, x)) ==> acc <= p)
      && k <= k'
    decreases m
  {
    if m > 0 {
      var (r, k1) := Scan(list, answer, k);
      if !Registered(list, r) {
        PicksShape(list, answer, k1, m - 1, acc);
      } else if !IsUnique(list, r) {
        PicksShape(list, answer, k1, m - 1, acc + [r]);
        var (p, k') := Picks(list, answer, k1, m - 1, acc + [r]);
        if forall x | x in p :: !IsUnique(list, x) {
          assert acc <= acc + [r];
        }
      }
    }
  }

  /** The first roll whose pick is `unique`, or -1 when there is none. */
  function FirstUnique(list: seq<CreatureDropData>, rolls: seq<TechType>): (u: int)
    ensures -1 <= u < |rolls|
  {
    if rolls == [] then -1
    else if IsUnique(list, rolls[0]) then 0
    else
      var u := FirstUnique(list, rolls[1..]);
      if u < 0 then -1 else u + 1
  }

  /** `FirstUnique` finds a `unique` pick, and no roll before it (or none at all, when it
      is -1) picked one. */
  lemma {:induction false} FirstUniqueIs(list: seq<CreatureDropData>, rolls: seq<TechType>)
    ensures var u := FirstUnique(list, rolls);
      && (u >= 0 ==> IsUnique(list, rolls[u]))
      && forall j | 0 <= j < |rolls| && (u < 0 || j < u) :: !IsUnique(list, rolls[j])
    decreases |rolls|
  {
    if rolls != [] {
      FirstUniqueIs(list, rolls[1..]);
      forall j | 1 <= j < |rolls| ensures rolls[j] == rolls[1..][j - 1] { }
    }
  }

  /** The rolls whose pick has drop data, in roll order. */
  function Kept(list: seq<CreatureDropData>, rolls: seq<TechType>): (picks: seq<TechType>)
    ensures |picks| <= |rolls|
  {
    if rolls == [] then []
    else (if Registered(list, rolls[0]) then [rolls[0]] else []) + Kept(list, rolls[1..])
  }

  /** `Kept` holds exactly the rolls whose pick has drop data. */
  lemma {:induction false} KeptMembers(list: seq<CreatureDropData>, rolls: seq<TechType>)
    ensures forall x :: x in Kept(list, rolls) <==> x in rolls && Registered(list, x)
    decreases |rolls|
  {
    if rolls != [] {
      KeptMembers(list, rolls[1..]);
      assert rolls == [rolls[0]] + rolls[1..];
    }
  }

  /** What the corrected `m` rolls pick, against the `m` scans they run: with no `unique`
      pick among the rolls, every roll whose pick has drop data is appended once, in roll
      order, and all `m` rolls are made; otherwise the first `unique` pick is kept alone and
      the rolls stop right after it. */
  lemma PicksMeaning(list: seq<CreatureDropData>, answer: (nat, TechType, real) -> bool, k: nat, m: nat,
                     acc: seq<TechType>)
    ensures var rolls := ScanRolls(list, answer, k, m).0;
      var u := FirstUnique(list, rolls);
      && (u < 0 ==> Picks(list, answer, k, m, acc) == (acc + Kept(list, rolls), ScanRolls(list, answer, k, m).1))
      && (u >= 0 ==> Picks(list, answer, k, m, acc) == ([rolls[u]], ScanRolls(list, answer, k, u + 1).1))
  {
    RollsFromIsScanRolls(list, answer, k, m);
    var u := FirstUnique(list, RollsFrom(list, answer, k, m).0);
    if u < 0 {
      PicksNoUnique(list, answer, k, m, acc);
    } else {
      PicksFirstUnique(list, answer, k, m, acc);
      RollsFromIsScanRolls(list, answer, k, u + 1);
    }
  }

  /** With no `unique` pick among the rolls, the picks are the rolls with drop data. */
  lemma {:induction false} PicksNoUnique(list: seq<CreatureDropData>, answer: (nat, TechType, real) -> bool, k: nat, m: nat,
                                         acc: seq<TechType>)
    requires FirstUnique(list, RollsFrom(list, answer, k, m).0) < 0
    ensures Picks(list, answer, k, m, acc) == (acc + Kept(list, RollsFrom(list, answer, k, m).0), RollsFrom(list, answer, k, m).1)
    decreases m
  {
    if m == 0 {
      assert acc + [] == acc;
    } else {
      var r, k1 := Scan(list, answer, k).0, Scan(list, answer, k).1;
      FirstUniqueCons(list, r, RollsFrom(list, answer, k1, m - 1).0);
      var acc' := if Registered(list, r) then acc + [r] else acc;
      PicksNoUnique(list, answer, k1, m - 1, acc');
      PicksNoUniqueStep(list, answer, k, m, acc);
    }
  }

  /** The step of `PicksNoUnique`: a first roll that is not `unique` moves its pick, when it
      has drop data, from the rolls to the picks. */
  lemma PicksNoUniqueStep(list: seq<CreatureDropData>, answer: (nat, TechType, real) -> bool, k: nat, m: nat,
                          acc: seq<TechType>)
    requires m > 0 && !IsUnique(list, Scan(list, answer, k).0)
    requires var r, k1 := Scan(list, answer, k).0, Scan(list, answer, k).1;
      var acc' := if Registered(list, r) then acc + [r] else acc;
      Picks(list, answer, k1, m - 1, acc') ==
        (acc' + Kept(list, RollsFrom(list, answer, k1, m - 1).0), RollsFrom(list, answer, k1, m - 1).1)
    ensures Picks(list, answer, k, m, acc) == (acc + Kept(list, RollsFrom(list, answer, k, m).0), RollsFrom(list, answer, k, m).1)
  {
    var r, k1 := Scan(list, answer, k).0, Scan(list, answer, k).1;
    var rest := RollsFrom(list, answer, k1, m - 1).0;
    KeptCons(list, r, rest);
    assert RollsFrom(list, answer, k, m).0 == [r] + rest;
    var acc' := if Registered(list, r) then acc + [r] else acc;
    assert acc' + Kept(list, rest) == acc + Kept(list, [r] + rest);
  }

  /** With a `unique` pick among the rolls, the picks are the first such pick alone, and the
      rolls end right after it. */
  lemma {:induction false} PicksFirstUnique(list: seq<CreatureDropData>, answer: (nat, TechType, real) -> bool, k: nat, m: nat,
                                            acc: seq<TechType>)
    requires FirstUnique(list, RollsFrom(list, answer, k, m).0) >= 0
    ensures var rolls := RollsFrom(list, answer, k, m).0;
      Picks(list, answer, k, m, acc) == ([rolls[FirstUnique(list, rolls)]], RollsFrom(list, answer, k, FirstUnique(list, rolls) + 1).1)
    decreases m
  {
    assert m > 0;
    var r, k1 := Scan(list, answer, k).0, Scan(list, answer, k).1;
    var rest := RollsFrom(list, answer, k1, m - 1).0;
    FirstUniqueCons(list, r, rest);
    if !IsUnique(list, r) {
      var acc' := if Registered(list, r) then acc + [r] else acc;
      PicksFirstUnique(list, answer, k1, m - 1, acc');
      var u' := FirstUnique(list, rest);
      assert ([r] + rest)[u' + 1] == rest[u'];
    }
  }

  /** `FirstUnique` of a roll followed by more rolls. */
  lemma FirstUniqueCons(list: seq<CreatureDropData>, r: TechType, rest: seq<TechType>)
    ensures FirstUnique(list, [r] + rest) ==
      if IsUnique(list, r) then 0 else if FirstUnique(list, rest) < 0 then -1 else FirstUnique(list, rest) + 1
  {
    assert ([r] + rest)[1..] == rest;
  }

  /** `Kept` of a roll followed by more rolls. */
  lemma KeptCons(list: seq<CreatureDropData>, r: TechType, rest: seq<TechType>)
    ensures Kept(list, [r] + rest) == (if Registered(list, r) then [r] else []) + Kept(list, rest)
  {
    assert ([r] + rest)[1..] == rest;
  }

  /** A chance oracle under which every check succeeds. */
  function AllSucceed(n: nat, t: TechType, c: real): bool
  {
    true
  }

  /** A chance oracle under which every check fails. */
  function AllFail(n: nat, t: TechType, c: real): bool
  {
    false
  }

  /** When every check succeeds, one non-unique drop rolled once is picked twice as
      written, and once as intended. */
  lemma DoubleAddExample()
    ensures var list := [Entry(Tech(1), 1.0, CreatureExtra(1, false))];
      && PicksAsWritten(list, AllSucceed, 0, 1, []) == (Done([Tech(1), Tech(1)]), 1)
      && Picks(list, AllSucceed, 0, 1, []) == ([Tech(1)], 1)
  {
    var list := [Entry(Tech(1), 1.0, CreatureExtra(1, false))];
    assert FirstSuccess(list, AllSucceed, 0) == 0;
    assert IndexOf(list, Tech(1)) == 0;
    assert [] + [Tech(1)] == [Tech(1)];
    assert [] + [Tech(1), Tech(1)] == [Tech(1), Tech(1)];
  }

  /** When every check fails, the pick is `None`, which has no drop data: as written the
      kill throws, as intended the roll adds nothing. */
  lemma NullPickExample()
    ensures var list := [Entry(Tech(1), 0.5, CreatureExtra(1, false))];
      && PicksAsWritten(list, AllFail, 0, 1, []) == (Threw(NullReference), 1)
      && Picks(list, AllFail, 0, 1, []) == ([], 1)
  {
    var list := [Entry(Tech(1), 0.5, CreatureExtra(1, false))];
    assert FirstSuccess(list[1..], AllFail, 1) == -1;
    assert FirstSuccess(list, AllFail, 0) == -1;
    assert IndexOf(list[1..], None) == -1;
    assert IndexOf(list, None) == -1;
  }

  // ---------------------------------------------------------------------------
  // The spawn loop

  /** `n` spawns of `r`. */
  function Copies(r: TechType, n: nat): (s: seq<Spawn>)
    ensures |s| == n && forall i | 0 <= i < n :: s[i] == Resource(r)
  {
    seq(n, i => Resource(r))
  }

  /** What the corrected spawn loop spawns: `dropAmount` copies of every pick, in pick
      order. */
  function Drops(list: seq<CreatureDropData>, picks: seq<TechType>): seq<Spawn>
    decreases |picks|
  {
    if picks == [] then []
    else
      var last := picks[|picks| - 1];
      Drops(list, picks[..|picks| - 1]) + Copies(last, Amount(list, last))
  }

  /** A pick's resource is spawned `dropAmount` times for every time it was picked. */
  lemma {:induction false} DropsCounts(list: seq<CreatureDropData>, picks: seq<TechType>, r: TechType)
    ensures multiset(Drops(list, picks))[Resource(r)] == multiset(picks)[r] * Amount(list, r)
    decreases |picks|
  {
    if picks != [] {
      var init, last := picks[..|picks| - 1], picks[|picks| - 1];
      DropsCounts(list, init, r);
      DropsSnocCount(list, picks, r);
      var m, a := multiset(init)[r], Amount(list, r);
      if last == r {
        MulSucc(m, a);
      }
    }
  }

  /** One more multiple of `a`. */
  lemma MulSucc(m: int, a: int)
    ensures (m + 1) * a == m * a + a
  {
  }

  /** The last pick adds its `dropAmount` copies to the spawned count of its own resource
      and nothing to any other, and one to its own pick count. */
  lemma DropsSnocCount(list: seq<CreatureDropData>, picks: seq<TechType>, r: TechType)
    requires picks != []
    ensures var init, last := picks[..|picks| - 1], picks[|picks| - 1];
      && multiset(Drops(list, picks))[Resource(r)] ==
         multiset(Drops(list, init))[Resource(r)] + (if last == r then Amount(list, r) else 0)
      && multiset(picks)[r] == multiset(init)[r] + (if last == r then 1 else 0)
  {
    var init, last := picks[..|picks| - 1], picks[|picks| - 1];
    assert picks == init + [last];
    var c := Copies(last, Amount(list, last));
    assert Drops(list, picks) == Drops(list, init) + c;
    CopiesCount(last, Amount(list, last), r);
  }

  /** Nothing but the picks is spawned. */
  lemma {:induction false} DropsOnlyPicks(list: seq<CreatureDropData>, picks: seq<TechType>)
    ensures forall s | s in Drops(list, picks) :: s.Resource? && s.techType in picks
    decreases |picks|
  {
    if picks != [] {
      var init, last := picks[..|picks| - 1], picks[|picks| - 1];
      DropsOnlyPicks(list, init);
      forall s | s in Drops(list, picks) ensures s.Resource? && s.techType in picks {
        if s in Drops(list, init) {
          assert s.techType in init;
        }
      }
    }
  }

  /** The copies of `r` are `n` spawns of it and none of anything else. */
  lemma CopiesCount(r: TechType, n: nat, x: TechType)
    ensures multiset(Copies(r, n))[Resource(x)] == if x == r then n else 0
    decreases n
  {
    if n > 0 {
      assert Copies(r, n) == Copies(r, n - 1) + [Resource(r)];
      CopiesCount(r, n - 1, x);
    }
  }

  /** The inner spawn loop as written, `for (int j = 0; j < dropAmount; i++)`, run for at
      most `steps` iterations from `(i, j)`: the final `(i, j)` and the number of spawns. */
  function SpawnLoopAsWritten(amount: UShort, i: int, j: int, steps: nat): (int, int, nat)
    decreases steps
  {
    if steps == 0 || !(j < amount) then (i, j, 0)
    else
      var (i', j', spawned) := SpawnLoopAsWritten(amount, i + 1, j, steps - 1);
      (i', j', spawned + 1)
  }

  /** For a `dropAmount` of one or more, `j` stays 0 and the loop condition still holds
      after any number of iterations, each of which spawned once: the loop never ends and
      spawns more than `dropAmount` copies. */
  lemma {:induction false} SpawnLoopNeverExits(amount: UShort, i: int, steps: nat)
    requires amount >= 1
    ensures SpawnLoopAsWritten(amount, i, 0, steps) == (i + steps, 0, steps)
    decreases steps
  {
    if steps > 0 {
      SpawnLoopNeverExits(amount, i + 1, steps - 1);
    }
  }

  /** The corrected spawn loop: for every pick, its drop data (a `NullReferenceException`
      when there is none) and `dropAmount` spawns of it. */
  method SpawnDrops(list: seq<CreatureDropData>, picks: seq<TechType>)
    returns (result: Outcome<()>, spawns: seq<Spawn>)
    ensures result == Done(()) <==> forall i | 0 <= i < |picks| :: Registered(list, picks[i])
    ensures result.Threw? ==> result.error == NullReference
    ensures result == Done(()) ==> spawns == Drops(list, picks)
    ensures result.Threw? ==>
      exists i | 0 <= i < |picks| :: !Registered(list, picks[i]) && spawns == Drops(list, picks[..i])
  {
    spawns := [];
    for i := 0 to |picks|
      invariant forall p | 0 <= p < i :: Registered(list, picks[p])
      invariant spawns == Drops(list, picks[..i])
    {
      var techType := picks[i];
      var idx := IndexOf(list, techType);
      if idx < 0 {
        return Threw(NullReference), spawns;
      }
      var dropData := list[idx];
      ghost var before := spawns;
      for j := 0 to dropData.extra.dropAmount
        invariant spawns == before + Copies(techType, j)
      {
        spawns := spawns + [Resource(techType)];
      }
      assert picks[..i + 1][..i] == picks[..i];
    }
    assert picks[..|picks|] == picks;
    return Done(()), spawns;
  }

  // ---------------------------------------------------------------------------
  // OnKill

  /** The registry dump that closes the postfix (lines 71-85), as written. Every entry of
      every creature is rendered by `DropData.ToString("\t\t")`, which lists the public
      fields of `OutcropDropData` (`resourceTechType` and `chance`) and reads each off the
      `CreatureDropData` with `FieldInfo.GetValue`. `OutcropDropData` is not a base of
      `CreatureDropData`, and `GetValue` rejects such a target with an `ArgumentException`,
      so the first entry rendered throws; a registry with no entry at all dumps quietly. */
  function DumpAsWritten(drops: Table<CreatureExtra>): (r: Outcome<()>)
  {
    if exists c | c in drops :: drops[c] != [] then Threw(Argument) else Done(())
  }

  /** A creature with one non-unique drop whose `dropAmount` is 0, every check succeeding:
      the rolls as written finish (the pick twice), the spawn loop as written spawns nothing
      and ends, and the dump throws. Corrected, the kill finishes without an exception. */
  lemma DumpThrowsExample()
    ensures var list := [Entry(Tech(1), 1.0, CreatureExtra(0, false))];
      var drops := map[Tech(9) := list];
      && PicksAsWritten(list, AllSucceed, 0, |drops|, []) == (Done([Tech(1), Tech(1)]), 1)
      && SpawnLoopAsWritten(Amount(list, Tech(1)), 0, 0, 1) == (0, 0, 0)
      && DumpAsWritten(drops) == Threw(Argument)
      && Picks(list, AllSucceed, 0, |drops|, []) == ([Tech(1)], 1)
  {
    var list := [Entry(Tech(1), 1.0, CreatureExtra(0, false))];
    var drops := map[Tech(9) := list];
    assert |drops| == 1;
    assert FirstSuccess(list, AllSucceed, 0) == 0;
    assert IndexOf(list, Tech(1)) == 0;
    assert [] + [Tech(1)] == [Tech(1)];
    assert [] + [Tech(1), Tech(1)] == [Tech(1), Tech(1)];
    assert Tech(9) in drops && drops[Tech(9)] != [];
  }

  /** The corrected `Creature.OnKill` postfix: nothing for a creature that is still
      enabled; a `NullReferenceException` for one without a TechType; nothing for a
      creature with no registered drops; otherwise its rolls and spawns, which never
      throw. The closing registry dump, corrected to render each entry with its own
      fields, only writes log text and is not modelled. */
  method OnKill(customDrops: CreatureDrops, instance: Creature, entropy: PlayerEntropy)
    returns (result: Outcome<()>, spawns: seq<Spawn>)
    modifies entropy`checks
    ensures instance.enabled || instance.techType == None || instance.techType !in customDrops.drops ==>
      && result == (if !instance.enabled && instance.techType == None then Threw(NullReference) else Done(()))
      && spawns == [] && entropy.checks == old(entropy.checks)
    ensures !instance.enabled && instance.techType != None && instance.techType in customDrops.drops ==>
      var list := customDrops.drops[instance.techType];
      var (picks, k') := Picks(list, entropy.answer, old(entropy.checks), |customDrops.drops|, []);
      && result == Done(()) && spawns == Drops(list, picks) && entropy.checks == k'
  {
    if instance.enabled {
      return Done(()), [];
    }
    var creatureTechType := instance.techType;
    if creatureTechType == None {
      return Threw(NullReference), [];
    }
    if creatureTechType !in customDrops.drops {
      return Done(()), [];
    }
    var list := customDrops.drops[creatureTechType];
    ghost var k0 := entropy.checks;
    var picks := ChooseDrops(customDrops, instance, entropy);
    PicksShape(list, entropy.answer, k0, |customDrops.drops|, []);
    result, spawns := SpawnDrops(list, picks);
  }

  /** A kill spawns each resource of the creature `dropAmount` times per pick; when the
      picks include a `unique` drop, only that drop is spawned. */
  lemma KillSpawns(list: seq<CreatureDropData>, answer: (nat, TechType, real) -> bool, k: nat, m: nat, r: TechType)
    ensures var picks := Picks(list, answer, k, m, []).0;
      && multiset(Drops(list, picks))[Resource(r)] == multiset(picks)[r] * Amount(list, r)
      && (r in picks && IsUnique(list, r) ==> Drops(list, picks) == Copies(r, Amount(list, r)))
  {
    var picks := Picks(list, answer, k, m, []).0;
    PicksShape(list, answer, k, m, []);
    DropsCounts(list, picks, r);
    if r in picks && IsUnique(list, r) {
      assert picks == [r];
      assert picks[..0] == [];
    }
  }
}
