# Outcrop and creature drop registry

A model of the drop registry and drop selection of the CuddleLibs Subnautica modding
library and of its older OutcropsHelper revision. Mods register drops: a resource and a
chance, under a *source* TechType (an outcrop kind or a creature species). When an outcrop
is broken or a creature dies, the patched game code rolls over the registered drops and
spawns what the rolls chose.

- `DropTable` holds the registry as a value: a map from source TechType to an ordered list
  of `Entry(resource, chance, extra)`, where `extra` is `()` for outcrops and
  `CreatureExtra(dropAmount, unique)` for creatures. The two ways of registering are
  modelled here. An upsert overwrites the entry for the resource or appends one. A
  try-add never overwrites and reports `false` when the entry exists. The chance scan is
  here too.
- `Registries` is the mutable `CustomDrops` dictionary: a class whose `drops` field the
  registering methods reassign. Every method is proved against the `DropTable` function it
  implements.
- The game's chance check (`PlayerEntropy.CheckChance`) is an oracle
  `answer(n, techType, chance)`, indexed by the running count of checks (`Game`).
- `OutcropsUtils`, `CreatureDropsUtils`, `GadgetExtensions`, `EntropyUtils`,
  `BreakableResourcePatcher` and `CreaturePatcher` model CuddleLibs.
- `HelperOutcropsUtils` and `HelperBreakableResourcePatcher` model OutcropsHelper.
- `Interfaces` holds the drop-data types, their field defaults and the `ToString` line
  format.
- `Selection` holds the scan loop and what a roll loop spawns.

What a patch puts into the world is returned as a list of `Spawn`s. An exception is an
`Outcome` value (`Threw(KeyNotFound)`, `Threw(NullReference)`, `Threw(ArgumentNull)`, `Threw(Argument)` for an `ArgumentException`).

Behaviour kept as written:
- CuddleLibs' `ChooseRandomResourceTechType` upserts every vanilla prefab of the outcrop on
  every call. A custom chance registered for a vanilla resource is therefore overwritten by
  the first break (`OutcropsUtils.VanillaChanceOverwrites`). Repeating those upserts
  changes nothing more (`DropTable.UpsertAllIdempotent`), so all the rolls of one break
  scan the same list.
- `CreaturePatcher.OnKill` makes `CustomDrops.Count` rolls. That is the number of
  registered creatures, not the number of drops of the dying creature. The model keeps
  this bound in both the as-written and the corrected roll loops.
- CuddleLibs' `Awake` calls `OutcropsUtils.EnsureTechEntropy`, which does not exist: the
  method is `EntropyUtils.EnsureTechEntropy`. The model calls the latter.

## Model

| member | source | states |
|---|---|---|
| DropTable.IndexOf | CuddleLibs/Utility/OutcropsUtils.cs:106 | `List.Find` by resource: the first index holding the resource, or -1 when no entry holds it |
| DropTable.FirstSuccess | CuddleLibs/Utility/OutcropsUtils.cs:24-33 | the index of the first entry whose check succeeds; every check before it failed; -1 when all failed |
| DropTable.TryAddFlags | CuddleLibs/Utility/OutcropsUtils.cs:240-249 | one flag per op of a batch try-add |
| DropTable.IndexOfFound | CuddleLibs/Utility/OutcropsUtils.cs:106 | `Find` succeeds exactly when the resource is among the list's resources |
| DropTable.IndexOfPrefix | OutcropsHelper/Utility/OutcropsUtils.cs:36 | entries appended after a list do not change the first match of a resource the list holds |
| DropTable.LookupAfterUpsert | CuddleLibs/Utility/OutcropsUtils.cs:101-125 | after an upsert the resource's entry carries exactly the chance and fields written |
| DropTable.UpsertLeavesOthers | CuddleLibs/Utility/OutcropsUtils.cs:101-125 | an upsert changes no other (source, resource) pair |
| DropTable.UpsertShape | CuddleLibs/Utility/OutcropsUtils.cs:101-125 | after an upsert, other sources keep their lists and the source's list keeps its order, growing by at most one entry |
| DropTable.UpsertKeepsUnique | CuddleLibs/Utility/OutcropsUtils.cs:101-125 | an upsert never creates a second entry for a resource under one source |
| DropTable.UpsertLastWins | CuddleLibs/Assets/Gadgets/GadgetExtensions.cs:22 | two upserts of one resource leave what the second wrote |
| DropTable.UpsertAppends | CuddleLibs/Utility/OutcropsUtils.cs:106-110 | a registered source without an entry for the resource gets exactly one entry appended |
| DropTable.UpsertOverwrites | CuddleLibs/Utility/OutcropsUtils.cs:112-117 | an existing entry is overwritten in place; the list's length and order are unchanged |
| DropTable.UpsertNewSource | CuddleLibs/Utility/OutcropsUtils.cs:119-123 | an unregistered source gets a list holding only the new entry; other sources are untouched |
| DropTable.UpsertIdempotent | CuddleLibs/Utility/OutcropsUtils.cs:101-125 | repeating an upsert changes nothing |
| DropTable.TryAddContract | CuddleLibs/Utility/OutcropsUtils.cs:195-212 | a try-add reports false and changes nothing exactly when an entry exists; otherwise it appends or creates the list and reports true |
| DropTable.TryAddExisting | CuddleLibs/Utility/OutcropsUtils.cs:199-203 | an existing entry gives `false` and an unchanged registry |
| DropTable.TryAddAppends | CuddleLibs/Utility/OutcropsUtils.cs:205-207 | a registered source without the resource gets one entry appended and `true` |
| DropTable.TryAddNewSource | CuddleLibs/Utility/OutcropsUtils.cs:209-211 | an unregistered source gets a one-entry list and `true` |
| DropTable.TryAddKeepsUnique | CuddleLibs/Utility/OutcropsUtils.cs:195-212 | a try-add never creates a second entry for a resource |
| DropTable.TryAddKeepsLookup | CuddleLibs/Utility/OutcropsUtils.cs:195-212 | a try-add never changes an entry that was already there |
| DropTable.TryAddAllKeepsLookup | CuddleLibs/Utility/OutcropsUtils.cs:240-249 | a batch try-add never changes an entry that was already there |
| DropTable.TryAddAllMakesPresent | CuddleLibs/Utility/OutcropsUtils.cs:240-249 | after a batch try-add every pair of the batch has an entry |
| DropTable.TryAddAllPresentIsNoop | CuddleLibs/Utility/OutcropsUtils.cs:240-249 | a batch try-add whose pairs are all present changes nothing |
| DropTable.TryAddAllIdempotent | CuddleLibs/Patchers/BreakableResourcePatcher.cs:24-25 | a second run of the same batch try-add changes nothing, so seeding twice is harmless |
| DropTable.TryAddAllKeepsUnique | CuddleLibs/Utility/OutcropsUtils.cs:240-249 | a batch try-add keeps one entry per resource |
| DropTable.UpsertAllKeepsUnique | CuddleLibs/Utility/OutcropsUtils.cs:152-161 | a batch upsert keeps one entry per resource |
| DropTable.UpsertAllLastWins | CuddleLibs/Assets/Gadgets/GadgetExtensions.cs:34-43 | in a batch upsert the last op for a pair decides its entry |
| DropTable.UpsertAllKeepsOrder | CuddleLibs/Utility/OutcropsUtils.cs:152-161 | a batch upsert keeps every list's resources in order and only appends after them |
| DropTable.UpsertAllLeavesOthers | CuddleLibs/Utility/OutcropsUtils.cs:152-161 | an entry no op of the batch names is left as it was |
| DropTable.UpsertAllLastFor | CuddleLibs/Assets/Gadgets/GadgetExtensions.cs:34-43 | an op that no later op repeats decides its pair's entry |
| DropTable.UpsertAllAppend | CuddleLibs/Utility/OutcropsUtils.cs:152-161 | a batch upsert split in two is the second part run after the first |
| DropTable.UpsertAllKeys | CuddleLibs/Utility/OutcropsUtils.cs:152-161 | a batch upsert has a list for a source exactly when the source had one or an op names it |
| DropTable.TryAddAllKeys | CuddleLibs/Utility/OutcropsUtils.cs:240-249 | the same for a batch try-add |
| DropTable.UpsertAllMakesPresent | CuddleLibs/Utility/OutcropsUtils.cs:19-22 | after the vanilla upserts every vanilla pair has an entry |
| DropTable.UpsertAllIdempotent | CuddleLibs/Utility/OutcropsUtils.cs:19-22 | repeating a batch upsert changes nothing, so every break after the first finds the registry as the first left it |
| DropTable.TryAddFlagsMeaning | CuddleLibs/Utility/OutcropsUtils.cs:240-249 | the flag of op `i` is true exactly when its pair had no entry after the ops before it |
| DropTable.WithoutMembers | CuddleLibs/Utility/OutcropsUtils.cs:64-66 | `RemoveAll` keeps exactly the entries whose resource is not removed, in order |
| DropTable.WithoutAppend | CuddleLibs/Utility/OutcropsUtils.cs:64-66 | removal keeps each part's surviving entries in their order, the first part's first |
| DropTable.WithoutKeepsUnique | CuddleLibs/Utility/OutcropsUtils.cs:64-66 | removing entries keeps a list free of duplicate resources |
| DropTable.ScanFirstSuccess | CuddleLibs/Utility/OutcropsUtils.cs:24-33 | first success wins: the chosen entry's check succeeded, all before it failed, none after it was made; otherwise `None` after one check per entry |
| DropTable.ScanNoneWhenAllFail | CuddleLibs/Utility/OutcropsUtils.cs:24-34 | with no `None` entry, the scan returns `None` exactly when every check failed |
| DropTable.ScanAppend | OutcropsHelper/Utility/OutcropsUtils.cs:36-46 | the second of two concatenated lists is only scanned when every check of the first failed |
| Selection.ScanDrops | CuddleLibs/Utility/CreatureDropsUtils.cs:26-35 | the `foreach` with `break` returns the scan's choice and makes the scan's number of checks |
| Selection.Chosen | CuddleLibs/Patchers/BreakableResourcePatcher.cs:59-68 | spawns only resources the rolls chose, none of them `None` |
| Selection.ChosenEmpty | CuddleLibs/Patchers/BreakableResourcePatcher.cs:58-68 | nothing is spawned by the rolls exactly when every roll chose `None` |
| Selection.ChosenCounts | CuddleLibs/Patchers/BreakableResourcePatcher.cs:59-68 | a resource is spawned once per roll that chose it |
| Selection.SpawnsOfFallback | CuddleLibs/Patchers/BreakableResourcePatcher.cs:69-73 | the default prefab is spawned, alone, exactly when no roll chose a resource |
| Selection.ScanRollsCount | CuddleLibs/Patchers/BreakableResourcePatcher.cs:59-61 | `n` rolls make `n` choices, the last being the scan from the count the others left |
| Selection.NumRolls | CuddleLibs/Patchers/BreakableResourcePatcher.cs:59 | the `for` loop makes `numChances` rolls, none when it is not positive |
| Game.PlayerEntropy.CheckChance | CuddleLibs/Utility/OutcropsUtils.cs:27 | each check consumes the oracle's next answer |
| Registries.Registry.constructor | CuddleLibs/Patchers/CreaturePatcher.cs:17 | the static dictionary starts empty |
| Interfaces.NewOutcropDropData | CuddleLibs/Interfaces/OutcropDropData.cs:11-16 | the resource is required; `chance` starts at 0.5 |
| Interfaces.NewCreatureDropData | CuddleLibs/Interfaces/DropsDatas/CreatureDropData.cs:14-19 | `unique` starts false and `dropAmount` at 1; the resource and chance come from `DropData` |
| Interfaces.ToStringPrefixed | CuddleLibs/Interfaces/DropData.cs:50-62 | the `StringBuilder` loop emits exactly the brace and field lines, each terminated |
| Interfaces.ToString | CuddleLibs/Interfaces/DropData.cs:31-43 | the same with nothing prepended |
| Interfaces.LinesShape | CuddleLibs/Interfaces/DropData.cs:34-41 | `{` first and `}` last, one line per field in field order, a comma after every field line but the last, every line starting with `prepend` |
| Interfaces.SplitText | CuddleLibs/Interfaces/DropData.cs:53-61 | reading the output back line by line gives the lines written |
| OutcropsUtils.ToOutcropDropData | CuddleLibs/Utility/OutcropsUtils.cs:42-49 | copies the prefab's TechType and chance exactly |
| OutcropsUtils.EnsureOutcropDrop | CuddleLibs/Utility/OutcropsUtils.cs:101-125 | the registry becomes the upsert of the old one; the entry written is returned and found |
| OutcropsUtils.EnsureOutcropDropFromData | CuddleLibs/Utility/OutcropsUtils.cs:133-136 | the upsert of the given entry's fields |
| OutcropsUtils.EnsureOutcropDrops | CuddleLibs/Utility/OutcropsUtils.cs:152-161 | the batch upsert of the triples in order; element `i` of the array is triple `i`'s entry |
| OutcropsUtils.EnsureOutcropDropsFromData | CuddleLibs/Utility/OutcropsUtils.cs:175-185 | the same for `(outcrop, dropData)` pairs |
| OutcropsUtils.SetOutcropDropOut | CuddleLibs/Utility/OutcropsUtils.cs:195-212 | the try-add: `false` with the existing entry, or `true` with the new one |
| OutcropsUtils.SetOutcropDrop | CuddleLibs/Utility/OutcropsUtils.cs:221-224 | the try-add, reporting only the flag |
| OutcropsUtils.SetOutcropDrops | CuddleLibs/Utility/OutcropsUtils.cs:240-249 | the batch try-add in order, with one flag per triple |
| OutcropsUtils.SetOutcropDropsOut | CuddleLibs/Utility/OutcropsUtils.cs:266-276 | the batch try-add; entry `i` is the one stored for triple `i` |
| OutcropsUtils.SetOutcropDropFromDataOut | CuddleLibs/Utility/OutcropsUtils.cs:285-288 | the try-add of the given entry's fields, outputting the stored entry |
| OutcropsUtils.SetOutcropDropFromData | CuddleLibs/Utility/OutcropsUtils.cs:296-299 | the try-add of the given entry's fields |
| OutcropsUtils.RemoveVanillaDrops | CuddleLibs/Utility/OutcropsUtils.cs:57-73 | with no prefab: `false` and no change; otherwise the prefabs' resources are removed from the outcrop's list, the prefab list is cleared, and `true` |
| OutcropsUtils.ChooseRandomResourceTechType | CuddleLibs/Utility/OutcropsUtils.cs:13-35 | the vanilla upserts, then the first successful check of the outcrop's list, or `KeyNotFound` when it has none |
| OutcropsUtils.VanillaChanceOverwrites | CuddleLibs/Utility/OutcropsUtils.cs:19-22 | after a choice, each vanilla resource carries its prefab's chance: a custom chance for it is overwritten |
| CreatureDropsUtils.ChooseRandomResourceTechType | CuddleLibs/Utility/CreatureDropsUtils.cs:20-37 | the first successful check of the creature's list, or `KeyNotFound` for an unregistered creature; the registry is only read |
| CreatureDropsUtils.EnsureCreatureDrop | CuddleLibs/Utility/CreatureDropsUtils.cs:50-88 | the upsert of chance, `dropAmount` and `unique`; the entry written is returned and found |
| CreatureDropsUtils.EnsureCreatureDropFromData | CuddleLibs/Utility/CreatureDropsUtils.cs:96-99 | forwards all four fields unchanged and returns the given entry |
| CreatureDropsUtils.EnsureCreatureDrops | CuddleLibs/Utility/CreatureDropsUtils.cs:119-128 | the batch upsert in order; the array has one entry per tuple |
| CreatureDropsUtils.EnsureCreatureDropsFromData | CuddleLibs/Utility/CreatureDropsUtils.cs:142-151 | the same for `(creature, data)` pairs |
| GadgetExtensions.SetOutcropDrop | CuddleLibs/Assets/Gadgets/GadgetExtensions.cs:15-18 | `EnsureOutcropDrop(outcrop, prefab, chance)`, default chance 0.25 |
| GadgetExtensions.SetOutcropDrops | CuddleLibs/Assets/Gadgets/GadgetExtensions.cs:34-43 | the batch upsert of the pairs in order; one entry per pair |
| GadgetExtensions.OutcropBatchLastWins | CuddleLibs/Assets/Gadgets/GadgetExtensions.cs:22 | when an outcrop is named twice, the later pair's chance wins |
| GadgetExtensions.SetCreatureDrop | CuddleLibs/Assets/Gadgets/GadgetExtensions.cs:54-57 | `EnsureCreatureDrop(creature, prefab, …)` with defaults 0.25, 1 and false |
| GadgetExtensions.SetCreatureDrops | CuddleLibs/Assets/Gadgets/GadgetExtensions.cs:76-85 | the batch upsert of the tuples in order; one entry per tuple |
| GadgetExtensions.CreatureBatchLastWins | CuddleLibs/Assets/Gadgets/GadgetExtensions.cs:76-85 | when a creature is named twice, the later tuple's fields win |
| EntropyUtils.FindEntropy | CuddleLibs/Utility/EntropyUtils.cs:17 | the first randomizer kept for the TechType, or -1 |
| EntropyUtils.EnsureTechEntropy | CuddleLibs/Utility/EntropyUtils.cs:14-29 | returns the randomizer found, with the list unchanged, or a fresh one appended; its TechType is the argument |
| EntropyUtils.EnsuredFinds | CuddleLibs/Utility/EntropyUtils.cs:17-27 | after an ensure, the one found for the TechType is the one returned |
| EntropyUtils.EnsuredIdempotent | CuddleLibs/Utility/EntropyUtils.cs:14-29 | a second ensure of a TechType changes nothing |
| EntropyUtils.EnsuredKeepsUnique | CuddleLibs/Utility/EntropyUtils.cs:17-27 | at most one randomizer per TechType before means the same after |
| EntropyUtils.EnsureTechEntropyTwice | CuddleLibs/Utility/EntropyUtils.cs:14-29 | two calls return the same randomizer and grow the list at most once |
| EntropyUtils.EnsuredHas | CuddleLibs/Utility/EntropyUtils.cs:18-27 | an ensure keeps every randomizer and leaves the TechType with one |
| BreakableResourcePatcher.SwappedOps | CuddleLibs/Patchers/BreakableResourcePatcher.cs:24-25 | the seeding try-adds as written: the resource in the outcrop's place and vice versa |
| BreakableResourcePatcher.EnsureEntropyOfList | CuddleLibs/Patchers/BreakableResourcePatcher.cs:34-35 | every resource of a list gets a randomizer; the list only grows and stays free of duplicates |
| BreakableResourcePatcher.EnsureEntropyOfDrops | CuddleLibs/Patchers/BreakableResourcePatcher.cs:33-35 | every resource registered under any outcrop gets a randomizer |
| BreakableResourcePatcher.Awake | CuddleLibs/Patchers/BreakableResourcePatcher.cs:15-36 | other targets change nothing; an outcrop's seeding is the swapped batch try-add, after which every registered resource has a randomizer |
| BreakableResourcePatcher.SwappedSeedingMissesOutcrop | CuddleLibs/Patchers/BreakableResourcePatcher.cs:25 | seeding as written leaves an unregistered outcrop without a list and registers each vanilla resource as a source instead |
| BreakableResourcePatcher.SwappedSeedingExample | CuddleLibs/Patchers/BreakableResourcePatcher.cs:25 | outcrop 1 with vanilla prefab 2: after seeding, 2 has no entry under 1 |
| BreakableResourcePatcher.AwakeIntended | CuddleLibs/Patchers/BreakableResourcePatcher.cs:15-36 | the postfix with each prefab try-added under the outcrop |
| BreakableResourcePatcher.IntendedSeeding | CuddleLibs/Patchers/BreakableResourcePatcher.cs:24-25 | intended seeding registers every vanilla prefab under the outcrop, never overwrites a custom chance, and is harmless to repeat |
| BreakableResourcePatcher.RollsCount | CuddleLibs/Patchers/BreakableResourcePatcher.cs:59-68 | one roll per chance; a break throws exactly when the outcrop has neither a list nor a vanilla prefab; the registry is the vanilla upserts' |
| BreakableResourcePatcher.BreakSpawns | CuddleLibs/Patchers/BreakableResourcePatcher.cs:58-73 | each chosen resource is spawned once per roll that chose it; the default prefab, alone, exactly when nothing was chosen |
| BreakableResourcePatcher.RollResources | CuddleLibs/Patchers/BreakableResourcePatcher.cs:58-73 | the roll loop and fallback make the rolls and spawns of `Rolls` |
| BreakableResourcePatcher.BreakIntoResources | CuddleLibs/Patchers/BreakableResourcePatcher.cs:40-96 | a broken outcrop is left alone; otherwise it is marked broken and rolled; the prefix returns `false` |
| HelperOutcropsUtils.Converted | OutcropsHelper/Utility/OutcropsUtils.cs:90-97 | one entry per vanilla prefab, in list order, with the prefab's TechType and chance |
| HelperOutcropsUtils.ConvertPrefabs | OutcropsHelper/Utility/OutcropsUtils.cs:29-32 | the conversion loop builds exactly the converted list |
| HelperOutcropsUtils.ChooseRandomResourceTechType | OutcropsHelper/Utility/OutcropsUtils.cs:26-48 | `ArgumentNull` for an outcrop without a list; otherwise the first successful check over its entries followed by its vanilla prefabs; the registry is only read |
| HelperOutcropsUtils.ChooseCustomFirst | OutcropsHelper/Utility/OutcropsUtils.cs:34-46 | registered entries are checked first; the vanilla prefabs are checked only after every registered check failed; a missing list throws before any check |
| HelperOutcropsUtils.AddOrUpdateOutcropDrop | OutcropsHelper/Utility/OutcropsUtils.cs:106-130 | the upsert, resource first, default chance 0.5; the entry written is returned and found |
| HelperBreakableResourcePatcher.Awake | OutcropsHelper/Patchers/BreakableResourcePatcher.cs:24-48 | other targets change nothing; an outcrop without a list gets an empty one and nothing else changes, the union being discarded |
| HelperBreakableResourcePatcher.WithListKeeps | OutcropsHelper/Patchers/BreakableResourcePatcher.cs:34-42 | after the postfix the outcrop has a list, every entry is as it was, only that key is added, and a second run changes nothing |
| HelperBreakableResourcePatcher.RollsCount | OutcropsHelper/Patchers/BreakableResourcePatcher.cs:71-80 | one roll per chance, each this revision's choice; throws exactly when it rolls and the outcrop has no list; the registry is unchanged |
| HelperBreakableResourcePatcher.AwakeThenRolls | OutcropsHelper/Patchers/BreakableResourcePatcher.cs:34-37 | after the postfix a break never throws; with no registered drops every roll scans the vanilla prefabs alone |
| HelperBreakableResourcePatcher.RollResources | OutcropsHelper/Patchers/BreakableResourcePatcher.cs:70-85 | the roll loop and fallback make the rolls and spawns of `Rolls` |
| HelperBreakableResourcePatcher.BreakIntoResources | OutcropsHelper/Patchers/BreakableResourcePatcher.cs:52-108 | a broken outcrop is left alone; otherwise it is marked broken and rolled; the prefix returns `false` |
| CreaturePatcher.Amount | CuddleLibs/Interfaces/DropsDatas/CreatureDropData.cs:19 | `dropAmount` is a `ushort`, from 0 to 65535; a pick without drop data spawns none |
| CreaturePatcher.ChooseDropsAsWritten | CuddleLibs/Patchers/CreaturePatcher.cs:34-55 | the roll loop as written: a non-unique pick added twice, a pick without drop data throws, a unique pick replaces the list and ends the loop |
| CreaturePatcher.ChooseDrops | CuddleLibs/Patchers/CreaturePatcher.cs:34-55 | the corrected roll loop computes `Picks` |
| CreaturePatcher.PicksShape | CuddleLibs/Patchers/CreaturePatcher.cs:44-54 | every pick has drop data; at most one pick per roll; a unique pick is kept alone; without one, earlier picks are all kept in order |
| CreaturePatcher.FirstUniqueIs | CuddleLibs/Patchers/CreaturePatcher.cs:44-50 | the roll `FirstUnique` names picked a unique drop, and no earlier roll did |
| CreaturePatcher.KeptMembers | CuddleLibs/Patchers/CreaturePatcher.cs:41-52 | the kept rolls are exactly those whose pick has drop data |
| CreaturePatcher.PicksMeaning | CuddleLibs/Patchers/CreaturePatcher.cs:35-55 | against the `CustomDrops.Count` scans: without a unique pick, every roll with drop data is appended once in roll order and all rolls are made; otherwise the first unique pick is kept alone and the rolls stop right after it |
| CreaturePatcher.PicksNoUnique | CuddleLibs/Patchers/CreaturePatcher.cs:35-55 | with no unique pick, the picks are the rolls with drop data, after all the rolls' checks |
| CreaturePatcher.PicksFirstUnique | CuddleLibs/Patchers/CreaturePatcher.cs:44-50 | with a unique pick, it is kept alone and no check is made after its roll |
| CreaturePatcher.DoubleAddExample | CuddleLibs/Patchers/CreaturePatcher.cs:39 | one non-unique drop under an always-succeeding check is picked twice as written and once as intended |
| CreaturePatcher.NullPickExample | CuddleLibs/Patchers/CreaturePatcher.cs:38-44 | under an always-failing check the pick is `None`: as written the kill throws, as intended the roll adds nothing |
| CreaturePatcher.Copies | CuddleLibs/Patchers/CreaturePatcher.cs:64-68 | exactly `n` spawns of the resource |
| CreaturePatcher.DropsCounts | CuddleLibs/Patchers/CreaturePatcher.cs:58-68 | each pick's resource is spawned `dropAmount` times per time it was picked |
| CreaturePatcher.DropsOnlyPicks | CuddleLibs/Patchers/CreaturePatcher.cs:58-68 | nothing but the picks is spawned |
| CreaturePatcher.CopiesCount | CuddleLibs/Patchers/CreaturePatcher.cs:64-68 | the copies hold the resource `n` times and nothing else |
| CreaturePatcher.SpawnLoopNeverExits | CuddleLibs/Patchers/CreaturePatcher.cs:64 | with `i++` for `j++`, `j` stays 0, so the loop is still running after any number of iterations, one spawn each |
| CreaturePatcher.SpawnDrops | CuddleLibs/Patchers/CreaturePatcher.cs:58-69 | the corrected spawn loop: `dropAmount` copies per pick in order, or `NullReference` at the first pick without drop data |
| CreaturePatcher.OnKill | CuddleLibs/Patchers/CreaturePatcher.cs:21-69 | an enabled creature changes nothing; a `None` TechType throws; an unregistered creature changes nothing; otherwise the corrected rolls and spawns, which never throw |
| CreaturePatcher.DumpThrowsExample | CuddleLibs/Patchers/CreaturePatcher.cs:71-85 | a registry with a creature entry makes the closing dump throw an `ArgumentException` as written, while the corrected rolls finish |
| CreaturePatcher.KillSpawns | CuddleLibs/Interfaces/DropsDatas/CreatureDropData.cs:11-12 | a kill spawns `dropAmount` copies per pick, and a unique pick spawns alone |

## Left out

- Aliasing of drop-data objects: entries are values. A caller that keeps the entry an upsert returned does not see a later in-place overwrite of it.
- HelperOutcropsUtils.ChooseRandomResourceTechType: `Union` removes duplicates by reference; the model concatenates. The two agree because every entry is a fresh object, stored once.
- The chance check, `FairRandomizer` and `Player.main` are game code that is not shown. Each chance check is an oracle, and no claim is made about long-run fairness.
- `chance` is a real that is only stored and passed to the oracle. The documented range 0 to 1 is enforced nowhere in the source, so it is not assumed.
- Spawning (`SpawningUtils`, `SpawnResourceFromTechType`, `SpawnResourceAsync`), Unity physics, sound, VFX, `GoalManager`, `SendMessage`/`Destroy` and the log text are side effects. A spawn is an element of the returned list.
- `RemoveVanillaDropsAsync` is an asynchronous prefab load, and `JSONUtils` is file and assembly I/O. Neither is part of this model.
- Initialisers, `Global`, `LibInfo` and the Harmony registration are bootstrap code and are not part of this model.
- Interfaces.ToString: the reflected field list (`GetFields`, `GetValue`) is an input. So the model does not capture that `DropData.ToString` reflects over `OutcropDropData`'s fields even for a creature entry, where `FieldInfo.GetValue` throws an `ArgumentException`. The closing dump of `Creature.OnKill` is a row under Findings.
- CreatureDropsUtils.ChooseRandomResourceTechType: its log lines (CuddleLibs/Utility/CreatureDropsUtils.cs:28 and 32) interpolate the entry, which calls `DropData.ToString`. That throws the `ArgumentException` before the first chance check of any non-empty list, unless `InternalLogger.Debug` calls are compiled out. `InternalLogger` is not part of this model, and the model treats the log lines as having no effect.
- CreaturePatcher.OnKill: its rolls call `ChooseRandomResourceTechType`, so they share that log-line throw, which the model omits for the same reason.
- Interfaces.ToStringPrefixed: the line terminator is fixed at `\n`. On Windows `Environment.NewLine` is `\r\n`, which the model does not cover.
- OutcropsHelper's `OutcropDropData.ToString` reflects over `System.Type` and produces no meaningful output, so it is not modelled.
- HelperOutcropsUtils.ChooseRandomResourceTechType: it looks the outcrop up by `GetComponent<TechTag>().type`, which throws `NullReferenceException` when there is no `TechTag`. `HelperBreakableResourcePatcher.Awake` uses `CraftData.GetTechType` instead. The model takes both to be the outcrop's `techType` and omits that throw.
- OutcropsHelper's `GadgetExtensions` calls a method its revision does not have and adds to a fixed array, so it has no semantics to model.
- `SelfCheckingDictionary` is a plain map. The code only adds keys that are absent.
- The try/catch blocks of both `Awake` postfixes are not modelled. Nothing the model's seeding does can throw.
- BreakableResourcePatcher.EnsureEntropyOfDrops: the dictionary's iteration order is not known, so the model visits sources in an arbitrary order. The contract holds for any order.
- CreaturePatcher.OnKill is the corrected postfix. The as-written postfix is not a method, because its spawn loop does not terminate. Its roll loop is `ChooseDropsAsWritten`, and its spawn loop is `SpawnLoopAsWritten`.
- CreaturePatcher.SpawnDrops: on a throw, the contract says which prefix of the picks was spawned. The model does not record the `i` that the as-written inner loop corrupts.

## Findings

| source | as written | input that shows it | evidently intended | confidence | as-written member | corrected member |
|---|---|---|---|---|---|---|
| CuddleLibs/Patchers/BreakableResourcePatcher.cs:25 | `SetOutcropDrop(prefabTechType, outcropTechType, chance)` passes the resource where the outcrop belongs | outcrop 1 with one vanilla prefab 2 and no list: after `Awake`, 2 has no entry under 1, and 1 is registered under 2 | try-add each vanilla prefab under the outcrop | not executed | BreakableResourcePatcher.SwappedSeedingExample | BreakableResourcePatcher.IntendedSeeding |
| CuddleLibs/Patchers/CreaturePatcher.cs:39 | a non-unique pick is added at line 39 and again at line 52 | one non-unique drop, one registered creature, every check succeeding: the picks are `[R, R]` | each pick added once | not executed | CreaturePatcher.DoubleAddExample | CreaturePatcher.PicksMeaning |
| CuddleLibs/Patchers/CreaturePatcher.cs:44 | a pick without drop data is logged, then `dropData.unique` dereferences null | one drop, every check failing: the pick is `None` and the kill throws `NullReferenceException` | a roll that picked nothing adds nothing | not executed | CreaturePatcher.NullPickExample | CreaturePatcher.OnKill |
| CuddleLibs/Patchers/CreaturePatcher.cs:64 | the inner loop increments `i`, so `j` stays 0 | any pick whose `dropAmount` is 1 or more: the loop never ends and spawns without bound | `j++`: exactly `dropAmount` copies per pick | not executed | CreaturePatcher.SpawnLoopNeverExits | CreaturePatcher.DropsCounts |
| CuddleLibs/Patchers/CreaturePatcher.cs:80 | the dump renders each `CreatureDropData` with `DropData.ToString`, which reads `OutcropDropData`'s fields off it with `FieldInfo.GetValue` | one creature registered with one non-unique entry whose `dropAmount` is 0, every check succeeding: the rolls and spawns finish and the dump throws `ArgumentException` | render each entry with its own fields, so the dump only writes log text | not executed | CreaturePatcher.DumpThrowsExample | CreaturePatcher.OnKill |
