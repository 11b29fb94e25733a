/**
  The `CustomDrops` dictionaries: `BreakableResourcePatcher.CustomDrops` (outcrops, in each
  revision) and `CreaturePatcher.CustomDrops` (creatures). Each is an object whose one field,
  the dictionary, the utilities replace entry by entry; its value is a `DropTable.Table`.
 */
module Registries {
  import opened DropTable
  import opened Interfaces

  /** A `CustomDrops` dictionary from a source TechType to the list of its drop entries. */
  class Registry<X> {
    var drops: Table<X>

    /** The static initialiser: an empty dictionary. */
    constructor ()
      ensures drops == map[]
    {
      drops := map[];
    }
  }

  type OutcropDrops = Registry<()>
  type CreatureDrops = Registry<CreatureExtra>
}
