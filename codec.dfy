/**
 * The parts of the colour/archetype identity scheme the engine relies on.
 * The label <-> id <-> bitmask codec itself is not part of this model: its
 * results reach the queries as resolved ids and labels.
 */
module Codec {
  import opened Grouping

  /** The base colour combination of an archetype id: its low five bits. */
  function BaseColors(id: nat): (c: nat)
    ensures c < 32
  {
    id % 32
  }

  /** The subdivision of an archetype id within its colour combination. */
  function Subdivision(id: nat): nat {
    id / 32
  }

  /** An archetype id is determined by its colours and its subdivision. */
  lemma IdDecomposes(id: nat)
    ensures id == 32 * Subdivision(id) + BaseColors(id)
  {
  }

  /**
   * Which archetypes a query keeps. "ALL" is a label the codec resolves to an id
   * of its own (`allId`), but the card queries skip the archetype filter for it.
   */
  datatype Selection = AllArchetypes(allId: nat) | OneArchetype(id: nat) {
    /** `archLabelToID(arch_label)`. */
    function ResolvedId(): nat {
      if AllArchetypes? then allId else id
    }

    /** The `if arch_label != 'ALL': where(arch_id == id)` filter. */
    predicate Admits(archId: nat) {
      AllArchetypes? || archId == id
    }
  }

  /** The fixed output order of the format overview: ALL, then by number of colours. */
  const CanonicalOrder: seq<string> :=
    ["ALL", "C", "W", "U", "B", "R", "G",
     "WU", "WB", "WR", "WG", "UB", "UR", "UG", "BR", "BG", "RG",
     "WUB", "WUR", "WUG", "WBR", "WBG", "WRG", "UBR", "UBG", "URG", "BRG",
     "WUBR", "WUBG", "WURG", "WBRG", "UBRG", "WUBRG"]

  lemma CanonicalOrderShape()
    ensures |CanonicalOrder| == 33 && CanonicalOrder[0] == "ALL"
    ensures Distinct(CanonicalOrder)
  {
  }
}
