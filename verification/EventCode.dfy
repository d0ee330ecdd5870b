/** Event, group and instance codes (public/fdbus/common_defs.h).

    A code is a signed 32-bit integer: the group in the top 8 bits, the event
    or instance number in the low 24 bits.  Low bits all ones stand for the
    whole group; the code -1 (all 32 bits set) stands for everything.  Dafny's
    division by 2^24 rounds down, which is the arithmetic shift. */
module EventCode {

  type Code = int

  const GROUP_SPAN := 0x100_0000
  const ID_MASK := 0xFF_FFFF
  const AUTO_INSTANCE_BEGIN := 0xFF_0000
  const AUTO_INSTANCE_END := 0xFF_FFFE

  /** The group with all 8 bits set, as a signed byte. */
  const ALL_GROUPS := -1

  /** Everything: all groups, all events. */
  const EVERYTHING: Code := -1

  function GroupOf(c: Code): int {
    c / GROUP_SPAN
  }

  function IdOf(c: Code): int {
    c % GROUP_SPAN
  }

  predicate IsGroup(c: Code) {
    IdOf(c) == ID_MASK
  }

  predicate InGroup(c: Code, group: int) {
    GroupOf(c) == group
  }

  predicate SameGroup(a: Code, b: Code) {
    GroupOf(a) == GroupOf(b)
  }

  /** The whole group that a code belongs to. */
  function MakeGroup(c: Code): (g: Code)
    ensures IsGroup(g) && SameGroup(g, c)
    ensures IsGroup(c) ==> g == c
    ensures g == EVERYTHING <==> InGroup(c, ALL_GROUPS)
  {
    GroupOf(c) * GROUP_SPAN + ID_MASK
  }

  /** Keeps the group of `group` and takes `id` as the low bits. */
  function Merge(group: Code, id: int): (c: Code)
    requires 0 <= id < GROUP_SPAN
    ensures SameGroup(c, group) && IdOf(c) == id
  {
    GroupOf(group) * GROUP_SPAN + id
  }
}
