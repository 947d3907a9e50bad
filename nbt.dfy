/**
 * Minecraft's named binary tags: a compound maps string keys to tags, and
 * its typed getters fall back to a default for a missing key.
 */
module Nbt {
  import opened JavaLang
  import opened Bukkit

  /**
   * A tag. A UUID is stored as a four-int array in the game; UuidTag stands
   * for such an array. Only the tag kinds the modelled code reads or writes
   * are distinguished; every other kind is OtherTag.
   */
  datatype Tag =
    | IntTag(i: i32)
    | FloatTag(f: Float)
    | DoubleTag(d: Double)
    | StringTag(s: string)
    | UuidTag(uuid: Uuid)
    | CompoundTag(entries: map<string, Tag>)
    | OtherTag(kind: nat)

  /** CompoundTag's contents. */
  type Compound = map<string, Tag>

  /** NBTCompound, the plugin's own wrapper around a CompoundTag (getRAW returns the wrapped tag). */
  datatype NBTCompound = NBTCompound(raw: Compound)

  /**
   * CompoundTag.getDouble: the stored double, or 0.0 for a missing key or a
   * tag that is not numeric. The game also converts a numeric tag of another
   * kind; that conversion is not modelled and such a tag reads as 0.0 here.
   */
  function GetDouble(nbt: Compound, key: string): (r: Double)
    ensures key in nbt && nbt[key].DoubleTag? ==> r == nbt[key].d
    ensures !(key in nbt && nbt[key].DoubleTag?) ==> r == 0
  {
    if key in nbt && nbt[key].DoubleTag? then nbt[key].d else 0
  }

  /**
   * CompoundTag.getFloat: the stored float, or 0.0f for a missing key or a
   * tag that is not numeric; as for getDouble, a numeric tag of another kind
   * reads as 0.0f here.
   */
  function GetFloat(nbt: Compound, key: string): (r: Float)
    ensures key in nbt && nbt[key].FloatTag? ==> r == nbt[key].f
    ensures !(key in nbt && nbt[key].FloatTag?) ==> r == 0
  {
    if key in nbt && nbt[key].FloatTag? then nbt[key].f else 0
  }

  /**
   * CompoundTag.getUUID, which hands the tag under key to NbtUtils.loadUUID:
   * the UUID of a four-int array; NullPointerException for a missing key and
   * IllegalArgumentException for a tag of any other kind.
   */
  function GetUuid(nbt: Compound, key: string): (r: Result<Uuid>)
    ensures r.Ok? <==> key in nbt && nbt[key].UuidTag?
    ensures r.Ok? ==> r.value == nbt[key].uuid
    ensures key !in nbt ==> r == Err(NullPointerException)
    ensures key in nbt && !nbt[key].UuidTag? ==> r == Err(IllegalArgumentException)
  {
    if key !in nbt then Err(NullPointerException)
    else if nbt[key].UuidTag? then Ok(nbt[key].uuid)
    else Err(IllegalArgumentException)
  }
}
