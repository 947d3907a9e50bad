/**
 * NBTHelper: the NBT codecs for locations, item stacks and inventories, and
 * the deprecated null-tolerant wrappers around them.
 */
module NBTHelper {
  import opened JavaLang
  import opened Bukkit
  import opened Nbt
  import opened BukkitInventory
  import opened Sequences

  // ------------------------------------------------------------
  // Location
  // ------------------------------------------------------------

  const LOCATION_WORLD_KEY: string := "world"
  const LOCATION_X_KEY: string := "x"
  const LOCATION_Y_KEY: string := "y"
  const LOCATION_Z_KEY: string := "z"
  const LOCATION_YAW_KEY: string := "yaw"
  const LOCATION_PITCH_KEY: string := "pitch"

  /**
   * The UUID written under "world": the world's UID, or IDENTITY when
   * getWorld().getUID() throws, which it does for a location without a world
   * (a null dereference) and for one whose world is unloaded.
   */
  function StoredWorldUid(world: Option<World>): Uuid
  {
    if world.Some? && world.value.loaded then world.value.uid else IDENTITY
  }

  /**
   * LOCATION.serialize: the world UUID, x, y and z always; yaw and pitch only
   * when they are not zero.
   */
  function LocationSerialize(location: Location): (nbt: Compound)
    ensures nbt.Keys == {LOCATION_WORLD_KEY, LOCATION_X_KEY, LOCATION_Y_KEY, LOCATION_Z_KEY}
                        + (if FloatIsZero(location.yaw) then {} else {LOCATION_YAW_KEY})
                        + (if FloatIsZero(location.pitch) then {} else {LOCATION_PITCH_KEY})
    ensures nbt[LOCATION_WORLD_KEY].UuidTag?
    ensures location.world.Some? && location.world.value.loaded ==>
              nbt[LOCATION_WORLD_KEY] == UuidTag(location.world.value.uid)
    ensures !(location.world.Some? && location.world.value.loaded) ==> nbt[LOCATION_WORLD_KEY] == UuidTag(IDENTITY)
    ensures nbt[LOCATION_X_KEY] == DoubleTag(location.x)
    ensures nbt[LOCATION_Y_KEY] == DoubleTag(location.y)
    ensures nbt[LOCATION_Z_KEY] == DoubleTag(location.z)
    ensures !FloatIsZero(location.yaw) ==> nbt[LOCATION_YAW_KEY] == FloatTag(location.yaw)
    ensures !FloatIsZero(location.pitch) ==> nbt[LOCATION_PITCH_KEY] == FloatTag(location.pitch)
  {
    var nbt := map[LOCATION_WORLD_KEY := UuidTag(StoredWorldUid(location.world))];
    var nbt := nbt[LOCATION_X_KEY := DoubleTag(location.x)];
    var nbt := nbt[LOCATION_Y_KEY := DoubleTag(location.y)];
    var nbt := nbt[LOCATION_Z_KEY := DoubleTag(location.z)];
    var nbt := if FloatIsZero(location.yaw) then nbt else nbt[LOCATION_YAW_KEY := FloatTag(location.yaw)];
    if FloatIsZero(location.pitch) then nbt else nbt[LOCATION_PITCH_KEY := FloatTag(location.pitch)]
  }

  /**
   * LOCATION.deserialize: getUUID of "world" first, whose exception is passed
   * on (a missing key or a tag that is not a UUID); then no world for the
   * IDENTITY UUID and otherwise Bukkit.getWorld (the parameter getWorld) of
   * it; the coordinates and the rotation are read from their keys, 0 for a
   * missing one.
   */
  function LocationDeserialize(nbt: Compound, getWorld: Uuid -> Option<World>): (r: Result<Location>)
    ensures r.Err? <==> GetUuid(nbt, LOCATION_WORLD_KEY).Err?
    ensures r.Err? ==> r.error == GetUuid(nbt, LOCATION_WORLD_KEY).error
    ensures r.Ok? ==>
              var uid := GetUuid(nbt, LOCATION_WORLD_KEY).value;
              && (uid == IDENTITY ==> r.value.world.None?)
              && (uid != IDENTITY ==> r.value.world == getWorld(uid))
    ensures r.Ok? ==>
              && r.value.x == GetDouble(nbt, LOCATION_X_KEY)
              && r.value.y == GetDouble(nbt, LOCATION_Y_KEY)
              && r.value.z == GetDouble(nbt, LOCATION_Z_KEY)
              && r.value.yaw == GetFloat(nbt, LOCATION_YAW_KEY)
              && r.value.pitch == GetFloat(nbt, LOCATION_PITCH_KEY)
    ensures r.Ok? && LOCATION_YAW_KEY !in nbt ==> r.value.yaw == 0
    ensures r.Ok? && LOCATION_PITCH_KEY !in nbt ==> r.value.pitch == 0
  {
    match GetUuid(nbt, LOCATION_WORLD_KEY)
    case Err(e) => Err(e)
    case Ok(worldUuid) =>
      Ok(Location(
        if worldUuid == IDENTITY then None else getWorld(worldUuid),
        GetDouble(nbt, LOCATION_X_KEY),
        GetDouble(nbt, LOCATION_Y_KEY),
        GetDouble(nbt, LOCATION_Z_KEY),
        GetFloat(nbt, LOCATION_YAW_KEY),
        GetFloat(nbt, LOCATION_PITCH_KEY)))
  }

  /** What a round trip makes of a rotation angle: -0.0 comes back as +0.0, everything else as it was. */
  function RestoredAngle(f: Float): Float
  {
    if FloatIsZero(f) then 0 else f
  }

  /**
   * Reading back what serialize wrote gives the same coordinates and
   * rotation (up to the sign of a zero angle), and the world that getWorld
   * finds for the stored UID; a missing, unloaded or IDENTITY-UID world
   * comes back as no world.
   */
  lemma LocationRoundTrip(location: Location, getWorld: Uuid -> Option<World>)
    ensures LocationDeserialize(LocationSerialize(location), getWorld).Ok?
    ensures var r := LocationDeserialize(LocationSerialize(location), getWorld).value;
            && r.x == location.x && r.y == location.y && r.z == location.z
            && r.yaw == RestoredAngle(location.yaw) && r.pitch == RestoredAngle(location.pitch)
            && r.world == (var uid := StoredWorldUid(location.world); if uid == IDENTITY then None else getWorld(uid))
  {
  }

  /**
   * The round trip is exact for a location whose world is loaded and known
   * to getWorld under its UID (or which has no world), and whose angles are
   * not -0.0.
   */
  lemma LocationRoundTripExact(location: Location, getWorld: Uuid -> Option<World>)
    requires location.world.Some? ==>
               location.world.value.loaded && location.world.value.uid != IDENTITY
               && getWorld(location.world.value.uid) == location.world
    requires location.yaw != 0x8000_0000 && location.pitch != 0x8000_0000
    ensures LocationDeserialize(LocationSerialize(location), getWorld) == Ok(location)
  {
    LocationRoundTrip(location, getWorld);
    assert RestoredAngle(location.yaw) == location.yaw;
    assert RestoredAngle(location.pitch) == location.pitch;
  }

  /**
   * locationFromNBT: null for null, otherwise LOCATION.deserialize of the
   * wrapped compound, whose exception is passed on.
   */
  function LocationFromNBT(nbt: Option<NBTCompound>, getWorld: Uuid -> Option<World>): (r: Result<Option<Location>>)
    ensures nbt.None? ==> r == Ok(None)
    ensures nbt.Some? ==>
              var d := LocationDeserialize(nbt.value.raw, getWorld);
              && (d.Ok? ==> r == Ok(Some(d.value)))
              && (d.Err? ==> r == Err(d.error))
  {
    if nbt.None? then Ok(None)
    else
      match LocationDeserialize(nbt.value.raw, getWorld)
      case Ok(location) => Ok(Some(location))
      case Err(e) => Err(e)
  }

  /** locationToNBT: null for null, otherwise LOCATION.serialize wrapped in a new NBTCompound. */
  function LocationToNBT(location: Option<Location>): (r: Option<NBTCompound>)
    ensures r.Some? <==> location.Some?
    ensures location.Some? ==> r.value.raw == LocationSerialize(location.value)
  {
    if location.None? then None else Some(NBTCompound(LocationSerialize(location.value)))
  }

  // ------------------------------------------------------------
  // ItemStack
  // ------------------------------------------------------------

  /**
   * What the item codec rests on, all outside this model: ItemStack.save
   * into a fresh compound (ITEMSTACK.serialize), ItemStack.of
   * (ITEMSTACK.deserialize), and ItemUtils.isEmptyItem on a non-null item.
   */
  datatype ItemCodec<!Item> = ItemCodec(save: Item -> Compound, load: Compound -> Item, isEmpty: Item -> bool)

  /** ItemUtils.isEmptyItem: a null slot is empty too. */
  predicate IsEmptyItem<Item>(codec: ItemCodec<Item>, item: Option<Item>)
  {
    item.None? || codec.isEmpty(item.value)
  }

  /** The assumption under which an inventory round-trips: loading a saved non-empty item gives it back. */
  ghost predicate ItemsRoundTrip<Item(!new)>(codec: ItemCodec<Item>)
  {
    forall x :: !codec.isEmpty(x) ==> codec.load(codec.save(x)) == x
  }

  /** itemStackFromNBT: null for null, otherwise ITEMSTACK.deserialize of the wrapped compound. */
  function ItemStackFromNBT<Item>(codec: ItemCodec<Item>, nbt: Option<NBTCompound>): (r: Option<Item>)
    ensures r.Some? <==> nbt.Some?
    ensures nbt.Some? ==> r.value == codec.load(nbt.value.raw)
  {
    if nbt.None? then None else Some(codec.load(nbt.value.raw))
  }

  /** itemStackToNBT: null for null, otherwise ITEMSTACK.serialize wrapped in a new NBTCompound. */
  function ItemStackToNBT<Item>(codec: ItemCodec<Item>, item: Option<Item>): (r: Option<NBTCompound>)
    ensures r.Some? <==> item.Some?
    ensures item.Some? ==> r.value.raw == codec.save(item.value)
  {
    if item.None? then None else Some(NBTCompound(codec.save(item.value)))
  }

  /** The legacy wrappers round-trip whatever the item codec round-trips, and pass null through. */
  lemma LegacyItemRoundTrip<Item(!new)>(codec: ItemCodec<Item>, item: Option<Item>)
    requires ItemsRoundTrip(codec)
    requires item.Some? ==> !codec.isEmpty(item.value)
    ensures ItemStackFromNBT(codec, ItemStackToNBT(codec, item)) == item
  {
  }

  // ------------------------------------------------------------
  // Inventory
  // ------------------------------------------------------------

  /** The key of slot i: Integer.toString(i). */
  function SlotKey(i: nat): string
    requires i <= INT_MAX
  {
    IntegerToString(i as i32)
  }

  /** Distinct slots have distinct keys, and every slot key parses back to its slot. */
  lemma SlotKeyParses(i: nat)
    requires i <= INT_MAX
    ensures ParseInt(SlotKey(i)) == Some(i as i32)
  {
    ParseIntOfToString(i as i32);
  }

  /**
   * The compound INVENTORY.serialize writes for the given slots: one entry per
   * non-empty slot i, under Integer.toString(i), holding the item's
   * ITEMSTACK encoding.
   */
  function EncodeSlots<Item>(codec: ItemCodec<Item>, contents: seq<Option<Item>>): Compound
    requires |contents| <= INT_MAX + 1
  {
    if contents == [] then map[]
    else
      var i := |contents| - 1;
      var nbt := EncodeSlots(codec, contents[..i]);
      if IsEmptyItem(codec, contents[i]) then nbt else nbt[SlotKey(i) := CompoundTag(codec.save(contents[i].value))]
  }

  /** Distinct slots have distinct keys. */
  lemma SlotKeyInjective(i: nat, j: nat)
    requires i <= INT_MAX && j <= INT_MAX
    ensures SlotKey(i) == SlotKey(j) ==> i == j
  {
    SlotKeyParses(i);
    SlotKeyParses(j);
  }

  /** EncodeSlots unfolded once: the last slot's entry, if any, on top of the encoding of the others. */
  lemma EncodeSlotsLast<Item>(codec: ItemCodec<Item>, contents: seq<Option<Item>>)
    requires 0 < |contents| <= INT_MAX + 1
    ensures var n := |contents| - 1;
            EncodeSlots(codec, contents)
            == if IsEmptyItem(codec, contents[n]) then EncodeSlots(codec, contents[..n])
               else EncodeSlots(codec, contents[..n])[SlotKey(n) := CompoundTag(codec.save(contents[n].value))]
  {
  }

  /** The keys of the encoding are exactly the keys of the non-empty slots. */
  lemma {:induction false} EncodeSlotsKeys<Item>(codec: ItemCodec<Item>, contents: seq<Option<Item>>)
    requires |contents| <= INT_MAX + 1
    ensures forall k :: k in EncodeSlots(codec, contents) <==>
              exists i | 0 <= i < |contents| :: k == SlotKey(i) && !IsEmptyItem(codec, contents[i])
  {
    if contents != [] {
      var n := |contents| - 1;
      var init := contents[..n];
      EncodeSlotsLast(codec, contents);
      EncodeSlotsKeys(codec, init);
      forall k
        ensures k in EncodeSlots(codec, contents) <==>
                exists i | 0 <= i < |contents| :: k == SlotKey(i) && !IsEmptyItem(codec, contents[i])
      {
        if k in EncodeSlots(codec, init) {
          var i :| 0 <= i < n && k == SlotKey(i) && !IsEmptyItem(codec, init[i]);
          assert contents[i] == init[i];
        }
        if exists i | 0 <= i < |contents| :: k == SlotKey(i) && !IsEmptyItem(codec, contents[i]) {
          var i :| 0 <= i < |contents| && k == SlotKey(i) && !IsEmptyItem(codec, contents[i]);
          if i < n {
            assert init[i] == contents[i];
          }
        }
      }
    }
  }

  /** Each non-empty slot's key holds that slot's item. */
  lemma {:induction false} EncodeSlotsValues<Item>(codec: ItemCodec<Item>, contents: seq<Option<Item>>)
    requires |contents| <= INT_MAX + 1
    ensures forall i | 0 <= i < |contents| && !IsEmptyItem(codec, contents[i]) ::
              SlotKey(i) in EncodeSlots(codec, contents)
              && EncodeSlots(codec, contents)[SlotKey(i)] == CompoundTag(codec.save(contents[i].value))
  {
    if contents != [] {
      var n := |contents| - 1;
      var init := contents[..n];
      EncodeSlotsLast(codec, contents);
      EncodeSlotsValues(codec, init);
      forall i | 0 <= i < |contents| && !IsEmptyItem(codec, contents[i])
        ensures SlotKey(i) in EncodeSlots(codec, contents)
                && EncodeSlots(codec, contents)[SlotKey(i)] == CompoundTag(codec.save(contents[i].value))
      {
        if i < n {
          assert init[i] == contents[i];
          SlotKeyInjective(i, n);
        }
      }
    }
  }

  /**
   * The layout of the encoding: the keys are exactly the keys of the
   * non-empty slots, and each holds that slot's item.
   */
  lemma EncodeSlotsShape<Item>(codec: ItemCodec<Item>, contents: seq<Option<Item>>)
    requires |contents| <= INT_MAX + 1
    ensures forall k :: k in EncodeSlots(codec, contents) <==>
              exists i | 0 <= i < |contents| :: k == SlotKey(i) && !IsEmptyItem(codec, contents[i])
    ensures forall i | 0 <= i < |contents| && !IsEmptyItem(codec, contents[i]) ::
              EncodeSlots(codec, contents)[SlotKey(i)] == CompoundTag(codec.save(contents[i].value))
  {
    EncodeSlotsKeys(codec, contents);
    EncodeSlotsValues(codec, contents);
  }

  /**
   * INVENTORY.serialize: walks the slots in order and puts each non-empty
   * one into a new compound.
   */
  method InventorySerialize<Item>(inventory: Inventory<Item>, codec: ItemCodec<Item>) returns (nbt: Compound)
    requires |inventory.contents| <= INT_MAX + 1
    ensures nbt == EncodeSlots(codec, inventory.contents)
  {
    nbt := map[];
    var contents := inventory.GetContents();
    for i := 0 to contents.Length
      invariant nbt == EncodeSlots(codec, contents[..i])
    {
      var item := contents[i];
      if !IsEmptyItem(codec, item) {
        nbt := nbt[SlotKey(i) := CompoundTag(codec.save(item.value))];
      }
      assert contents[..i + 1][..i] == contents[..i];
    }
    assert contents[..contents.Length] == contents[..];
  }

  /** What INVENTORY.deserialize does with one entry of the compound. */
  datatype SlotOutcome<Item> =
    | NotCompound                      // logged and skipped
    | EmptyItem                        // skipped silently
    | BadKey                           // the key is not a number: logged and skipped
    | OutOfRange(badIndex: i32)        // logged and skipped
    | Stored(index: nat, item: Item)   // written into the slot

  /** A skipped entry that is logged as a warning. */
  predicate Logged<Item>(outcome: SlotOutcome<Item>)
  {
    outcome.NotCompound? || outcome.BadKey? || outcome.OutOfRange?
  }

  /**
   * The checks INVENTORY.deserialize makes of an entry, in the order it makes
   * them: a compound, a non-empty item, a numeric key, an index in [0, size).
   */
  function Classify<Item>(codec: ItemCodec<Item>, key: string, tag: Tag, size: nat): (o: SlotOutcome<Item>)
    ensures o.Stored? <==> tag.CompoundTag? && !codec.isEmpty(codec.load(tag.entries))
                           && ParseInt(key).Some? && 0 <= ParseInt(key).value as int < size
    ensures o.Stored? ==> ParseInt(key).Some? && ParseInt(key).value as int == o.index && o.item == codec.load(tag.entries)
  {
    if !tag.CompoundTag? then NotCompound
    else
      var parsed := codec.load(tag.entries);
      if codec.isEmpty(parsed) then EmptyItem
      else
        match ParseInt(key)
        case None => BadKey
        case Some(index) => if index < 0 || index as int >= size then OutOfRange(index) else Stored(index as nat, parsed)
  }

  /** The iteration order of a compound's key set: each key exactly once. */
  predicate KeyOrder(order: seq<string>, nbt: Compound)
  {
    (forall i | 0 <= i < |order| :: order[i] in nbt)
    && (forall k | k in nbt :: k in order)
    && (forall i, j | 0 <= i < j < |order| :: order[i] != order[j])
  }

  /** The slots after applying the entries under the keys of order, in that order, to slots. */
  function DecodeSlots<Item>(codec: ItemCodec<Item>, nbt: Compound, order: seq<string>, slots: seq<Option<Item>>)
    : (r: seq<Option<Item>>)
    requires forall i | 0 <= i < |order| :: order[i] in nbt
    ensures |r| == |slots|
  {
    if order == [] then slots
    else
      var init := order[..|order| - 1];
      assert forall i | 0 <= i < |init| :: init[i] == order[i];
      var key := order[|order| - 1];
      var r := DecodeSlots(codec, nbt, init, slots);
      match Classify(codec, key, nbt[key], |slots|)
      case Stored(index, item) => r[index := Some(item)]
      case _ => r
  }

  /** Whether the entry under key is logged as a warning. */
  function LoggedKey<Item>(codec: ItemCodec<Item>, nbt: Compound, size: nat): string -> bool
  {
    key => key in nbt && Logged(Classify(codec, key, nbt[key], size))
  }

  /** One more key: its entry applied on top of the slots decoded so far, and one more warning if it is logged. */
  lemma DecodeStep<Item>(codec: ItemCodec<Item>, nbt: Compound, order: seq<string>, i: nat, slots: seq<Option<Item>>)
    requires forall j | 0 <= j < |order| :: order[j] in nbt
    requires i < |order|
    ensures var before := DecodeSlots(codec, nbt, order[..i], slots);
            DecodeSlots(codec, nbt, order[..i + 1], slots)
            == match Classify(codec, order[i], nbt[order[i]], |slots|)
               case Stored(index, item) => before[index := Some(item)]
               case _ => before
    ensures Count(order[..i + 1], LoggedKey(codec, nbt, |slots|))
            == Count(order[..i], LoggedKey(codec, nbt, |slots|)) + if Logged(Classify(codec, order[i], nbt[order[i]], |slots|)) then 1 else 0
  {
    assert order[..i + 1][..i] == order[..i];
  }

  /**
   * INVENTORY.deserialize(inventory, nbt): clears the inventory, copies its
   * contents, stores every entry that passes the checks at its index and
   * skips every other one, then writes the copy back with setContents. The
   * key iteration order of the compound is the parameter order. Returns the
   * number of warnings logged.
   */
  method InventoryDeserialize<Item>(inventory: Inventory<Item>, codec: ItemCodec<Item>, nbt: Compound,
                                    order: seq<string>) returns (warnings: nat)
    requires KeyOrder(order, nbt)
    modifies inventory
    ensures inventory.contents == DecodeSlots(codec, nbt, order, Cleared(|old(inventory.contents)|))
    ensures warnings == Count(order, LoggedKey(codec, nbt, |old(inventory.contents)|))
  {
    inventory.Clear();
    var contents := inventory.GetContents();
    warnings := DecodeAll(contents, codec, nbt, order);
    var final := contents[..];
    assert final + Cleared(0) == final;
    var _ := inventory.SetContents(final);
  }

  /** The loop of INVENTORY.deserialize: every key of the compound, in iteration order, applied to the array. */
  method DecodeAll<Item>(contents: array<Option<Item>>, codec: ItemCodec<Item>, nbt: Compound, order: seq<string>)
    returns (warnings: nat)
    requires forall i | 0 <= i < |order| :: order[i] in nbt
    modifies contents
    ensures contents[..] == DecodeSlots(codec, nbt, order, old(contents[..]))
    ensures warnings == Count(order, LoggedKey(codec, nbt, contents.Length))
  {
    ghost var start := contents[..];
    warnings := 0;
    for i := 0 to |order|
      invariant contents[..] == DecodeSlots(codec, nbt, order[..i], start)
      invariant warnings == Count(order[..i], LoggedKey(codec, nbt, contents.Length))
    {
      DecodeStep(codec, nbt, order, i, start);
      var logged := DecodeEntry(contents, codec, order[i], nbt[order[i]]);
      if logged {
        warnings := warnings + 1;
      }
    }
    assert order[..|order|] == order;
  }

  /**
   * The body of the loop in INVENTORY.deserialize, for one key: skips the
   * entry (reporting whether a warning is logged) unless it is a compound
   * holding a non-empty item under a numeric key within the array, and
   * otherwise stores the item at that index.
   */
  method DecodeEntry<Item>(contents: array<Option<Item>>, codec: ItemCodec<Item>, key: string, tag: Tag)
    returns (logged: bool)
    modifies contents
    ensures logged == Logged(Classify(codec, key, tag, contents.Length))
    ensures contents[..] == match Classify(codec, key, tag, contents.Length)
                            case Stored(index, item) => old(contents[..])[index := Some(item)]
                            case _ => old(contents[..])
  {
    if !tag.CompoundTag? {
      return true;
    }
    var parsed := codec.load(tag.entries);
    if codec.isEmpty(parsed) {
      return false;
    }
    var index := ParseInt(key);
    if index.None? {
      return true;
    }
    if index.value < 0 || index.value as int >= contents.Length {
      return true;
    }
    contents[index.value] := Some(parsed);
    logged := false;
  }

  /**
   * Decoding never changes the number of slots, and a slot that was empty
   * is filled only from an entry that passed every check and whose key
   * parsed to that slot's index.
   */
  lemma {:induction false} DecodeProvenance<Item>(codec: ItemCodec<Item>, nbt: Compound, order: seq<string>,
                                                  slots: seq<Option<Item>>, j: nat)
    requires forall i | 0 <= i < |order| :: order[i] in nbt
    requires j < |slots| && slots[j].None?
    requires DecodeSlots(codec, nbt, order, slots)[j].Some?
    ensures exists i | 0 <= i < |order| ::
              Classify(codec, order[i], nbt[order[i]], |slots|)
              == Stored(j, DecodeSlots(codec, nbt, order, slots)[j].value)
  {
    var init := order[..|order| - 1];
    assert forall i | 0 <= i < |init| :: init[i] == order[i];
    var key := order[|order| - 1];
    var r := DecodeSlots(codec, nbt, order, slots);
    var o := Classify(codec, key, nbt[key], |slots|);
    if o.Stored? && o.index == j {
      assert Classify(codec, order[|order| - 1], nbt[order[|order| - 1]], |slots|) == Stored(j, r[j].value);
    } else {
      DecodeProvenance(codec, nbt, init, slots, j);
      var i :| 0 <= i < |init| && Classify(codec, init[i], nbt[init[i]], |slots|) == Stored(j, r[j].value);
      assert order[i] == init[i];
    }
  }

  /** Whether the entry under key passes every check and is stored at slot j. */
  predicate StoresAt<Item>(codec: ItemCodec<Item>, nbt: Compound, key: string, size: nat, j: nat)
    requires key in nbt
  {
    var o := Classify(codec, key, nbt[key], size);
    o.Stored? && o.index == j
  }

  /**
   * The last entry stored at a slot decides it: when the entry under
   * order[i] is stored at slot j and no later key's entry is, slot j ends up
   * holding that entry's item.
   */
  lemma {:induction false} DecodeLastWriter<Item>(codec: ItemCodec<Item>, nbt: Compound, order: seq<string>,
                                                  slots: seq<Option<Item>>, i: nat, j: nat, x: Item)
    requires forall k | 0 <= k < |order| :: order[k] in nbt
    requires i < |order| && Classify(codec, order[i], nbt[order[i]], |slots|) == Stored(j, x)
    requires forall k | i < k < |order| :: !StoresAt(codec, nbt, order[k], |slots|, j)
    ensures j < |slots|
    ensures DecodeSlots(codec, nbt, order, slots)[j] == Some(x)
  {
    var init := order[..|order| - 1];
    assert forall k | 0 <= k < |init| :: init[k] == order[k];
    if i < |order| - 1 {
      DecodeLastWriter(codec, nbt, init, slots, i, j, x);
      assert !StoresAt(codec, nbt, order[|order| - 1], |slots|, j);
    }
  }

  /** A slot at which no entry is stored keeps the value it had. */
  lemma {:induction false} DecodeUntouched<Item>(codec: ItemCodec<Item>, nbt: Compound, order: seq<string>,
                                                 slots: seq<Option<Item>>, j: nat)
    requires forall k | 0 <= k < |order| :: order[k] in nbt
    requires j < |slots|
    requires forall k | 0 <= k < |order| :: !StoresAt(codec, nbt, order[k], |slots|, j)
    ensures DecodeSlots(codec, nbt, order, slots)[j] == slots[j]
  {
    if order != [] {
      var init := order[..|order| - 1];
      assert forall k | 0 <= k < |init| :: init[k] == order[k];
      DecodeUntouched(codec, nbt, init, slots, j);
      assert !StoresAt(codec, nbt, order[|order| - 1], |slots|, j);
    }
  }

  /** The slots with every empty item dropped to null. */
  function Normalized<Item>(codec: ItemCodec<Item>, contents: seq<Option<Item>>): (r: seq<Option<Item>>)
    ensures |r| == |contents|
  {
    seq(|contents|, i requires 0 <= i < |contents| => if IsEmptyItem(codec, contents[i]) then None else contents[i])
  }

  /** Every entry of an encoding comes from a non-empty slot, and decoding stores it back in that slot. */
  lemma EncodedEntry<Item(!new)>(codec: ItemCodec<Item>, contents: seq<Option<Item>>, key: string) returns (j: nat)
    requires |contents| <= INT_MAX + 1
    requires ItemsRoundTrip(codec)
    requires key in EncodeSlots(codec, contents)
    ensures j < |contents| && key == SlotKey(j) && contents[j].Some?
    ensures Classify(codec, key, EncodeSlots(codec, contents)[key], |contents|) == Stored(j, contents[j].value)
  {
    EncodeSlotsShape(codec, contents);
    j :| 0 <= j < |contents| && key == SlotKey(j) && !IsEmptyItem(codec, contents[j]);
    SlotKeyParses(j);
  }

  /** Decoding part of an encoding into empty slots fills exactly the slots whose keys it has seen. */
  lemma {:induction false} DecodeEncodedKeys<Item(!new)>(codec: ItemCodec<Item>, contents: seq<Option<Item>>, order: seq<string>)
    requires |contents| <= INT_MAX + 1
    requires ItemsRoundTrip(codec)
    requires forall i | 0 <= i < |order| :: order[i] in EncodeSlots(codec, contents)
    ensures forall j | 0 <= j < |contents| ::
              DecodeSlots(codec, EncodeSlots(codec, contents), order, Cleared(|contents|))[j]
              == if SlotKey(j) in order then contents[j] else None
  {
    if order != [] {
      var nbt := EncodeSlots(codec, contents);
      var init := order[..|order| - 1];
      assert forall i | 0 <= i < |init| :: init[i] == order[i];
      DecodeEncodedKeys(codec, contents, init);
      var key := order[|order| - 1];
      var j0 := EncodedEntry(codec, contents, key);
      var before := DecodeSlots(codec, nbt, init, Cleared(|contents|));
      assert DecodeSlots(codec, nbt, order, Cleared(|contents|)) == before[j0 := contents[j0]];
      assert order == init + [key];
      forall j | 0 <= j < |contents|
        ensures SlotKey(j) in order <==> SlotKey(j) in init || j == j0
      {
        SlotKeyParses(j);
        SlotKeyParses(j0);
      }
    }
  }

  /**
   * Deserializing what serialize wrote restores the inventory: every
   * non-empty item back in its slot and every other slot empty, whatever
   * the iteration order of the keys, provided the item codec round-trips.
   */
  lemma InventoryRoundTrip<Item(!new)>(codec: ItemCodec<Item>, contents: seq<Option<Item>>, order: seq<string>)
    requires |contents| <= INT_MAX + 1
    requires ItemsRoundTrip(codec)
    requires KeyOrder(order, EncodeSlots(codec, contents))
    ensures DecodeSlots(codec, EncodeSlots(codec, contents), order, Cleared(|contents|)) == Normalized(codec, contents)
  {
    DecodeEncodedKeys(codec, contents, order);
    EncodeSlotsShape(codec, contents);
    var nbt := EncodeSlots(codec, contents);
    forall j | 0 <= j < |contents|
      ensures SlotKey(j) in order <==> !IsEmptyItem(codec, contents[j])
    {
      if SlotKey(j) in nbt {
        var i :| 0 <= i < |contents| && SlotKey(j) == SlotKey(i) && !IsEmptyItem(codec, contents[i]);
        SlotKeyParses(i);
        SlotKeyParses(j);
      }
    }
  }

  /** INVENTORY.deserialize(raw): NotImplementedException, always. */
  function InventoryFromRaw<Item>(raw: Compound): (r: Result<seq<Option<Item>>>)
    ensures r.Err? && r.error == NotImplementedException
  {
    Err(NotImplementedException)
  }
}
