# CivModCore core, modelled in Dafny

CivModCore is a support library for Paper (Minecraft server) plugins. This
project models four parts of it and proves properties of the model:

- **The chunk-metadata key** `XZWCoord`. It holds a chunk's x and z and the
  internal id of its world. It is ordered by world id, then x, then z, and its
  `equals` and `hashCode` are consistent with that order.
- **The serializer contract** `ISerializer`.
  - `LegacyNBT` delegates to an NBT-serializable class's `toNBT` and `fromNBT`.
  - `PDC` adapts Bukkit's persistent data types. It installs the adapter
    context of the current call in a field and clears that field on every exit.
- **The NBT codecs in `NBTHelper`.**
  - `LOCATION` has a fixed key layout: a world UUID with a sentinel fallback,
    and yaw and pitch written only when non-zero.
  - `INVENTORY` has a sparse slot encoding keyed by the decimal slot index, and
    a decoder that skips and logs bad entries instead of failing.
  - The null-passing legacy wrappers.
- **The generic helpers.**
  - Collections (`MoreCollectionUtils`), arrays (`MoreArrayUtils`), maps
    (`MoreMapUtils`) and iterators (`MoreIteratorUtils`, `MoreIterableUtils`).
  - Enum-name sets and `join` (`MoreEnumUtils`).
  - The spawn-egg bimap (`SpawnEggUtils`).
  - Material lookups and hash selection (`MaterialUtils`).

## How Java is modelled

- **Null** is `Option.None`.
- **Exceptions** are `Result.Err(...)`, naming the exception (`JavaLang`).
- **Java `int` and `short`** are the newtypes `i32` and `i16`. `int` overflow
  is written out (`Wrap32`).
- **Comparisons.** `Short.compare` returns the difference of its arguments.
  `Integer.compare` returns -1, 0 or 1.
- **Division and remainder.** Java's truncating `/` and `%`, and Guava's
  `IntMath.mod`, are written out explicitly.
- **`Integer.toString` and `Integer.parseInt`** are decimal conversions, proved
  to be mutual inverses. `parseInt` reads digits as `Character.digit` does, so
  every Unicode decimal digit of the Basic Multilingual Plane counts, not only
  ASCII.
- **Mutable `java.util` objects** are small classes in `JavaCollections`:
  - `Collection`, for a collection the code adds to. Its kind says how `add`
    behaves: a list appends, a set skips an element it already holds, and an
    unmodifiable collection throws UnsupportedOperationException. `addAll` is
    `add` of each element in turn (`AddAllTo`);
  - `ArrayList` and its iterator;
  - `HashMap` and `HashSet`;
  - `Predicate` and `Consumer`. These two record the values they were called
    with, so contracts can say what was tested or handed over, and in which
    order.
- **Bukkit values.**
  - `Location`, `World` and `Chunk` are datatypes (`Bukkit`).
  - Floats and doubles are IEEE-754 bit patterns (`bv32`, `bv64`), because the
    code only stores them and compares them with zero.
  - An `Inventory` is a class whose contents the decoder reads, clears and
    replaces (`BukkitInventory`).
- **NBT.** A tag compound is a `map<string, Tag>` (`Nbt`).
- **The item codec** behind `ITEMSTACK` is abstract: a `save`, a `load` and an
  `isEmpty` function.

The generic helpers keep the form of their sources:

- Methods that change a collection in place are methods on these classes, with
  loops and invariants where the source loops: `addAll`, `removeIf`,
  `ensureMinimumSize`, `setMultipleKeys`, `fill`, `computeElements`.
- The inventory decoder writes into an array in place, as the source does.
- Pure helpers are functions.

Specification functions state what the imperative members compute:

- `Sequences.Reject` and `Sequences.Count` for `removeIf`.
- `NBTHelper.EncodeSlots`, `NBTHelper.DecodeSlots` and `NBTHelper.Classify`
  for the inventory codec.

Lemmas then prove what the source promises about those functions.

Where a doc comment and the code disagree, the model follows the code:

- `anyMatch` and `allMatch`, in both MoreCollectionUtils and MoreArrayUtils, return false for a null predicate. Their doc comments say true.
- The deprecated array versions of `anyMatch`, `allMatch` and `numberOfMatches` go through `List.of(array)`. That call throws NullPointerException for a null array or a null element, although the doc comments promise false or true for a null array.

## Model

| member | source | states |
|---|---|---|
| ChunkMeta.GettersReturnArguments | paper/src/main/java/vg/civcraft/mc/civmodcore/world/locations/chunkmeta/XZWCoord.java:27-54 | getX, getZ and getWorldID return exactly the x, z and world id the key was built from |
| ChunkMeta.XZWCoord.CompareTo | paper/src/main/java/vg/civcraft/mc/civmodcore/world/locations/chunkmeta/XZWCoord.java:62-72 | compareTo is negative exactly when the key precedes the other in the lexicographic (world id, x, z) order, and zero exactly when the keys are equal |
| ChunkMeta.CompareToAntisymmetric | paper/src/main/java/vg/civcraft/mc/civmodcore/world/locations/chunkmeta/XZWCoord.java:62-72 | sgn(a.compareTo(b)) == -sgn(b.compareTo(a)), although Short.compare returns a difference rather than -1/0/1 |
| ChunkMeta.CompareToTransitive | paper/src/main/java/vg/civcraft/mc/civmodcore/world/locations/chunkmeta/XZWCoord.java:62-72 | compareTo is transitive, for both < 0 and <= 0 |
| ChunkMeta.CompareToZeroSubstitutes | paper/src/main/java/vg/civcraft/mc/civmodcore/world/locations/chunkmeta/XZWCoord.java:62-72 | keys that compare as 0 compare with the same sign against every third key (the Comparable contract) |
| ChunkMeta.CompareToConsistentWithEquals | paper/src/main/java/vg/civcraft/mc/civmodcore/world/locations/chunkmeta/XZWCoord.java:62-90 | a.compareTo(b) == 0 exactly when a.equals(b) |
| ChunkMeta.XZWCoord.Equals | paper/src/main/java/vg/civcraft/mc/civmodcore/world/locations/chunkmeta/XZWCoord.java:80-90 | equals holds exactly for an XZWCoord with the same three fields; null and objects of other classes are unequal |
| ChunkMeta.EqualsLaws | paper/src/main/java/vg/civcraft/mc/civmodcore/world/locations/chunkmeta/XZWCoord.java:80-90 | equals is reflexive and symmetric, and false for null and for any other class |
| ChunkMeta.HashCodeConsistentWithEquals | paper/src/main/java/vg/civcraft/mc/civmodcore/world/locations/chunkmeta/XZWCoord.java:75-77 | equal keys have equal hashCode (Objects.hash over x, z, world id in 32-bit arithmetic) |
| ChunkMeta.FromLocation | paper/src/main/java/vg/civcraft/mc/civmodcore/world/locations/chunkmeta/XZWCoord.java:100-106 | fromLocation(location, worldID) keeps the given world id and maps the block x and z through toChunkCoord |
| ChunkMeta.FromLocationIgnoresWorld | paper/src/main/java/vg/civcraft/mc/civmodcore/world/locations/chunkmeta/XZWCoord.java:100-106 | the result does not depend on the location's world, height, yaw or pitch |
| ChunkMeta.FromLocationOfWorld | paper/src/main/java/vg/civcraft/mc/civmodcore/world/locations/chunkmeta/XZWCoord.java:114-118 | fromLocation(location) uses the world id assigned to the location's world, with the same x and z mapping |
| ChunkMeta.FromChunk | paper/src/main/java/vg/civcraft/mc/civmodcore/world/locations/chunkmeta/XZWCoord.java:126-131 | fromChunk copies the chunk's x and z unchanged and takes the id of the chunk's world |
| Serialization.NewLegacyNBT | paper/src/main/java/vg/civcraft/mc/civmodcore/utilities/serialization/ISerializer.java:54-56 | the LegacyNBT constructor throws NullPointerException exactly for a null deserializer, and otherwise keeps it |
| Serialization.LegacyNBT.Serialize | paper/src/main/java/vg/civcraft/mc/civmodcore/utilities/serialization/ISerializer.java:67-71 | serialize returns a fresh, empty compound as filled by instance.toNBT and nothing else |
| Serialization.LegacyNBT.Deserialize | paper/src/main/java/vg/civcraft/mc/civmodcore/utilities/serialization/ISerializer.java:75-77 | deserialize is exactly deserializer.fromNBT(raw) |
| Serialization.LegacyNBTRoundTrip | paper/src/main/java/vg/civcraft/mc/civmodcore/utilities/serialization/ISerializer.java:54-77 | a LegacyNBT round trip is fromNBT after toNBT on a fresh compound: the adapter adds nothing in either direction |
| Serialization.NewPDC | paper/src/main/java/vg/civcraft/mc/civmodcore/utilities/serialization/ISerializer.java:93-111 | the PDC constructor throws NullPointerException exactly when either class is null; otherwise the new PDC has no adapter and getComplexType/getPrimitiveType return the classes given |
| Serialization.PDC.constructor | paper/src/main/java/vg/civcraft/mc/civmodcore/utilities/serialization/ISerializer.java:93-97 | the new PDC holds both classes and has no adapter installed |
| Serialization.PDC.GetAdapter | paper/src/main/java/vg/civcraft/mc/civmodcore/utilities/serialization/ISerializer.java:99-101 | getAdapter is null exactly between calls |
| Serialization.PDC.ToPrimitive | paper/src/main/java/vg/civcraft/mc/civmodcore/utilities/serialization/ISerializer.java:116-125 | toPrimitive returns exactly what serialize returns (value or exception) while the given context is the adapter, and afterwards the adapter is null on both exit paths |
| Serialization.PDC.FromPrimitive | paper/src/main/java/vg/civcraft/mc/civmodcore/utilities/serialization/ISerializer.java:130-139 | fromPrimitive returns exactly what deserialize returns while the given context is the adapter, and the adapter is null again afterwards |
| Serialization.PrimitiveRoundTrip | paper/src/main/java/vg/civcraft/mc/civmodcore/utilities/serialization/ISerializer.java:116-139 | toPrimitive then fromPrimitive with one context gives back the original value whenever serialize/deserialize round-trip that value under that context, propagates serialize's exception otherwise, and leaves no adapter behind |
| NBTHelper.LocationSerialize | paper/src/main/java/vg/civcraft/mc/civmodcore/nbt/NBTHelper.java:38-58 | LOCATION.serialize writes exactly world, x, y, z, plus yaw only when yaw != 0 and pitch only when pitch != 0 (Java float comparison, so -0.0 is omitted); world is the world's UID, or the identity UUID when the world cannot be read; x, y and z are stored as double tags and a written yaw or pitch as a float tag holding the location's value |
| NBTHelper.LocationDeserialize | paper/src/main/java/vg/civcraft/mc/civmodcore/nbt/NBTHelper.java:60-69 | LOCATION.deserialize throws exactly what getUUID("world") throws (a missing key or a tag that is not a UUID); otherwise it has no world for the identity UUID and Bukkit.getWorld of any other UUID, its coordinates and angles are getDouble/getFloat of their keys, and a missing yaw or pitch reads back as 0 |
| Nbt.GetUuid | paper/src/main/java/vg/civcraft/mc/civmodcore/nbt/NBTHelper.java:61 | getUUID gives the UUID stored under the key, NullPointerException for a missing key, and IllegalArgumentException for a tag that is not a UUID |
| NBTHelper.LocationRoundTrip | paper/src/main/java/vg/civcraft/mc/civmodcore/nbt/NBTHelper.java:38-69 | deserialize after serialize never throws, restores x, y and z, restores yaw and pitch up to -0.0 becoming 0.0, and looks the world up by its stored UID |
| NBTHelper.LocationRoundTripExact | paper/src/main/java/vg/civcraft/mc/civmodcore/nbt/NBTHelper.java:38-69 | for a loaded world that the lookup finds again and angles other than -0.0, deserialize after serialize is the identity |
| NBTHelper.LocationFromNBT | paper/src/main/java/vg/civcraft/mc/civmodcore/nbt/NBTHelper.java:77-79 | null passes through; otherwise LOCATION.deserialize of the raw compound, with its exception passed on |
| NBTHelper.LocationToNBT | paper/src/main/java/vg/civcraft/mc/civmodcore/nbt/NBTHelper.java:86-88 | null passes through; otherwise a compound wrapping LOCATION.serialize |
| NBTHelper.ItemStackFromNBT | paper/src/main/java/vg/civcraft/mc/civmodcore/nbt/NBTHelper.java:112-114 | null passes through; otherwise the item codec's load of the raw compound |
| NBTHelper.ItemStackToNBT | paper/src/main/java/vg/civcraft/mc/civmodcore/nbt/NBTHelper.java:121-123 | null passes through; otherwise a compound wrapping the item codec's save |
| NBTHelper.LegacyItemRoundTrip | paper/src/main/java/vg/civcraft/mc/civmodcore/nbt/NBTHelper.java:94-123 | the legacy wrappers round-trip every non-empty item and null, given that the item codec round-trips non-empty items |
| NBTHelper.SlotKeyParses | paper/src/main/java/vg/civcraft/mc/civmodcore/nbt/NBTHelper.java:137-160 | Integer.parseInt reads back the index from the key Integer.toString(index) written for it |
| NBTHelper.SlotKeyInjective | paper/src/main/java/vg/civcraft/mc/civmodcore/nbt/NBTHelper.java:137 | distinct slots get distinct keys |
| NBTHelper.EncodeSlotsShape | paper/src/main/java/vg/civcraft/mc/civmodcore/nbt/NBTHelper.java:131-141 | the inventory encoding has exactly one key per non-empty slot, Integer.toString(index), holding that item's encoding |
| NBTHelper.InventorySerialize | paper/src/main/java/vg/civcraft/mc/civmodcore/nbt/NBTHelper.java:131-141 | INVENTORY.serialize's loop builds exactly the sparse slot encoding of the contents |
| NBTHelper.Classify | paper/src/main/java/vg/civcraft/mc/civmodcore/nbt/NBTHelper.java:146-174 | an entry is stored exactly when its tag is a compound, its item is non-empty, its key parses as an int and the index lies in [0, length); a stored entry goes to the parsed index with the decoded item |
| NBTHelper.DecodeEntry | paper/src/main/java/vg/civcraft/mc/civmodcore/nbt/NBTHelper.java:147-174 | one pass of the decoding loop writes the decoded item at its index when the entry is stored, leaves the array untouched otherwise, and logs exactly for a non-compound, an unparsable key or an out-of-range index (not for an empty item) |
| NBTHelper.DecodeAll | paper/src/main/java/vg/civcraft/mc/civmodcore/nbt/NBTHelper.java:146-175 | the decoding loop leaves the array equal to the entries applied in key order, and logs one warning per bad entry |
| NBTHelper.InventoryDeserialize | paper/src/main/java/vg/civcraft/mc/civmodcore/nbt/NBTHelper.java:142-177 | INVENTORY.deserialize(inventory, nbt) never throws: it clears the inventory, applies the good entries over the cleared contents in key order, keeps the length, and logs one warning per bad entry |
| NBTHelper.DecodeProvenance | paper/src/main/java/vg/civcraft/mc/civmodcore/nbt/NBTHelper.java:144-176 | after decoding, a slot that was empty is filled only if some key parsed to its index and decoded to that item |
| NBTHelper.DecodeLastWriter | paper/src/main/java/vg/civcraft/mc/civmodcore/nbt/NBTHelper.java:144-176 | when the entry under some key passes every check and is stored at slot j, and no later key's entry is, slot j ends up holding that entry's item |
| NBTHelper.DecodeUntouched | paper/src/main/java/vg/civcraft/mc/civmodcore/nbt/NBTHelper.java:144-176 | a slot at which no entry is stored keeps the value it had before decoding |
| NBTHelper.InventoryRoundTrip | paper/src/main/java/vg/civcraft/mc/civmodcore/nbt/NBTHelper.java:131-177 | whatever order the keys are visited in, decoding the encoding of the contents gives back the contents with empty items turned into empty slots, given that the item codec round-trips non-empty items |
| NBTHelper.InventoryFromRaw | paper/src/main/java/vg/civcraft/mc/civmodcore/nbt/NBTHelper.java:180-182 | INVENTORY.deserialize(raw) always throws NotImplementedException |
| MoreCollectionUtils.Collect | paper/src/main/java/vg/civcraft/mc/civmodcore/utilities/MoreCollectionUtils.java:41-51 | collect returns null for a null supplier or a supplier that makes null, throws NullPointerException for null elements, passes on what add throws, and otherwise returns the new collection after adding the elements in order by its own add |
| MoreCollectionUtils.CollectExact | paper/src/main/java/vg/civcraft/mc/civmodcore/utilities/MoreCollectionUtils.java:63-76 | collectExact returns null for a null constructor, an untouched constructor.get(0) for null elements, and otherwise constructor.get(length) (or null) after adding the elements in order by its own add, passing on what add throws |
| MoreCollectionUtils.AnyMatch | paper/src/main/java/vg/civcraft/mc/civmodcore/utilities/MoreCollectionUtils.java:93-97 | anyMatch is false for a null predicate or a null collection, and otherwise holds exactly when some element passes |
| MoreCollectionUtils.AllMatch | paper/src/main/java/vg/civcraft/mc/civmodcore/utilities/MoreCollectionUtils.java:113-117 | allMatch is false for a null predicate, true for a null collection, and otherwise holds exactly when every element passes |
| MoreCollectionUtils.NumberOfMatches | paper/src/main/java/vg/civcraft/mc/civmodcore/utilities/MoreCollectionUtils.java:204-208 | numberOfMatches is 0 for a null matcher or collection, and at most the size |
| MoreCollectionUtils.MatchQueriesAgree | paper/src/main/java/vg/civcraft/mc/civmodcore/utilities/MoreCollectionUtils.java:93-208 | anyMatch holds exactly when numberOfMatches is positive, and allMatch exactly when it counts every element |
| MoreCollectionUtils.EnsureMinimumSize | paper/src/main/java/vg/civcraft/mc/civmodcore/utilities/MoreCollectionUtils.java:125-134 | a list ends at size max(old size, minimumSize) with its old elements first and defaultElement in every added place; a set gains defaultElement once when it is short and lacks it; an unmodifiable collection is unchanged and throws exactly when it is short |
| JavaCollections.Collection.Add | paper/src/main/java/vg/civcraft/mc/civmodcore/utilities/MoreCollectionUtils.java:131 | add changes the collection as AddTo says for its kind and reports whether it changed, or throws and leaves it unchanged |
| JavaCollections.Collection.AddAll | paper/src/main/java/vg/civcraft/mc/civmodcore/utilities/MoreCollectionUtils.java:48 | addAll leaves the collection as AddAllTo says, or throws and leaves it unchanged |
| JavaCollections.AddAllToList | paper/src/main/java/vg/civcraft/mc/civmodcore/utilities/MoreCollectionUtils.java:73 | adding elements to a list appends all of them, duplicates included, in order |
| JavaCollections.AddAllToSet | paper/src/main/java/vg/civcraft/mc/civmodcore/utilities/MoreCollectionUtils.java:73 | adding elements to a set never throws, keeps the old elements first, ends up holding exactly the old and the added elements, and holds none twice if it did not before |
| JavaCollections.AddAllToSetRepeat | paper/src/main/java/vg/civcraft/mc/civmodcore/utilities/MoreCollectionUtils.java:129-132 | adding the same element n > 0 times to a set adds it once, and only when it is missing |
| JavaCollections.AddAllToUnmodifiable | paper/src/main/java/vg/civcraft/mc/civmodcore/utilities/MoreCollectionUtils.java:73 | adding to an unmodifiable collection throws UnsupportedOperationException exactly when there is something to add |
| MoreCollectionUtils.IsSafeIndex | paper/src/main/java/vg/civcraft/mc/civmodcore/utilities/MoreCollectionUtils.java:145-148 | isSafeIndex holds exactly for a non-null collection and 0 <= index < size |
| MoreCollectionUtils.GetElementAsWritten | paper/src/main/java/vg/civcraft/mc/civmodcore/utilities/MoreCollectionUtils.java:159-162 | as written, getElement returns null exactly for a safe index and throws IndexOutOfBoundsException otherwise |
| MoreCollectionUtils.GetElementAsWrittenLosesElement | paper/src/main/java/vg/civcraft/mc/civmodcore/utilities/MoreCollectionUtils.java:159-162 | on a one-element collection, getElement as written yields null at index 0 and throws at index 1 |
| MoreCollectionUtils.GetElement | paper/src/main/java/vg/civcraft/mc/civmodcore/utilities/MoreCollectionUtils.java:150-162 | corrected getElement: the element at a safe index, null exactly otherwise |
| MoreCollectionUtils.RemoveLastElement | paper/src/main/java/vg/civcraft/mc/civmodcore/utilities/MoreCollectionUtils.java:171-173 | null and changes nothing for a null or empty list; otherwise returns the old last element and leaves the preceding prefix |
| MoreArrayUtils.Fill | paper/src/main/java/vg/civcraft/mc/civmodcore/utilities/MoreArrayUtils.java:28-34 | fill returns the same array, and afterwards every element equals value |
| MoreArrayUtils.ComputeElements | paper/src/main/java/vg/civcraft/mc/civmodcore/utilities/MoreArrayUtils.java:130-137 | afterwards a[i] == mapper(old a[i]) for every i; no change for a null mapper |
| MoreArrayUtils.ListOf | paper/src/main/java/vg/civcraft/mc/civmodcore/utilities/MoreArrayUtils.java:54 | List.of(array) throws NullPointerException for a null array or a null element, and otherwise lists the elements in order |
| MoreArrayUtils.AnyMatch | paper/src/main/java/vg/civcraft/mc/civmodcore/utilities/MoreArrayUtils.java:51-55 | anyMatch is false for a null predicate, throws exactly when List.of does, and otherwise holds exactly when some element passes |
| MoreArrayUtils.AllMatch | paper/src/main/java/vg/civcraft/mc/civmodcore/utilities/MoreArrayUtils.java:71-75 | allMatch is false for a null predicate, throws exactly when List.of does, and otherwise holds exactly when every element passes |
| MoreArrayUtils.NumberOfMatches | paper/src/main/java/vg/civcraft/mc/civmodcore/utilities/MoreArrayUtils.java:150-154 | numberOfMatches is 0 for a null matcher, throws exactly when List.of does, and is at most the length |
| MoreArrayUtils.MatchQueriesAgree | paper/src/main/java/vg/civcraft/mc/civmodcore/utilities/MoreArrayUtils.java:51-154 | on an array without nulls, anyMatch holds exactly when numberOfMatches is positive, and allMatch exactly when it counts every element |
| MoreArrayUtils.IsSafeIndex | paper/src/main/java/vg/civcraft/mc/civmodcore/utilities/MoreArrayUtils.java:86-89 | isSafeIndex holds exactly for a non-null array and 0 <= index < length |
| MoreArrayUtils.GetElementAsWritten | paper/src/main/java/vg/civcraft/mc/civmodcore/utilities/MoreArrayUtils.java:100-103 | as written, getElement returns null exactly for a safe index, throws NullPointerException for a null array and ArrayIndexOutOfBoundsException for an out-of-range index |
| MoreArrayUtils.GetElementAsWrittenLosesElement | paper/src/main/java/vg/civcraft/mc/civmodcore/utilities/MoreArrayUtils.java:100-103 | on a one-element array, getElement as written yields null at index 0 and throws at index 1 |
| MoreArrayUtils.GetElement | paper/src/main/java/vg/civcraft/mc/civmodcore/utilities/MoreArrayUtils.java:91-103 | corrected getElement: the element at a safe index, null exactly otherwise |
| MoreMapUtils.ValidEntry | paper/src/main/java/vg/civcraft/mc/civmodcore/utilities/MoreMapUtils.java:30-34 | validEntry holds exactly when the entry, its key and its value are all non-null |
| MoreMapUtils.GetKeyFromValue | paper/src/main/java/vg/civcraft/mc/civmodcore/utilities/MoreMapUtils.java:46-59 | null for a null map; otherwise the key of the first entry in iteration order whose value equals value, or null when none does |
| MoreMapUtils.AttemptGet | paper/src/main/java/vg/civcraft/mc/civmodcore/utilities/MoreMapUtils.java:93-118 | the parse of the value under the first key of keys the map contains, the fallback if that parse throws (later keys are not tried), and the fallback for a null map, null keys or no present key |
| MoreMapUtils.AttemptGetDefault | paper/src/main/java/vg/civcraft/mc/civmodcore/utilities/MoreMapUtils.java:93-100 | a null parser behaves as the identity cast: the value under the first present key, else the fallback |
| MoreMapUtils.AttemptGetUnparsed | paper/src/main/java/vg/civcraft/mc/civmodcore/utilities/MoreMapUtils.java:73-77 | the three-argument attemptGet returns the value under the first present key, else the fallback |
| MoreMapUtils.SetMultipleKeys | paper/src/main/java/vg/civcraft/mc/civmodcore/utilities/MoreMapUtils.java:130-138 | afterwards every given key maps to value and every other entry is unchanged; no change for a null map or null keys |
| MoreMapUtils.RemoveIf | paper/src/main/java/vg/civcraft/mc/civmodcore/utilities/MoreMapUtils.java:149-152 | afterwards the map holds exactly the old entries the predicate rejects, with their old values |
| MoreMapUtils.UseIfPresent | paper/src/main/java/vg/civcraft/mc/civmodcore/utilities/MoreMapUtils.java:165-172 | the handler receives the value under key exactly once when the key is present with a non-null value, and nothing when the key is absent or mapped to null |
| MoreIteratorUtils.RemoveIf | paper/src/main/java/vg/civcraft/mc/civmodcore/utilities/MoreIteratorUtils.java:22-29 | afterwards the list holds the elements before the cursor followed by the remaining elements the predicate rejects, in their order; each remaining element was tested exactly once, in order; the iterator is exhausted |
| MoreIterableUtils.RemoveIf | paper/src/main/java/vg/civcraft/mc/civmodcore/utilities/MoreIterableUtils.java:21-24 | afterwards the list holds exactly the elements the predicate rejects, in their original order; its length drops by the number of matches; every element was tested once, in order |
| MoreEnumUtils.GetName | paper/src/main/java/vg/civcraft/mc/civmodcore/utilities/MoreEnumUtils.java:26-28 | "null" for null, and the constant's name otherwise |
| MoreEnumUtils.GetNamesMembership | paper/src/main/java/vg/civcraft/mc/civmodcore/utilities/MoreEnumUtils.java:46-62 | getNames(array or collection) is exactly the set of getName(e) over the elements |
| MoreEnumUtils.DistinctNamesCount | paper/src/main/java/vg/civcraft/mc/civmodcore/utilities/MoreEnumUtils.java:46-62 | the name set has one member per element when the names are distinct (duplicates are what collapse) |
| MoreEnumUtils.GetNamesOfClass | paper/src/main/java/vg/civcraft/mc/civmodcore/utilities/MoreEnumUtils.java:35-39 | getNames(enumClass) is exactly the set of the class's constant names |
| MoreEnumUtils.NamesOfClassCount | paper/src/main/java/vg/civcraft/mc/civmodcore/utilities/MoreEnumUtils.java:35-39 | an enum class's name set has one member per constant |
| MoreEnumUtils.JoinLaws | paper/src/main/java/vg/civcraft/mc/civmodcore/utilities/MoreEnumUtils.java:69-80 | join is "" exactly for no enums; otherwise splitting it at "," gives back the name set in the order it was iterated |
| SpawnEggUtils.EntityThenMaterial | paper/src/main/java/vg/civcraft/mc/civmodcore/inventory/items/SpawnEggUtils.java:21-89 | the inverse view of the spawn-egg table maps every egg's entity type back to that egg |
| SpawnEggUtils.MaterialThenEntity | paper/src/main/java/vg/civcraft/mc/civmodcore/inventory/items/SpawnEggUtils.java:21-89 | the forward view maps every entity type's egg back to that entity type |
| SpawnEggUtils.TableIsInjective | paper/src/main/java/vg/civcraft/mc/civmodcore/inventory/items/SpawnEggUtils.java:21-89 | the table is a bimap: no entity type has two eggs and no egg two entity types |
| SpawnEggUtils.MooshroomEgg | paper/src/main/java/vg/civcraft/mc/civmodcore/inventory/items/SpawnEggUtils.java:49 | MOOSHROOM_SPAWN_EGG pairs with MUSHROOM_COW, in both directions |
| SpawnEggUtils.IsSpawnEgg | paper/src/main/java/vg/civcraft/mc/civmodcore/inventory/items/SpawnEggUtils.java:107-109 | false for null, and otherwise holds exactly for a key of the table |
| SpawnEggUtils.GetEntityType | paper/src/main/java/vg/civcraft/mc/civmodcore/inventory/items/SpawnEggUtils.java:117-119 | non-null exactly for a spawn egg, and then an entity type whose egg is the given material |
| SpawnEggUtils.GetSpawnEgg | paper/src/main/java/vg/civcraft/mc/civmodcore/inventory/items/SpawnEggUtils.java:127-129 | null for null; a non-null result is a spawn egg whose entity type is the given one |
| SpawnEggUtils.GetSpawnEggInvertsGetEntityType | paper/src/main/java/vg/civcraft/mc/civmodcore/inventory/items/SpawnEggUtils.java:117-129 | getSpawnEgg(getEntityType(m)) == m for every spawn egg, and getEntityType(getSpawnEgg(t)) == t whenever getSpawnEgg(t) is non-null |
| MaterialUtils.GetMaterials | paper/src/main/java/vg/civcraft/mc/civmodcore/inventory/items/MaterialUtils.java:43-51 | a freshly allocated set holding exactly the materials, so changing it cannot change MATERIALS |
| MaterialUtils.ToUpperIdempotent | paper/src/main/java/vg/civcraft/mc/civmodcore/inventory/items/MaterialUtils.java:61 | upper-casing an already upper-cased name changes nothing |
| MaterialUtils.GetMaterial | paper/src/main/java/vg/civcraft/mc/civmodcore/inventory/items/MaterialUtils.java:60-62 | null for a null or empty string; otherwise the lookup of the upper-cased name |
| MaterialUtils.GetMaterialIgnoresCase | paper/src/main/java/vg/civcraft/mc/civmodcore/inventory/items/MaterialUtils.java:60-62 | a name and its upper-cased form look up the same material |
| MaterialUtils.IsAir | paper/src/main/java/vg/civcraft/mc/civmodcore/inventory/items/MaterialUtils.java:87-89 | true for null, and otherwise exactly for an air material |
| MaterialUtils.GetMaterialHash | paper/src/main/java/vg/civcraft/mc/civmodcore/inventory/items/MaterialUtils.java:98-104 | HASH_MATERIALS[0] for null; otherwise HASH_MATERIALS[IntMath.mod(hashCode, size)], the floored modulus even for negative hash codes; the exceptions an empty list would raise |
| MaterialUtils.MaterialHashLaws | paper/src/main/java/vg/civcraft/mc/civmodcore/inventory/items/MaterialUtils.java:98-104 | objects with equal hash codes get the same material, and the result is always a member of HASH_MATERIALS |
| JavaLang.IntMathModInRange | paper/src/main/java/vg/civcraft/mc/civmodcore/inventory/items/MaterialUtils.java:102 | IntMath.mod(x, m) lies in [0, m) and is the floored modulus, even for negative x |
| JavaLang.ParseIntOfToString | paper/src/main/java/vg/civcraft/mc/civmodcore/nbt/NBTHelper.java:137-160 | Integer.parseInt undoes Integer.toString for every int, which the inventory keys rely on |
| JavaLang.CharacterDigit | paper/src/main/java/vg/civcraft/mc/civmodcore/nbt/NBTHelper.java:160 | Character.digit(c, 10), which parseInt applies to each char: always in -1..9, the digit's value for '0'..'9', and -1 for every char below '0', so a sign is never a digit |
| JavaLang.ParseIntUnicodeDigits | paper/src/main/java/vg/civcraft/mc/civmodcore/nbt/NBTHelper.java:160 | parseInt accepts non-ASCII decimal digits (fullwidth 3, Arabic-Indic 3, Devanagari 2 after an ASCII 1) and rejects a digit outside the Basic Multilingual Plane |

## Left out

- **Collaborators outside the modelled files are parameters of the model.**
  - `BlockBasedChunkMeta.toChunkCoord` and `Location.getBlockX`/`getBlockZ`.
  - The plugin's world-id manager, used by `XZWCoord.fromLocation(Location)` and `fromChunk`.
  - `Bukkit.getWorld`.
  - `Material.getMaterial(String)` and the hash code of the object in `getMaterialHash`.
  - The serializable class's `toNBT` and `fromNBT`.
  - The subclass's `serialize` and `deserialize` in `PDC`.
  - The map parser in `attemptGet`.
- **Item codec (NMS `ItemStack.save`/`of`).** Modelled as abstract functions.
  - Every item round trip is stated under the explicit assumption `ItemsRoundTrip`: loading a saved non-empty item gives it back.
- **`Material.isAir`** is the fixed predicate `Bukkit.IsAirMaterial`: the air blocks of the model's own material numbering.
- Nbt.GetDouble: a numeric tag of another kind (an int, or a float read as a double) is converted by the game; the model reads it as 0.0, because floats are bit patterns here and conversions between numeric kinds are not modelled. LOCATION.serialize always writes the exact kinds, so the round trips are unaffected.
- Nbt.GetFloat: likewise, a numeric tag other than a float (a double read as a float) reads as 0.0f instead of being converted.
- JavaLang.CharacterDigit: Java strings are UTF-16, so a decimal digit outside the Basic Multilingual Plane is a surrogate pair, which `Character.digit(char, int)` rejects; the model's chars are code points and it rejects such a digit likewise.
- **Floating point.** Coordinates and angles are stored bit patterns with no arithmetic.
  - Only Java's `!= 0` test on a float is modelled: it is false for both +0.0 and -0.0 and true for NaN.
- **`LOCATION.serialize` world UID.** Any throwable while reading it (a null world, or an unloaded world reference) is modelled as the `loaded` flag of the world.
- **Logging and deprecation warnings.**
  - `LOGGER` calls are side effects only. The inventory decoder's warnings are modelled as a count.
  - `DeprecationUtils.printDeprecationWarning` is not modelled.
- **Concurrency.** `@Synchronized` on `toPrimitive`/`fromPrimitive`; calls are modelled one at a time.
- **Randomness.** `randomElement` in MoreCollectionUtils.java and MoreArrayUtils.java uses `ThreadLocalRandom`.
- **Thin library wrappers.** `lazyList`, `newIdentityHashSet`, `newStringKeyMap`, `asTranslatable`.
- **`getKeyFromValue` BiMap fast path.** Left out; only the generic scan over the entry set is modelled, with the map's iteration order given as a sequence of entries.
- **`SpawnEggUtils.init`.** A tag scan that only logs.
- **Material and EntityType.**
  - They are integers with named constants for the spawn-egg table. Their numbering is the model's own, not Bukkit's ordinal order.
  - `MATERIALS` (the full `Material.values()`) and `HASH_MATERIALS` (built from Bukkit tags) are parameters.
- **Enums** are lists of (name, ordinal) constants.
  - A `Collection`/array of enums is a sequence that may contain nulls.
  - `Collectors.toSet` iteration order is a parameter of `join`.
- **`String.toUpperCase`** is modelled for ASCII letters only. Locale-specific and non-ASCII case mapping is not modelled.
- **`LegacyNBT(Class)`.** The constructor that looks the deserializer up by reflection (`NBTSerialization.getDeserializer`) is not part of this model.
- **Bukkit's `Inventory`.** Its implementation is not part of this model. `BukkitInventory.Inventory` stands in for it with the behaviour the Bukkit API documents:
  - `clear` empties every slot;
  - `getContents` returns a copy of the slots;
  - `setContents` throws IllegalArgumentException for more items than slots, and otherwise clears the slots past the items.
- **Collections the code adds to.** Their kind (list, set, unmodifiable) is fixed, and a set is a duplicate-free sequence in insertion order. A sorted set's order, and collections that refuse particular elements (nulls, a capacity bound), are not modelled.
- **`collect` and `collectExact` suppliers** are described by what they construct: a new collection of some kind with some initial elements. A supplier that hands back a collection that already exists elsewhere, so that the additions are visible through another reference, is not modelled.
- **Collections the code removes from.** `removeIf` (both versions) and `removeLastElement` work on an `ArrayList` and its iterator. The iterators of other collections are not modelled, and neither is the UnsupportedOperationException that `remove` throws on an unmodifiable list.
- **`NBTHelper.InventorySerialize`.** Requires at most 2^31 slots, which a Java array cannot exceed.
- **`NBTHelper.InventoryRoundTrip`.** Restores the contents only up to `Normalized`: slots that held an empty (air) item come back as empty slots, because the encoding skips them.
- **`NBTHelper.LocationRoundTrip`.**
  - Restores an angle of -0.0 as 0.0, because `yaw != 0` is false for -0.0.
  - The world comes back only when the lookup finds it by its UID.
- **`MoreEnumUtils.GetNames`.** Its own contract states only the size bound. Set membership is stated by `GetNamesMembership`, to keep each proof small.
- **`ChunkMeta.XZWCoord.HashCode`.** It has no contract of its own. What `hashCode` promises is stated by `HashCodeConsistentWithEquals`.

## Findings

| source | as written | input that shows it | evidently intended | confidence | as-written member | corrected member |
|---|---|---|---|---|---|---|
| paper/src/main/java/vg/civcraft/mc/civmodcore/utilities/MoreCollectionUtils.java:161 | `isSafeIndex(...) ? null : get(...)`: null for every safe index, and an exception for every unsafe one | a collection [x] with index 0 gives null; with index 1 it throws IndexOutOfBoundsException | the element at a safe index, null otherwise, never an exception (its doc comment) | high; not executed | MoreCollectionUtils.GetElementAsWrittenLosesElement | MoreCollectionUtils.GetElement |
| paper/src/main/java/vg/civcraft/mc/civmodcore/utilities/MoreArrayUtils.java:102 | `isSafeIndex(...) ? null : array[index]`: null for every safe index, NullPointerException for a null array, ArrayIndexOutOfBoundsException for an out-of-range index | an array [x] with index 0 gives null; with index 1 it throws ArrayIndexOutOfBoundsException | the element at a safe index, null otherwise (its doc comment) | high; not executed | MoreArrayUtils.GetElementAsWrittenLosesElement | MoreArrayUtils.GetElement |
