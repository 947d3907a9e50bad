/**
 * XZWCoord: the (x, z, world id) key under which chunk metadata is stored,
 * ordered by world id, then x, then z.
 */
module ChunkMeta {
  import opened JavaLang
  import opened Bukkit

  /** A chunk coordinate: chunk x, chunk z and the internal id of the world. */
  datatype XZWCoord = XZWCoord(x: i32, z: i32, worldID: i16)
  {
    function GetWorldID(): i16 { worldID }

    function GetX(): i32 { x }

    function GetZ(): i32 { z }

    /** compareTo: Short.compare of the world ids, then Integer.compare of x, then of z. */
    function CompareTo(other: XZWCoord): (r: int)
      ensures r < 0 <==> LexLess(this, other)
      ensures r == 0 <==> this == other
    {
      var worldComp := ShortCompare(GetWorldID(), other.GetWorldID());
      if worldComp != 0 then worldComp
      else
        var xComp := IntegerCompare(GetX() as int, other.GetX() as int);
        if xComp != 0 then xComp
        else IntegerCompare(GetZ() as int, other.GetZ() as int)
    }

    /** Objects.hash(x, z, worldID): 31-based polynomial over the boxed values, in int arithmetic. */
    function HashCode(): (h: i32)
    {
      var h1 := Wrap32(31 * 1 + GetX() as int);
      var h2 := Wrap32(31 * h1 as int + GetZ() as int);
      Wrap32(31 * h2 as int + GetWorldID() as int)
    }

    /** equals: true for another XZWCoord with the same three fields, false for null and for other classes. */
    function Equals(obj: JavaObject): (r: bool)
      ensures r <==> obj == Coord(this)
    {
      match obj
      case Coord(other) =>
        GetWorldID() == other.GetWorldID() && GetX() == other.GetX() && GetZ() == other.GetZ()
      case _ => false
    }
  }

  /** The argument of equals(Object): null, an XZWCoord, or an object of some other class. */
  datatype JavaObject = Null | Coord(coord: XZWCoord) | Other(identity: nat)

  /** The order compareTo is meant to implement, written independently: lexicographic on (worldID, x, z). */
  predicate LexLess(a: XZWCoord, b: XZWCoord)
  {
    a.worldID < b.worldID
    || (a.worldID == b.worldID && (a.x < b.x || (a.x == b.x && a.z < b.z)))
  }

  /** The getters return exactly what the constructor was given. */
  lemma GettersReturnArguments(x: i32, z: i32, worldID: i16)
    ensures XZWCoord(x, z, worldID).GetX() == x
    ensures XZWCoord(x, z, worldID).GetZ() == z
    ensures XZWCoord(x, z, worldID).GetWorldID() == worldID
  {
  }

  /** compareTo is antisymmetric in sign: sgn(a.compareTo(b)) == -sgn(b.compareTo(a)). */
  lemma CompareToAntisymmetric(a: XZWCoord, b: XZWCoord)
    ensures Sign(a.CompareTo(b)) == -Sign(b.CompareTo(a))
  {
  }

  /** compareTo is transitive, for both the strict and the non-strict order. */
  lemma CompareToTransitive(a: XZWCoord, b: XZWCoord, c: XZWCoord)
    ensures a.CompareTo(b) < 0 && b.CompareTo(c) < 0 ==> a.CompareTo(c) < 0
    ensures a.CompareTo(b) <= 0 && b.CompareTo(c) <= 0 ==> a.CompareTo(c) <= 0
  {
  }

  /** Keys that compare equal compare alike against every third key. */
  lemma CompareToZeroSubstitutes(a: XZWCoord, b: XZWCoord, c: XZWCoord)
    requires a.CompareTo(b) == 0
    ensures Sign(a.CompareTo(c)) == Sign(b.CompareTo(c))
  {
  }

  /** compareTo is consistent with equals: a.compareTo(b) == 0 exactly when a.equals(b). */
  lemma CompareToConsistentWithEquals(a: XZWCoord, b: XZWCoord)
    ensures a.CompareTo(b) == 0 <==> a.Equals(Coord(b))
  {
  }

  /** equals is reflexive and symmetric, and false for null and for objects of other classes. */
  lemma EqualsLaws(a: XZWCoord, b: XZWCoord, id: nat)
    ensures a.Equals(Coord(a))
    ensures a.Equals(Coord(b)) <==> b.Equals(Coord(a))
    ensures !a.Equals(Null) && !a.Equals(Other(id))
  {
  }

  /** Equal coordinates have equal hash codes. */
  lemma HashCodeConsistentWithEquals(a: XZWCoord, b: XZWCoord)
    requires a.Equals(Coord(b))
    ensures a.HashCode() == b.HashCode()
  {
  }

  /**
   * fromLocation(location, worldID): the block x and z of the location mapped
   * through the chunk-coordinate function, and the given world id.
   * Location.getBlockX/getBlockZ and BlockBasedChunkMeta.toChunkCoord are parameters.
   */
  function FromLocation(location: Location, worldID: i16,
                        locToBlock: Double -> i32, toChunkCoord: i32 -> i32): (r: XZWCoord)
    ensures r.GetWorldID() == worldID
    ensures r.GetX() == toChunkCoord(locToBlock(location.x))
    ensures r.GetZ() == toChunkCoord(locToBlock(location.z))
  {
    XZWCoord(toChunkCoord(locToBlock(location.x)), toChunkCoord(locToBlock(location.z)), worldID)
  }

  /** fromLocation(location, worldID) ignores the location's world, its height and its rotation. */
  lemma FromLocationIgnoresWorld(location: Location, world: Option<World>, y: Double, yaw: Float, pitch: Float,
                                 worldID: i16, locToBlock: Double -> i32, toChunkCoord: i32 -> i32)
    ensures FromLocation(location.(world := world, y := y, yaw := yaw, pitch := pitch), worldID, locToBlock, toChunkCoord)
         == FromLocation(location, worldID, locToBlock, toChunkCoord)
  {
  }

  /** fromLocation(location): as above, with the world id the world-id manager assigns to the location's world. */
  function FromLocationOfWorld(location: Location, internalWorldId: Option<World> -> i16,
                               locToBlock: Double -> i32, toChunkCoord: i32 -> i32): (r: XZWCoord)
    ensures r.GetWorldID() == internalWorldId(location.world)
    ensures r.GetX() == toChunkCoord(locToBlock(location.x))
    ensures r.GetZ() == toChunkCoord(locToBlock(location.z))
  {
    FromLocation(location, internalWorldId(location.world), locToBlock, toChunkCoord)
  }

  /** fromChunk: the chunk's own x and z, unchanged, and the id of its world. */
  function FromChunk(chunk: Chunk, internalWorldId: Option<World> -> i16): (r: XZWCoord)
    ensures r.GetX() == chunk.x && r.GetZ() == chunk.z
    ensures r.GetWorldID() == internalWorldId(Some(chunk.world))
  {
    XZWCoord(chunk.x, chunk.z, internalWorldId(Some(chunk.world)))
  }
}
