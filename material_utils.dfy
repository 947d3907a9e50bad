/**
 * MaterialUtils: the set of all materials, lookup of a material by name,
 * the air test, and the choice of a colour material from a hash code.
 */
module MaterialUtils {
  import opened JavaLang
  import opened JavaCollections
  import opened Bukkit

  /**
   * getMaterials: a new HashSet holding MATERIALS, the set of
   * Material.values(). The result is fresh, so changing it cannot change
   * MATERIALS.
   */
  method GetMaterials(values: seq<Material>) returns (r: HashSet<Material>)
    ensures fresh(r)
    ensures forall m :: m in r.elements <==> m in values
  {
    var materials := set i | 0 <= i < |values| :: values[i];
    r := new HashSet(materials);
  }

  /** The ASCII upper-case form of a character; other characters are kept. */
  function UpperChar(c: char): (u: char)
    ensures 'a' <= c <= 'z' ==> u as int == c as int - 32
    ensures !('a' <= c <= 'z') ==> u == c
    ensures !('a' <= u <= 'z')
  {
    if 'a' <= c <= 'z' then (c as int - 32) as char else c
  }

  /** String.toUpperCase, on ASCII letters. */
  function ToUpper(s: string): (r: string)
    ensures |r| == |s|
    ensures forall i | 0 <= i < |s| :: r[i] == UpperChar(s[i])
  {
    if s == [] then [] else [UpperChar(s[0])] + ToUpper(s[1..])
  }

  /** Upper-casing twice is upper-casing once. */
  lemma ToUpperIdempotent(s: string)
    ensures ToUpper(ToUpper(s)) == ToUpper(s)
  {
    var u := ToUpper(s);
    assert forall i | 0 <= i < |u| :: UpperChar(u[i]) == u[i];
  }

  /**
   * getMaterial(value): null for a null or empty string; otherwise
   * Material.getMaterial (the parameter byName) of the upper-cased string.
   */
  function GetMaterial(value: Option<string>, byName: string -> Option<Material>): (r: Option<Material>)
    ensures value.None? || value == Some("") ==> r.None?
    ensures value.Some? && value.value != "" ==> r == byName(ToUpper(value.value))
  {
    if value.None? || |value.value| == 0 then None else byName(ToUpper(value.value))
  }

  /** getMaterial ignores case: a name and its upper-case form find the same material. */
  lemma GetMaterialIgnoresCase(value: string, byName: string -> Option<Material>)
    ensures GetMaterial(Some(ToUpper(value)), byName) == GetMaterial(Some(value), byName)
  {
    ToUpperIdempotent(value);
  }

  /** isAir: true for null, otherwise Material.isAir. */
  function IsAir(material: Option<Material>): (r: bool)
    ensures material.None? ==> r
    ensures material.Some? ==> (r <==> IsAirMaterial(material.value))
  {
    material.None? || IsAirMaterial(material.value)
  }

  /**
   * getMaterialHash(object): HASH_MATERIALS[0] for null; otherwise the entry
   * at IntMath.mod(object.hashCode(), size). HASH_MATERIALS is built from
   * block tags when the class loads, so it is a parameter here. An empty
   * list makes get(0) throw IndexOutOfBoundsException and mod throw
   * ArithmeticException.
   */
  function GetMaterialHash<O>(obj: Option<O>, hashCode: O -> i32, hashMaterials: seq<Material>): (r: Result<Material>)
    ensures obj.None? && |hashMaterials| > 0 ==> r == Ok(hashMaterials[0])
    ensures obj.None? && |hashMaterials| == 0 ==> r == Err(IndexOutOfBoundsException)
    ensures obj.Some? && |hashMaterials| > 0 ==>
              r == Ok(hashMaterials[hashCode(obj.value) as int % |hashMaterials|])
    ensures obj.Some? && |hashMaterials| == 0 ==> r == Err(ArithmeticException)
  {
    if obj.None? then
      if |hashMaterials| == 0 then Err(IndexOutOfBoundsException) else Ok(hashMaterials[0])
    else
      match IntMathMod(hashCode(obj.value), |hashMaterials|)
      case Err(e) => Err(e)
      case Ok(index) =>
        IntMathModInRange(hashCode(obj.value), |hashMaterials|);
        Ok(hashMaterials[index])
  }

  /** Objects with equal hash codes get the same material; and every result is an entry of the list. */
  lemma MaterialHashLaws<O>(a: O, b: O, hashCode: O -> i32, hashMaterials: seq<Material>)
    requires hashCode(a) == hashCode(b)
    ensures GetMaterialHash(Some(a), hashCode, hashMaterials) == GetMaterialHash(Some(b), hashCode, hashMaterials)
    ensures GetMaterialHash(Some(a), hashCode, hashMaterials).Ok? ==>
              GetMaterialHash(Some(a), hashCode, hashMaterials).value in hashMaterials
  {
  }
}
