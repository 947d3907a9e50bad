/**
 * ISerializer: a serialize/deserialize pair. LegacyNBT adapts the plugin's
 * older NBT serialization; PDC adapts Bukkit's persistent data types and
 * makes the adapter context of the current call visible to its serializer.
 */
module Serialization {
  import opened JavaLang
  import opened Nbt

  // ------------------------------------------------------------
  // LegacyNBT
  // ------------------------------------------------------------

  /**
   * LegacyNBT: the deserializer (NBTDeserializer.fromNBT) it was built with.
   * The serializable type's toNBT, which fills the compound it is given, is
   * a parameter of Serialize.
   */
  datatype LegacyNBT<C> = LegacyNBT(deserializer: NBTCompound -> C)
  {
    /** serialize: a new, empty compound, filled by instance.toNBT. */
    function Serialize(instance: C, toNBT: (C, NBTCompound) -> NBTCompound): (r: NBTCompound)
      ensures r == toNBT(instance, NBTCompound(map[]))
    {
      var nbt := NBTCompound(map[]);
      toNBT(instance, nbt)
    }

    /** deserialize: exactly the deserializer applied to the compound. */
    function Deserialize(raw: NBTCompound): (r: C)
      ensures r == deserializer(raw)
    {
      deserializer(raw)
    }
  }

  /** new LegacyNBT(deserializer): NullPointerException for a null deserializer. */
  function NewLegacyNBT<C>(deserializer: Option<NBTCompound -> C>): (r: Result<LegacyNBT<C>>)
    ensures r.Err? <==> deserializer.None?
    ensures r.Err? ==> r.error == NullPointerException
    ensures r.Ok? ==> r.value.deserializer == deserializer.value
  {
    if deserializer.None? then Err(NullPointerException) else Ok(LegacyNBT(deserializer.value))
  }

  /**
   * A LegacyNBT round-trips an instance exactly when fromNBT undoes toNBT on
   * a fresh compound: the adapter adds nothing of its own in either direction.
   */
  lemma LegacyNBTRoundTrip<C>(deserializer: Option<NBTCompound -> C>, instance: C,
                              toNBT: (C, NBTCompound) -> NBTCompound)
    requires deserializer.Some?
    ensures var s := NewLegacyNBT(deserializer).value;
            s.Deserialize(s.Serialize(instance, toNBT)) == deserializer.value(toNBT(instance, NBTCompound(map[])))
  {
  }

  // ------------------------------------------------------------
  // PDC
  // ------------------------------------------------------------

  /** A java.lang.Class object, by the class's name. */
  datatype ClassRef = ClassRef(name: string)

  /** A PersistentDataAdapterContext, by identity. */
  datatype AdapterContext = AdapterContext(id: nat)

  /**
   * PDC: the complex and primitive classes, and the adapter field, which
   * holds the context of the toPrimitive or fromPrimitive call under way and
   * is null otherwise. The subclass's serialize and deserialize are the
   * functions serializer and deserializer; each sees the value getAdapter()
   * returns while it runs, and may throw.
   */
  class PDC<C, P> {
    const complexClass: ClassRef
    const primitiveClass: ClassRef
    const serializer: (C, Option<AdapterContext>) -> Result<P>
    const deserializer: (P, Option<AdapterContext>) -> Result<C>
    var adapter: Option<AdapterContext>

    /** The state between calls: no adapter installed. */
    predicate Idle()
      reads this
    {
      adapter.None?
    }

    constructor (complexClass: ClassRef, primitiveClass: ClassRef,
                 serializer: (C, Option<AdapterContext>) -> Result<P>,
                 deserializer: (P, Option<AdapterContext>) -> Result<C>)
      ensures this.complexClass == complexClass && this.primitiveClass == primitiveClass
      ensures this.serializer == serializer && this.deserializer == deserializer
      ensures Idle()
    {
      this.complexClass := complexClass;
      this.primitiveClass := primitiveClass;
      this.serializer := serializer;
      this.deserializer := deserializer;
      adapter := None;
    }

    /** getAdapter: the context of the call under way, or null between calls. */
    function GetAdapter(): (r: Option<AdapterContext>)
      reads this
      ensures r.None? <==> Idle()
    {
      adapter
    }

    /** getComplexType: the complex class given to the constructor. */
    function GetComplexType(): (r: ClassRef)
    {
      complexClass
    }

    /** getPrimitiveType: the primitive class given to the constructor. */
    function GetPrimitiveType(): (r: ClassRef)
    {
      primitiveClass
    }

    /**
     * toPrimitive: installs context as the adapter, serializes, and clears
     * the adapter in a finally block, so it is null again after a normal
     * return and after an exception alike.
     */
    method ToPrimitive(complex: C, context: AdapterContext) returns (r: Result<P>)
      modifies this
      ensures r == serializer(complex, Some(context))
      ensures Idle()
    {
      adapter := Some(context);
      r := serializer(complex, GetAdapter());
      adapter := None;
    }

    /** fromPrimitive: the same discipline around deserialize. */
    method FromPrimitive(primitive: P, context: AdapterContext) returns (r: Result<C>)
      modifies this
      ensures r == deserializer(primitive, Some(context))
      ensures Idle()
    {
      adapter := Some(context);
      r := deserializer(primitive, GetAdapter());
      adapter := None;
    }
  }

  /**
   * new PDC(complexClass, primitiveClass): NullPointerException when either
   * class is null; otherwise a PDC holding both, with no adapter installed.
   */
  method NewPDC<C, P>(complexClass: Option<ClassRef>, primitiveClass: Option<ClassRef>,
                      serializer: (C, Option<AdapterContext>) -> Result<P>,
                      deserializer: (P, Option<AdapterContext>) -> Result<C>)
    returns (r: Result<PDC<C, P>>)
    ensures r.Err? <==> complexClass.None? || primitiveClass.None?
    ensures r.Err? ==> r.error == NullPointerException
    ensures r.Ok? ==> fresh(r.value) && r.value.Idle()
                      && r.value.GetComplexType() == complexClass.value
                      && r.value.GetPrimitiveType() == primitiveClass.value
  {
    if complexClass.None? || primitiveClass.None? {
      return Err(NullPointerException);
    }
    var pdc := new PDC(complexClass.value, primitiveClass.value, serializer, deserializer);
    r := Ok(pdc);
  }

  /**
   * A round trip through a PDC uses the same context on both legs, leaves
   * no adapter behind, and returns the original value whenever the
   * serializer pair round-trips that value under that context.
   */
  method PrimitiveRoundTrip<C, P>(pdc: PDC<C, P>, complex: C, context: AdapterContext) returns (r: Result<C>)
    requires pdc.serializer(complex, Some(context)).Ok? ==>
               pdc.deserializer(pdc.serializer(complex, Some(context)).value, Some(context)) == Ok(complex)
    modifies pdc
    ensures pdc.Idle()
    ensures pdc.serializer(complex, Some(context)).Ok? ==> r == Ok(complex)
    ensures pdc.serializer(complex, Some(context)).Err? ==> r == Err(pdc.serializer(complex, Some(context)).error)
  {
    var primitive := pdc.ToPrimitive(complex, context);
    if primitive.Err? {
      return Err(primitive.error);
    }
    assert pdc.serializer(complex, Some(context)) == Ok(primitive.value);
    r := pdc.FromPrimitive(primitive.value, context);
  }
}
