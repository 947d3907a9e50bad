/**
 * SpawnEggUtils: the fixed two-way table between spawn-egg materials and the
 * entity types they spawn, and the null-tolerant lookups on it.
 */
module SpawnEggUtils {
  import opened JavaLang
  import opened Bukkit

  /** SPAWN_EGGS.get: the table read from spawn-egg material to entity type, one branch per row. */
  function SpawnEggEntity(m: Material): Option<EntityType>
  {
    if m == AXOLOTL_SPAWN_EGG then Some(AXOLOTL)
    else if m == BAT_SPAWN_EGG then Some(BAT)
    else if m == BEE_SPAWN_EGG then Some(BEE)
    else if m == BLAZE_SPAWN_EGG then Some(BLAZE)
    else if m == CAT_SPAWN_EGG then Some(CAT)
    else if m == CAVE_SPIDER_SPAWN_EGG then Some(CAVE_SPIDER)
    else if m == CHICKEN_SPAWN_EGG then Some(CHICKEN)
    else if m == COD_SPAWN_EGG then Some(COD)
    else if m == COW_SPAWN_EGG then Some(COW)
    else if m == CREEPER_SPAWN_EGG then Some(CREEPER)
    else if m == DOLPHIN_SPAWN_EGG then Some(DOLPHIN)
    else if m == DONKEY_SPAWN_EGG then Some(DONKEY)
    else if m == DROWNED_SPAWN_EGG then Some(DROWNED)
    else if m == ELDER_GUARDIAN_SPAWN_EGG then Some(ELDER_GUARDIAN)
    else if m == ENDERMAN_SPAWN_EGG then Some(ENDERMAN)
    else if m == ENDERMITE_SPAWN_EGG then Some(ENDERMITE)
    else if m == EVOKER_SPAWN_EGG then Some(EVOKER)
    else if m == FOX_SPAWN_EGG then Some(FOX)
    else if m == GHAST_SPAWN_EGG then Some(GHAST)
    else if m == GLOW_SQUID_SPAWN_EGG then Some(GLOW_SQUID)
    else if m == GOAT_SPAWN_EGG then Some(GOAT)
    else if m == GUARDIAN_SPAWN_EGG then Some(GUARDIAN)
    else if m == HOGLIN_SPAWN_EGG then Some(HOGLIN)
    else if m == HORSE_SPAWN_EGG then Some(HORSE)
    else if m == HUSK_SPAWN_EGG then Some(HUSK)
    else if m == LLAMA_SPAWN_EGG then Some(LLAMA)
    else if m == MAGMA_CUBE_SPAWN_EGG then Some(MAGMA_CUBE)
    else if m == MOOSHROOM_SPAWN_EGG then Some(MUSHROOM_COW)
    else if m == MULE_SPAWN_EGG then Some(MULE)
    else if m == OCELOT_SPAWN_EGG then Some(OCELOT)
    else if m == PANDA_SPAWN_EGG then Some(PANDA)
    else if m == PARROT_SPAWN_EGG then Some(PARROT)
    else if m == PHANTOM_SPAWN_EGG then Some(PHANTOM)
    else if m == PIG_SPAWN_EGG then Some(PIG)
    else if m == PIGLIN_BRUTE_SPAWN_EGG then Some(PIGLIN_BRUTE)
    else if m == PIGLIN_SPAWN_EGG then Some(PIGLIN)
    else if m == PILLAGER_SPAWN_EGG then Some(PILLAGER)
    else if m == POLAR_BEAR_SPAWN_EGG then Some(POLAR_BEAR)
    else if m == PUFFERFISH_SPAWN_EGG then Some(PUFFERFISH)
    else if m == RABBIT_SPAWN_EGG then Some(RABBIT)
    else if m == RAVAGER_SPAWN_EGG then Some(RAVAGER)
    else if m == SALMON_SPAWN_EGG then Some(SALMON)
    else if m == SHEEP_SPAWN_EGG then Some(SHEEP)
    else if m == SHULKER_SPAWN_EGG then Some(SHULKER)
    else if m == SILVERFISH_SPAWN_EGG then Some(SILVERFISH)
    else if m == SKELETON_HORSE_SPAWN_EGG then Some(SKELETON_HORSE)
    else if m == SKELETON_SPAWN_EGG then Some(SKELETON)
    else if m == SLIME_SPAWN_EGG then Some(SLIME)
    else if m == SPIDER_SPAWN_EGG then Some(SPIDER)
    else if m == SQUID_SPAWN_EGG then Some(SQUID)
    else if m == STRAY_SPAWN_EGG then Some(STRAY)
    else if m == STRIDER_SPAWN_EGG then Some(STRIDER)
    else if m == TRADER_LLAMA_SPAWN_EGG then Some(TRADER_LLAMA)
    else if m == TROPICAL_FISH_SPAWN_EGG then Some(TROPICAL_FISH)
    else if m == TURTLE_SPAWN_EGG then Some(TURTLE)
    else if m == VEX_SPAWN_EGG then Some(VEX)
    else if m == VILLAGER_SPAWN_EGG then Some(VILLAGER)
    else if m == VINDICATOR_SPAWN_EGG then Some(VINDICATOR)
    else if m == WANDERING_TRADER_SPAWN_EGG then Some(WANDERING_TRADER)
    else if m == WITCH_SPAWN_EGG then Some(WITCH)
    else if m == WITHER_SKELETON_SPAWN_EGG then Some(WITHER_SKELETON)
    else if m == WOLF_SPAWN_EGG then Some(WOLF)
    else if m == ZOGLIN_SPAWN_EGG then Some(ZOGLIN)
    else if m == ZOMBIE_SPAWN_EGG then Some(ZOMBIE)
    else if m == ZOMBIE_HORSE_SPAWN_EGG then Some(ZOMBIE_HORSE)
    else if m == ZOMBIFIED_PIGLIN_SPAWN_EGG then Some(ZOMBIFIED_PIGLIN)
    else if m == ZOMBIE_VILLAGER_SPAWN_EGG then Some(ZOMBIE_VILLAGER)
    else None
  }

  /** The SPAWN_EGGS table read backwards, from entity type to material (BiMap.inverse). */
  function SpawnEggMaterial(t: EntityType): Option<Material>
  {
    if t == AXOLOTL then Some(AXOLOTL_SPAWN_EGG)
    else if t == BAT then Some(BAT_SPAWN_EGG)
    else if t == BEE then Some(BEE_SPAWN_EGG)
    else if t == BLAZE then Some(BLAZE_SPAWN_EGG)
    else if t == CAT then Some(CAT_SPAWN_EGG)
    else if t == CAVE_SPIDER then Some(CAVE_SPIDER_SPAWN_EGG)
    else if t == CHICKEN then Some(CHICKEN_SPAWN_EGG)
    else if t == COD then Some(COD_SPAWN_EGG)
    else if t == COW then Some(COW_SPAWN_EGG)
    else if t == CREEPER then Some(CREEPER_SPAWN_EGG)
    else if t == DOLPHIN then Some(DOLPHIN_SPAWN_EGG)
    else if t == DONKEY then Some(DONKEY_SPAWN_EGG)
    else if t == DROWNED then Some(DROWNED_SPAWN_EGG)
    else if t == ELDER_GUARDIAN then Some(ELDER_GUARDIAN_SPAWN_EGG)
    else if t == ENDERMAN then Some(ENDERMAN_SPAWN_EGG)
    else if t == ENDERMITE then Some(ENDERMITE_SPAWN_EGG)
    else if t == EVOKER then Some(EVOKER_SPAWN_EGG)
    else if t == FOX then Some(FOX_SPAWN_EGG)
    else if t == GHAST then Some(GHAST_SPAWN_EGG)
    else if t == GLOW_SQUID then Some(GLOW_SQUID_SPAWN_EGG)
    else if t == GOAT then Some(GOAT_SPAWN_EGG)
    else if t == GUARDIAN then Some(GUARDIAN_SPAWN_EGG)
    else if t == HOGLIN then Some(HOGLIN_SPAWN_EGG)
    else if t == HORSE then Some(HORSE_SPAWN_EGG)
    else if t == HUSK then Some(HUSK_SPAWN_EGG)
    else if t == LLAMA then Some(LLAMA_SPAWN_EGG)
    else if t == MAGMA_CUBE then Some(MAGMA_CUBE_SPAWN_EGG)
    else if t == MUSHROOM_COW then Some(MOOSHROOM_SPAWN_EGG)
    else if t == MULE then Some(MULE_SPAWN_EGG)
    else if t == OCELOT then Some(OCELOT_SPAWN_EGG)
    else if t == PANDA then Some(PANDA_SPAWN_EGG)
    else if t == PARROT then Some(PARROT_SPAWN_EGG)
    else if t == PHANTOM then Some(PHANTOM_SPAWN_EGG)
    else if t == PIG then Some(PIG_SPAWN_EGG)
    else if t == PIGLIN_BRUTE then Some(PIGLIN_BRUTE_SPAWN_EGG)
    else if t == PIGLIN then Some(PIGLIN_SPAWN_EGG)
    else if t == PILLAGER then Some(PILLAGER_SPAWN_EGG)
    else if t == POLAR_BEAR then Some(POLAR_BEAR_SPAWN_EGG)
    else if t == PUFFERFISH then Some(PUFFERFISH_SPAWN_EGG)
    else if t == RABBIT then Some(RABBIT_SPAWN_EGG)
    else if t == RAVAGER then Some(RAVAGER_SPAWN_EGG)
    else if t == SALMON then Some(SALMON_SPAWN_EGG)
    else if t == SHEEP then Some(SHEEP_SPAWN_EGG)
    else if t == SHULKER then Some(SHULKER_SPAWN_EGG)
    else if t == SILVERFISH then Some(SILVERFISH_SPAWN_EGG)
    else if t == SKELETON_HORSE then Some(SKELETON_HORSE_SPAWN_EGG)
    else if t == SKELETON then Some(SKELETON_SPAWN_EGG)
    else if t == SLIME then Some(SLIME_SPAWN_EGG)
    else if t == SPIDER then Some(SPIDER_SPAWN_EGG)
    else if t == SQUID then Some(SQUID_SPAWN_EGG)
    else if t == STRAY then Some(STRAY_SPAWN_EGG)
    else if t == STRIDER then Some(STRIDER_SPAWN_EGG)
    else if t == TRADER_LLAMA then Some(TRADER_LLAMA_SPAWN_EGG)
    else if t == TROPICAL_FISH then Some(TROPICAL_FISH_SPAWN_EGG)
    else if t == TURTLE then Some(TURTLE_SPAWN_EGG)
    else if t == VEX then Some(VEX_SPAWN_EGG)
    else if t == VILLAGER then Some(VILLAGER_SPAWN_EGG)
    else if t == VINDICATOR then Some(VINDICATOR_SPAWN_EGG)
    else if t == WANDERING_TRADER then Some(WANDERING_TRADER_SPAWN_EGG)
    else if t == WITCH then Some(WITCH_SPAWN_EGG)
    else if t == WITHER_SKELETON then Some(WITHER_SKELETON_SPAWN_EGG)
    else if t == WOLF then Some(WOLF_SPAWN_EGG)
    else if t == ZOGLIN then Some(ZOGLIN_SPAWN_EGG)
    else if t == ZOMBIE then Some(ZOMBIE_SPAWN_EGG)
    else if t == ZOMBIE_HORSE then Some(ZOMBIE_HORSE_SPAWN_EGG)
    else if t == ZOMBIFIED_PIGLIN then Some(ZOMBIFIED_PIGLIN_SPAWN_EGG)
    else if t == ZOMBIE_VILLAGER then Some(ZOMBIE_VILLAGER_SPAWN_EGG)
    else None
  }

  /** Reading the table forwards and then backwards returns the material. */
  lemma EntityThenMaterial(m: Material)
    ensures SpawnEggEntity(m).Some? ==> SpawnEggMaterial(SpawnEggEntity(m).value) == Some(m)
  {
  }

  /** Reading the table backwards and then forwards returns the entity type. */
  lemma MaterialThenEntity(t: EntityType)
    ensures SpawnEggMaterial(t).Some? ==> SpawnEggEntity(SpawnEggMaterial(t).value) == Some(t)
  {
  }

  /** The table is a bijection: no entity type has two eggs and no egg two entity types. */
  lemma TableIsInjective(m1: Material, m2: Material, t1: EntityType, t2: EntityType)
    ensures SpawnEggEntity(m1).Some? && SpawnEggEntity(m1) == SpawnEggEntity(m2) ==> m1 == m2
    ensures SpawnEggMaterial(t1).Some? && SpawnEggMaterial(t1) == SpawnEggMaterial(t2) ==> t1 == t2
  {
    EntityThenMaterial(m1);
    EntityThenMaterial(m2);
    MaterialThenEntity(t1);
    MaterialThenEntity(t2);
  }

  /** The mooshroom egg spawns the entity type Bukkit still calls MUSHROOM_COW. */
  lemma MooshroomEgg()
    ensures SpawnEggEntity(MOOSHROOM_SPAWN_EGG) == Some(MUSHROOM_COW)
    ensures SpawnEggMaterial(MUSHROOM_COW) == Some(MOOSHROOM_SPAWN_EGG)
  {
  }

  /** isSpawnEgg: false for null, otherwise whether the material is a key of the table. */
  function IsSpawnEgg(material: Option<Material>): (r: bool)
    ensures r <==> material.Some? && SpawnEggEntity(material.value).Some?
  {
    material.Some? && SpawnEggEntity(material.value).Some?
  }

  /** getEntityType: null for null; otherwise the table's entity type for the material, or null. */
  function GetEntityType(material: Option<Material>): (r: Option<EntityType>)
    ensures r.Some? <==> IsSpawnEgg(material)
    ensures r.Some? ==> SpawnEggMaterial(r.value) == material
  {
    EntityThenMaterial(if material.Some? then material.value else AIR);
    if material.None? then None else SpawnEggEntity(material.value)
  }

  /** getSpawnEgg: null for null; otherwise the table's egg for the entity type, or null. */
  function GetSpawnEgg(entityType: Option<EntityType>): (r: Option<Material>)
    ensures entityType.None? ==> r.None?
    ensures r.Some? ==> IsSpawnEgg(r) && SpawnEggEntity(r.value) == entityType
  {
    MaterialThenEntity(if entityType.Some? then entityType.value else 0);
    if entityType.None? then None else SpawnEggMaterial(entityType.value)
  }

  /** getSpawnEgg(getEntityType(m)) == m for every spawn egg m, and the other way round. */
  lemma GetSpawnEggInvertsGetEntityType(material: Option<Material>, entityType: Option<EntityType>)
    ensures IsSpawnEgg(material) ==> GetSpawnEgg(GetEntityType(material)) == material
    ensures GetSpawnEgg(entityType).Some? ==> GetEntityType(GetSpawnEgg(entityType)) == entityType
  {
  }
}
