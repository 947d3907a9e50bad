/**
 * The Bukkit server types that the modelled code handles: materials and
 * entity types (enum constants, represented by their ordinals), worlds,
 * locations and chunks.
 */
module Bukkit {
  import opened JavaLang

  /** org.bukkit.Material, by ordinal. Only the constants the modelled code names are declared. */
  newtype Material = int

  /** org.bukkit.entity.EntityType, by ordinal. */
  newtype EntityType = int

  const AIR: Material := 0
  const CAVE_AIR: Material := 1
  const VOID_AIR: Material := 2
  const LEGACY_AIR: Material := 3

  const AXOLOTL_SPAWN_EGG: Material := 100
  const BAT_SPAWN_EGG: Material := 101
  const BEE_SPAWN_EGG: Material := 102
  const BLAZE_SPAWN_EGG: Material := 103
  const CAT_SPAWN_EGG: Material := 104
  const CAVE_SPIDER_SPAWN_EGG: Material := 105
  const CHICKEN_SPAWN_EGG: Material := 106
  const COD_SPAWN_EGG: Material := 107
  const COW_SPAWN_EGG: Material := 108
  const CREEPER_SPAWN_EGG: Material := 109
  const DOLPHIN_SPAWN_EGG: Material := 110
  const DONKEY_SPAWN_EGG: Material := 111
  const DROWNED_SPAWN_EGG: Material := 112
  const ELDER_GUARDIAN_SPAWN_EGG: Material := 113
  const ENDERMAN_SPAWN_EGG: Material := 114
  const ENDERMITE_SPAWN_EGG: Material := 115
  const EVOKER_SPAWN_EGG: Material := 116
  const FOX_SPAWN_EGG: Material := 117
  const GHAST_SPAWN_EGG: Material := 118
  const GLOW_SQUID_SPAWN_EGG: Material := 119
  const GOAT_SPAWN_EGG: Material := 120
  const GUARDIAN_SPAWN_EGG: Material := 121
  const HOGLIN_SPAWN_EGG: Material := 122
  const HORSE_SPAWN_EGG: Material := 123
  const HUSK_SPAWN_EGG: Material := 124
  const LLAMA_SPAWN_EGG: Material := 125
  const MAGMA_CUBE_SPAWN_EGG: Material := 126
  const MOOSHROOM_SPAWN_EGG: Material := 127
  const MULE_SPAWN_EGG: Material := 128
  const OCELOT_SPAWN_EGG: Material := 129
  const PANDA_SPAWN_EGG: Material := 130
  const PARROT_SPAWN_EGG: Material := 131
  const PHANTOM_SPAWN_EGG: Material := 132
  const PIG_SPAWN_EGG: Material := 133
  const PIGLIN_BRUTE_SPAWN_EGG: Material := 134
  const PIGLIN_SPAWN_EGG: Material := 135
  const PILLAGER_SPAWN_EGG: Material := 136
  const POLAR_BEAR_SPAWN_EGG: Material := 137
  const PUFFERFISH_SPAWN_EGG: Material := 138
  const RABBIT_SPAWN_EGG: Material := 139
  const RAVAGER_SPAWN_EGG: Material := 140
  const SALMON_SPAWN_EGG: Material := 141
  const SHEEP_SPAWN_EGG: Material := 142
  const SHULKER_SPAWN_EGG: Material := 143
  const SILVERFISH_SPAWN_EGG: Material := 144
  const SKELETON_HORSE_SPAWN_EGG: Material := 145
  const SKELETON_SPAWN_EGG: Material := 146
  const SLIME_SPAWN_EGG: Material := 147
  const SPIDER_SPAWN_EGG: Material := 148
  const SQUID_SPAWN_EGG: Material := 149
  const STRAY_SPAWN_EGG: Material := 150
  const STRIDER_SPAWN_EGG: Material := 151
  const TRADER_LLAMA_SPAWN_EGG: Material := 152
  const TROPICAL_FISH_SPAWN_EGG: Material := 153
  const TURTLE_SPAWN_EGG: Material := 154
  const VEX_SPAWN_EGG: Material := 155
  const VILLAGER_SPAWN_EGG: Material := 156
  const VINDICATOR_SPAWN_EGG: Material := 157
  const WANDERING_TRADER_SPAWN_EGG: Material := 158
  const WITCH_SPAWN_EGG: Material := 159
  const WITHER_SKELETON_SPAWN_EGG: Material := 160
  const WOLF_SPAWN_EGG: Material := 161
  const ZOGLIN_SPAWN_EGG: Material := 162
  const ZOMBIE_SPAWN_EGG: Material := 163
  const ZOMBIE_HORSE_SPAWN_EGG: Material := 164
  const ZOMBIFIED_PIGLIN_SPAWN_EGG: Material := 165
  const ZOMBIE_VILLAGER_SPAWN_EGG: Material := 166

  const AXOLOTL: EntityType := 10
  const BAT: EntityType := 12
  const BEE: EntityType := 14
  const BLAZE: EntityType := 16
  const CAT: EntityType := 18
  const CAVE_SPIDER: EntityType := 20
  const CHICKEN: EntityType := 22
  const COD: EntityType := 24
  const COW: EntityType := 26
  const CREEPER: EntityType := 28
  const DOLPHIN: EntityType := 30
  const DONKEY: EntityType := 32
  const DROWNED: EntityType := 34
  const ELDER_GUARDIAN: EntityType := 36
  const ENDERMAN: EntityType := 38
  const ENDERMITE: EntityType := 40
  const EVOKER: EntityType := 42
  const FOX: EntityType := 44
  const GHAST: EntityType := 46
  const GLOW_SQUID: EntityType := 48
  const GOAT: EntityType := 50
  const GUARDIAN: EntityType := 52
  const HOGLIN: EntityType := 54
  const HORSE: EntityType := 56
  const HUSK: EntityType := 58
  const LLAMA: EntityType := 60
  const MAGMA_CUBE: EntityType := 62
  const MULE: EntityType := 64
  const MUSHROOM_COW: EntityType := 66
  const OCELOT: EntityType := 68
  const PANDA: EntityType := 70
  const PARROT: EntityType := 72
  const PHANTOM: EntityType := 74
  const PIG: EntityType := 76
  const PIGLIN: EntityType := 78
  const PIGLIN_BRUTE: EntityType := 80
  const PILLAGER: EntityType := 82
  const POLAR_BEAR: EntityType := 84
  const PUFFERFISH: EntityType := 86
  const RABBIT: EntityType := 88
  const RAVAGER: EntityType := 90
  const SALMON: EntityType := 92
  const SHEEP: EntityType := 94
  const SHULKER: EntityType := 96
  const SILVERFISH: EntityType := 98
  const SKELETON: EntityType := 100
  const SKELETON_HORSE: EntityType := 102
  const SLIME: EntityType := 104
  const SPIDER: EntityType := 106
  const SQUID: EntityType := 108
  const STRAY: EntityType := 110
  const STRIDER: EntityType := 112
  const TRADER_LLAMA: EntityType := 114
  const TROPICAL_FISH: EntityType := 116
  const TURTLE: EntityType := 118
  const VEX: EntityType := 120
  const VILLAGER: EntityType := 122
  const VINDICATOR: EntityType := 124
  const WANDERING_TRADER: EntityType := 126
  const WITCH: EntityType := 128
  const WITHER_SKELETON: EntityType := 130
  const WOLF: EntityType := 132
  const ZOGLIN: EntityType := 134
  const ZOMBIE: EntityType := 136
  const ZOMBIE_HORSE: EntityType := 138
  const ZOMBIE_VILLAGER: EntityType := 140
  const ZOMBIFIED_PIGLIN: EntityType := 142

  /** Material.isAir: the three air blocks and the legacy air constant. */
  predicate IsAirMaterial(m: Material)
  {
    m == AIR || m == CAVE_AIR || m == VOID_AIR || m == LEGACY_AIR
  }

  /** An IEEE-754 single, by its bits. */
  type Float = bv32

  /** An IEEE-754 double, by its bits. */
  type Double = bv64

  /** Java's `f != 0` is false exactly for +0.0 and -0.0; NaN compares unequal to 0. */
  predicate FloatIsZero(f: Float)
  {
    f & 0x7fff_ffff == 0
  }

  /** org.bukkit.World: its UID, and whether the server still has it loaded. */
  datatype World = World(uid: Uuid, loaded: bool)

  /** org.bukkit.Location; the world may be null. */
  datatype Location = Location(world: Option<World>, x: Double, y: Double, z: Double, yaw: Float, pitch: Float)

  /** org.bukkit.Chunk: chunk coordinates and the world it lies in. */
  datatype Chunk = Chunk(x: i32, z: i32, world: World)
}
