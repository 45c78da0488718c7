/** Balancing and physics constants of the simulation (app/simulation/constants.py). */
module Constants {
  import opened Wrappers

  /** Radius within which an agent perceives others. */
  const VISION_RANGE: real := 150.0
  /** Largest distance an agent covers in one movement step. */
  const MOVE_SPEED: real := 15.0
  const ATTACK_RANGE: real := 25.0
  const GATHER_RANGE: real := 15.0
  const GROUPING_DISTANCE: real := 50.0

  /** Hunger added per tick by the resolve pass. */
  const HUNGER_INCREASE_RATE: real := 0.1
  /** Health lost per tick by a starving agent. */
  const STARVATION_DAMAGE: int := 1
  /** Energy regained per tick by an agent that neither rested nor moved. */
  const ENERGY_REGEN_RATE: int := 5

  const TICKS_PER_YEAR: int := 13

  /** Expected lifespan in years per (lower-case) species name; `None` marks an immortal species. */
  const SPECIES_LIFESPAN_YEARS: map<string, Option<nat>> :=
    map[
      "humano" := Some(90), "humans" := Some(90),
      "elfo" := Some(150), "elf" := Some(150),
      "orc" := Some(75), "orcs" := Some(75),
      "fada" := Some(140), "fadas" := Some(140),
      "goblin" := Some(60), "goblins" := Some(60),
      "anao" := Some(135), "anão" := Some(135), "anaoes" := Some(135),
      "troll" := Some(95), "trolls" := Some(95),
      "zumbi" := None, "zombies" := None, "zombie" := None
    ]
}
