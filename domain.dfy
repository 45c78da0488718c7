/** The optional value used wherever the source returns `None` or looks up a missing key. */
module Wrappers {
  datatype Option<+T> = None | Some(value: T)
}

/**
 * Entities shared by the simulation core: agents (characters), species, positions,
 * resource nodes, territories and inventory items, all as plain values. Entities the
 * source mutates in place live in index-addressed sequences of the modules that change
 * them, so that two references to one character are one index.
 */
module Domain {
  import opened Wrappers

  type AgentId = int
  type SpeciesId = int
  type ClanId = int
  type ResourceTypeId = int
  type TerritoryId = int

  /** A point on the map. */
  datatype Pos = Pos(x: real, y: real)

  /** Squared Euclidean distance, written `(p.x - q.x) ** 2 + (p.y - q.y) ** 2` in the source. */
  function DistSq(p: Pos, q: Pos): real
  {
    (p.x - q.x) * (p.x - q.x) + (p.y - q.y) * (p.y - q.y)
  }

  /** `max(0, min(hi, v))`: the clamp every movement helper applies to each coordinate. */
  function Clamp(v: real, hi: real): (r: real)
    ensures 0.0 <= hi ==> 0.0 <= r <= hi
    ensures 0.0 <= v <= hi ==> r == v
  {
    var m := if hi <= v then hi else v;
    if 0.0 >= m then 0.0 else m
  }

  /** The map is the rectangle [0, width] x [0, height]. */
  predicate InMap(p: Pos, width: real, height: real)
  {
    0.0 <= p.x <= width && 0.0 <= p.y <= height
  }

  function ClampToMap(p: Pos, width: real, height: real): (r: Pos)
    ensures 0.0 <= width && 0.0 <= height ==> InMap(r, width, height)
    ensures InMap(p, width, height) ==> r == p
  {
    Pos(Clamp(p.x, width), Clamp(p.y, height))
  }

  /** The static template a character copies its base stats from. */
  datatype Species = Species(id: SpeciesId, name: string, baseHealth: int, baseStrength: int)

  /**
   * A character: identity, species, optional clan, position, health, vitals
   * (hunger `fome`, energy `energia`) and personality traits.
   */
  datatype Agent = Agent(
    id: AgentId,
    species: Species,
    clan: Option<ClanId>,
    pos: Pos,
    health: int,
    hunger: real,
    energy: int,
    bravery: int,
    caution: int,
    sociability: int,
    greed: int,
    intelligence: int)

  /** One inventory entry of a character: a resource type and how many units it holds. */
  datatype Item = Item(resourceType: ResourceTypeId, quantity: int)

  /** A harvestable node: its resource type and category, position, remaining quantity and depleted flag. */
  datatype ResourceNode = ResourceNode(
    resourceType: ResourceTypeId,
    category: Option<string>,
    pos: Pos,
    quantity: int,
    depleted: bool)

  /** An axis-aligned rectangle of the map, optionally owned by a clan. */
  datatype Territory = Territory(
    id: TerritoryId,
    owner: Option<ClanId>,
    startX: real, startY: real, endX: real, endY: real)

  /** Closed containment, `start_x <= x <= end_x and start_y <= y <= end_y`. */
  predicate InTerritory(t: Territory, x: real, y: real)
  {
    t.startX <= x <= t.endX && t.startY <= y <= t.endY
  }
}
