/**
 * The behaviour tree of app/simulation/behavior_tree.py: composite nodes (Selector,
 * Sequence, UtilitySelector) and leaf conditions and actions that act on one character.
 *
 * Every character, resource node and inventory entry that the Python tree mutates in
 * place is addressed by index: `Sim.agents` is `world_state["all_characters"]`,
 * `Sim.nodes` is `world_state["all_nodes"]`, `Sim.inventory` is the inventory map, and
 * the blackboard stores indices into those sequences. `Tick` is the specification of one
 * tick of a node; the class `TickContext` does the same work by updating its fields, and
 * each of its methods is proved to agree with `Tick`.
 */
module BehaviorTree {
  import opened Wrappers
  import opened Domain
  import opened Constants
  import opened Relationships
  import opened Spatial

  datatype Status = Success | Failure | Running

  /** The five considerations the utility selector can weigh. */
  datatype ConsiderationKind = FleeUtility | AttackUtility | EatUtility | RestUtility | GroupUtility

  /** A consideration: how to score it, and the subtree it runs when it wins. */
  datatype Consideration = Consideration(kind: ConsiderationKind, tree: Node)

  datatype Node =
    | Selector(children: seq<Node>)
    | Sequence(children: seq<Node>)
    | UtilitySelector(considerations: seq<Consideration>, fallback: Node)
    | IsEnemyNear
    | HasFoodInInventory
    | Flee
    | Attack
    | EatFromInventory
    | FindFoodResource
    | MoveToAndGatherResource
    | GroupOrFollowObjective
    | Wander
    | Rest

  /**
   * The blackboard: `enemies_in_range`, `allies_in_range` and `numerical_advantage` as set
   * by the utility selector, and `target_enemy` / `target_node` as set by the leaves. An
   * absent list reads as empty, an absent target as `None`.
   */
  datatype Blackboard = Blackboard(
    enemies: seq<nat>,
    allies: seq<nat>,
    advantage: int,
    targetEnemy: Option<nat>,
    targetNode: Option<nat>)

  /** The entries a tick appends to `commands["objects_to_add"]`. */
  datatype LogEntry =
    | AttackLog(attacker: AgentId, target: AgentId, damage: int)
    | DeathLog(victim: AgentId, killer: AgentId)
    | NewInventoryItem(owner: AgentId, resourceType: ResourceTypeId)

  /** Everything a tick may change: characters, inventories, resource nodes, the commands and the blackboard. */
  datatype Sim = Sim(
    agents: seq<Agent>,
    inventory: map<AgentId, seq<Item>>,
    nodes: seq<ResourceNode>,
    toDelete: set<AgentId>,
    added: seq<LogEntry>,
    deleted: seq<(AgentId, ResourceTypeId)>,
    bb: Blackboard)

  /**
   * What a tick reads and never changes: the map size, the food resource types, the clan
   * goals and territories, the relationship function `get_rel`, and the values the model
   * takes as given (the `math.hypot` distance, the raw Flee and Attack formulas, and the
   * random draws of wandering and of fleeing from an exact overlap).
   */
  datatype Env = Env(
    width: real,
    height: real,
    foodTypes: set<ResourceTypeId>,
    clanGoals: map<ClanId, Pos>,
    territories: seq<Territory>,
    rel: (Agent, Agent) -> Relation,
    dist: (Pos, Pos) -> real,
    rawFlee: (Agent, Blackboard) -> real,
    rawAttack: (Agent, Blackboard) -> real,
    wanderDx: real,
    wanderDy: real,
    fleeJitter: Pos,
    fleeJitterDistance: real)

  /** Every index the blackboard holds addresses an existing character or node. */
  predicate Valid(sim: Sim)
  {
    (forall i :: 0 <= i < |sim.bb.enemies| ==> sim.bb.enemies[i] < |sim.agents|) &&
    (forall i :: 0 <= i < |sim.bb.allies| ==> sim.bb.allies[i] < |sim.agents|) &&
    (sim.bb.targetEnemy.Some? ==> sim.bb.targetEnemy.value < |sim.agents|) &&
    (sim.bb.targetNode.Some? ==> sim.bb.targetNode.value < |sim.nodes|)
  }

  /** The tick changed neither the number of characters nor the number of resource nodes. */
  predicate SameShape(sim: Sim, sim': Sim)
  {
    |sim'.agents| == |sim.agents| && |sim'.nodes| == |sim.nodes|
  }

  // ---------------------------------------------------------------------------
  // Inventories
  // ---------------------------------------------------------------------------

  /** `inventory_map.get(character.id, {})`. */
  function ItemsOf(inventory: map<AgentId, seq<Item>>, id: AgentId): seq<Item>
  {
    if id in inventory then inventory[id] else []
  }

  /** The entry of a resource type in one character's inventory, `.get(resource_type_id)`. */
  function FindItem(items: seq<Item>, resourceType: ResourceTypeId): (k: Option<nat>)
    ensures k.None? <==> forall i :: 0 <= i < |items| ==> items[i].resourceType != resourceType
    ensures k.Some? ==> (k.value < |items| && items[k.value].resourceType == resourceType &&
      forall i :: 0 <= i < k.value ==> items[i].resourceType != resourceType)
  {
    if items == [] then None
    else if items[0].resourceType == resourceType then Some(0)
    else match FindItem(items[1..], resourceType)
      case None => None
      case Some(k) => Some(k + 1)
  }

  /** How many units of a resource type the character holds (0 without an entry). */
  function Holding(items: seq<Item>, resourceType: ResourceTypeId): int
  {
    match FindItem(items, resourceType)
    case None => 0
    case Some(k) => items[k].quantity
  }

  /**
   * The first food entry with units left, the one `consume_food_from_inventory` takes a
   * unit from.
   */
  function FirstFood(items: seq<Item>, food: set<ResourceTypeId>): (k: Option<nat>)
    ensures k.None? <==> forall i :: 0 <= i < |items| ==> !(items[i].resourceType in food && items[i].quantity > 0)
    ensures k.Some? ==> (k.value < |items| && items[k.value].resourceType in food && items[k.value].quantity > 0 &&
      forall i :: 0 <= i < k.value ==> !(items[i].resourceType in food && items[i].quantity > 0))
  {
    if items == [] then None
    else if items[0].resourceType in food && items[0].quantity > 0 then Some(0)
    else match FirstFood(items[1..], food)
      case None => None
      case Some(k) => Some(k + 1)
  }

  /** Units of food held across all entries. */
  function FoodUnits(items: seq<Item>, food: set<ResourceTypeId>): int
  {
    if items == [] then 0
    else (if items[0].resourceType in food then items[0].quantity else 0) + FoodUnits(items[1..], food)
  }

  lemma {:induction false} FoodUnitsAppend(a: seq<Item>, b: seq<Item>, food: set<ResourceTypeId>)
    ensures FoodUnits(a + b, food) == FoodUnits(a, food) + FoodUnits(b, food)
    decreases |a|
  {
    if a == [] {
      assert a + b == b;
    } else {
      assert (a + b)[1..] == a[1..] + b;
      FoodUnitsAppend(a[1..], b, food);
    }
  }

  /** The food entry `k` with one unit taken, removed when none is left. */
  function TakeUnit(items: seq<Item>, k: nat): (items': seq<Item>)
    requires k < |items| && items[k].quantity > 0
    ensures items[k].quantity == 1 ==> items' == items[..k] + items[k + 1..]
    ensures items[k].quantity > 1 ==> items' == items[k := items[k].(quantity := items[k].quantity - 1)]
  {
    if items[k].quantity - 1 <= 0 then items[..k] + items[k + 1..]
    else items[k := items[k].(quantity := items[k].quantity - 1)]
  }

  /** Eating takes exactly one unit of food out of the inventory. */
  lemma TakeUnitConsumesOne(items: seq<Item>, k: nat, food: set<ResourceTypeId>)
    requires k < |items| && items[k].quantity > 0 && items[k].resourceType in food
    ensures FoodUnits(TakeUnit(items, k), food) == FoodUnits(items, food) - 1
  {
    var before, after := items[..k], items[k + 1..];
    assert items == before + ([items[k]] + after);
    FoodUnitsAppend(before, [items[k]] + after, food);
    FoodUnitsAppend([items[k]], after, food);
    FoodUnitsAppend(before, after, food);
    if items[k].quantity > 1 {
      var e := items[k].(quantity := items[k].quantity - 1);
      assert TakeUnit(items, k) == before + ([e] + after);
      FoodUnitsAppend(before, [e] + after, food);
      FoodUnitsAppend([e], after, food);
    }
  }

  /** One unit of a resource type added to an inventory, creating the entry at 1 if absent. */
  function AddUnit(items: seq<Item>, resourceType: ResourceTypeId): (items': seq<Item>)
    ensures Holding(items', resourceType) == Holding(items, resourceType) + 1
    ensures forall t :: t != resourceType ==> Holding(items', t) == Holding(items, t)
  {
    match FindItem(items, resourceType)
    case Some(k) =>
      var items' := items[k := items[k].(quantity := items[k].quantity + 1)];
      assert forall t :: FindItem(items', t) == FindItem(items, t) by {
        forall t ensures FindItem(items', t) == FindItem(items, t) {
          SameTypesSameFind(items, items', t);
        }
      }
      items'
    case None =>
      var items' := items + [Item(resourceType, 1)];
      assert forall t :: t != resourceType ==> FindItem(items', t) == FindItem(items, t) by {
        forall t | t != resourceType ensures FindItem(items', t) == FindItem(items, t) {
          AppendOtherFind(items, Item(resourceType, 1), t);
        }
      }
      AppendNewFind(items, Item(resourceType, 1));
      items'
  }

  lemma SameTypesSameFind(items: seq<Item>, items': seq<Item>, t: ResourceTypeId)
    requires |items| == |items'|
    requires forall i :: 0 <= i < |items| ==> items'[i].resourceType == items[i].resourceType
    ensures FindItem(items', t) == FindItem(items, t)
  {
  }

  lemma {:induction false} AppendOtherFind(items: seq<Item>, e: Item, t: ResourceTypeId)
    requires e.resourceType != t
    ensures FindItem(items + [e], t) == FindItem(items, t)
    decreases |items|
  {
    if items == [] {
      assert items + [e] == [e];
      assert [e][1..] == [];
    } else {
      assert (items + [e])[1..] == items[1..] + [e];
      AppendOtherFind(items[1..], e, t);
    }
  }

  lemma {:induction false} AppendNewFind(items: seq<Item>, e: Item)
    requires forall i :: 0 <= i < |items| ==> items[i].resourceType != e.resourceType
    ensures FindItem(items + [e], e.resourceType) == Some(|items|)
    decreases |items|
  {
    if items == [] {
      assert items + [e] == [e];
    } else {
      assert (items + [e])[1..] == items[1..] + [e];
      AppendNewFind(items[1..], e);
    }
  }

  // ---------------------------------------------------------------------------
  // Perception: the utility selector's scan of the surroundings
  // ---------------------------------------------------------------------------

  /** `other` is another character strictly inside the vision radius of `me`. */
  predicate InVision(me: Agent, other: Agent)
  {
    other.id != me.id && DistSq(other.pos, me.pos) < VISION_RANGE * VISION_RANGE
  }

  /**
   * The enemies and allies among the first `n` characters, in list order: another
   * character inside the vision radius goes to the allies when `get_rel` says FRIEND, to
   * the enemies when it says ENEMY, and nowhere otherwise.
   */
  function Partition(agents: seq<Agent>, me: nat, rel: (Agent, Agent) -> Relation, n: nat): (r: (seq<nat>, seq<nat>))
    requires me < |agents| && n <= |agents|
    ensures forall i :: 0 <= i < |r.0| ==> r.0[i] < n
    ensures forall i :: 0 <= i < |r.1| ==> r.1[i] < n
    ensures forall j :: 0 <= j < n ==>
      (j in r.0 <==> InVision(agents[me], agents[j]) && rel(agents[me], agents[j]) == Enemy)
    ensures forall j :: 0 <= j < n ==>
      (j in r.1 <==> InVision(agents[me], agents[j]) && rel(agents[me], agents[j]) == Friend)
    ensures forall i, j :: 0 <= i < j < |r.0| ==> r.0[i] < r.0[j]
    ensures forall i, j :: 0 <= i < j < |r.1| ==> r.1[i] < r.1[j]
  {
    if n == 0 then ([], [])
    else
      var prev := Partition(agents, me, rel, n - 1);
      var other := agents[n - 1];
      if InVision(agents[me], other) && rel(agents[me], other) == Friend then (prev.0, prev.1 + [n - 1])
      else if InVision(agents[me], other) && rel(agents[me], other) == Enemy then (prev.0 + [n - 1], prev.1)
      else prev
  }

  /** The blackboard right after `blackboard.clear()` and the scan. */
  function Surroundings(agents: seq<Agent>, me: nat, rel: (Agent, Agent) -> Relation): (bb: Blackboard)
    requires me < |agents|
    ensures bb.advantage == |bb.allies| - |bb.enemies|
    ensures bb.targetEnemy.None? && bb.targetNode.None?
    ensures me !in bb.enemies && me !in bb.allies
    ensures forall j :: j in bb.enemies ==> j !in bb.allies
  {
    var p := Partition(agents, me, rel, |agents|);
    Blackboard(p.0, p.1, |p.1| - |p.0|, None, None)
  }

  // ---------------------------------------------------------------------------
  // Considerations
  // ---------------------------------------------------------------------------

  /** A territory whose owner is falsy in Python (absent or id 0) is nobody's. */
  predicate Unowned(t: Territory)
  {
    t.owner.None? || t.owner == Some(0)
  }

  /** The character stands outside every territory, in an unowned one, or in its own clan's. */
  predicate IsSafe(a: Agent, territories: seq<Territory>)
  {
    var t := TerritoryAt(territories, a.pos.x, a.pos.y);
    t.None? || Unowned(territories[t.value]) || territories[t.value].owner == a.clan
  }

  lemma ScaledDown(x: real, c: real)
    ensures 0.0 <= x && 0.0 <= c <= 1.0 ==> 0.0 <= x * c <= x
  {
    if 0.0 <= x && 0.0 <= c <= 1.0 {
      assert x * c <= x * 1.0;
    }
  }

  /** The eat desire `(hunger / 100) * 100 + (greed / 100) * 15` is `hunger + 0.15 * greed`. */
  lemma DesireIs(hunger: real, greed: int)
    ensures (hunger / 100.0) * 100.0 + ((greed as real) / 100.0) * 15.0 == hunger + (greed as real) * 0.15
  {
  }

  /** The caution factor `1 - ((caution - 50) / 50) * 0.8` lies in [0, 1] for a caution in (50, 100]. */
  lemma CautionFactor(caution: int)
    ensures 50 < caution <= 100 ==> 0.0 <= 1.0 - (((caution - 50) as real) / 50.0) * 0.8 <= 1.0
  {
  }

  /** The factor that lowers the eat desire of a cautious character outside safe ground. */
  function Caution(a: Agent, env: Env): (c: real)
    ensures a.caution <= 100 ==> 0.0 <= c <= 1.0
    ensures IsSafe(a, env.territories) ==> c == 1.0
  {
    CautionFactor(a.caution);
    if !IsSafe(a, env.territories) && a.caution > 50
    then 1.0 - (((a.caution - 50) as real) / 50.0) * 0.8
    else 1.0
  }

  /** `calculate_utility` of each consideration. */
  function Score(kind: ConsiderationKind, a: Agent, bb: Blackboard, env: Env): (s: real)
    // Flee and Rest are gated on the enemies in range, Attack also on energy
    ensures kind == FleeUtility && bb.enemies == [] ==> s == 0.0
    ensures kind == AttackUtility && (bb.enemies == [] || a.energy < 10) ==> s == 0.0
    ensures kind == AttackUtility ==> s >= 0.0
    ensures kind == RestUtility && bb.enemies != [] ==> s == 0.0
    // a hungrier character wants to eat more, and caution only ever lowers the desire
    ensures kind == EatUtility && 0 <= a.caution <= 100 && 0.0 <= a.hunger && 0 <= a.greed ==>
      0.0 <= s <= a.hunger + (a.greed as real) * 0.15
    ensures kind == EatUtility && IsSafe(a, env.territories) ==> s == a.hunger + (a.greed as real) * 0.15
  {
    match kind
    case FleeUtility =>
      if bb.enemies == [] then 0.0 else env.rawFlee(a, bb)
    case AttackUtility =>
      if bb.enemies == [] || a.energy < 10 then 0.0
      else var raw := env.rawAttack(a, bb); if raw >= 0.0 then raw else 0.0
    case EatUtility =>
      var desire := (a.hunger / 100.0) * 100.0 + ((a.greed as real) / 100.0) * 15.0;
      var caution := Caution(a, env);
      DesireIs(a.hunger, a.greed);
      ScaledDown(desire, caution);
      desire * caution
    case RestUtility =>
      if bb.enemies != [] then 0.0 else (1.0 - (a.energy as real) / 100.0) * 80.0
    case GroupUtility =>
      15.0 * ((a.sociability as real) / 50.0)
  }

  function Scores(cs: seq<Consideration>, a: Agent, bb: Blackboard, env: Env): (ss: seq<real>)
    ensures |ss| == |cs|
    ensures forall i :: 0 <= i < |cs| ==> ss[i] == Score(cs[i].kind, a, bb, env)
  {
    seq(|cs|, i requires 0 <= i < |cs| => Score(cs[i].kind, a, bb, env))
  }

  /**
   * The argmax loop over the first `n` scores, starting from `highest_score = -1.0` and
   * replacing the best only on a strictly greater score: the earliest of the highest
   * scores wins, and a score of -1 or less is never picked.
   */
  function BestScore(ss: seq<real>, n: nat): (r: (Option<nat>, real))
    requires n <= |ss|
    ensures r.0.None? <==> forall i :: 0 <= i < n ==> ss[i] <= -1.0
    ensures r.0.None? ==> r.1 == -1.0
    ensures r.0.Some? ==> r.0.value < n && r.1 == ss[r.0.value] && r.1 > -1.0
    ensures forall i :: 0 <= i < n ==> ss[i] <= r.1
    ensures r.0.Some? ==> forall i :: 0 <= i < r.0.value ==> ss[i] < r.1
  {
    if n == 0 then (None, -1.0)
    else
      var prev := BestScore(ss, n - 1);
      if ss[n - 1] > prev.1 then (Some(n - 1), ss[n - 1]) else prev
  }

  /** `UTILITY_THRESHOLD`: the best score must exceed it, or the default behaviour runs. */
  const UTILITY_THRESHOLD: real := 10.0

  /** The consideration whose subtree the utility selector runs, or `None` for the default behaviour. */
  function Chosen(cs: seq<Consideration>, a: Agent, bb: Blackboard, env: Env): (c: Option<nat>)
    ensures c.Some? ==> c.value < |cs| && Score(cs[c.value].kind, a, bb, env) > UTILITY_THRESHOLD
    ensures c.Some? ==> forall i :: 0 <= i < |cs| ==> Score(cs[i].kind, a, bb, env) <= Score(cs[c.value].kind, a, bb, env)
    ensures c.Some? ==> forall i :: 0 <= i < c.value ==> Score(cs[i].kind, a, bb, env) < Score(cs[c.value].kind, a, bb, env)
    ensures c.None? <==> forall i :: 0 <= i < |cs| ==> Score(cs[i].kind, a, bb, env) <= UTILITY_THRESHOLD
  {
    var ss := Scores(cs, a, bb, env);
    var best := BestScore(ss, |cs|);
    if best.0.Some? && best.1 > UTILITY_THRESHOLD then best.0
    else
      assert best.0.Some? ==> forall i :: 0 <= i < |cs| ==> ss[i] <= UTILITY_THRESHOLD;
      None
  }

  /** With no enemy in range neither fleeing nor attacking can win the selection. */
  lemma NoEnemiesNoFight(cs: seq<Consideration>, a: Agent, bb: Blackboard, env: Env)
    requires bb.enemies == []
    ensures var c := Chosen(cs, a, bb, env); c.Some? ==> cs[c.value].kind !in {FleeUtility, AttackUtility}
  {
  }

  /** With an enemy in range resting cannot win the selection, nor can attacking below 10 energy. */
  lemma EnemiesNoRest(cs: seq<Consideration>, a: Agent, bb: Blackboard, env: Env)
    requires bb.enemies != []
    ensures var c := Chosen(cs, a, bb, env); c.Some? ==> cs[c.value].kind != RestUtility
    ensures var c := Chosen(cs, a, bb, env); c.Some? && a.energy < 10 ==> cs[c.value].kind != AttackUtility
  {
  }

  // ---------------------------------------------------------------------------
  // Leaves
  // ---------------------------------------------------------------------------

  /** Squared distance of an enemy (by index) to a point, the key of `min(..., key=...)`. */
  function EnemyDistance(agents: seq<Agent>, at: Pos): nat -> real
  {
    (e: nat) => if e < |agents| then DistSq(agents[e].pos, at) else 0.0
  }

  function AnyEnemy(e: nat): bool { true }

  /** `IsEnemyNear`: targets the nearest enemy in range (the first on ties) and succeeds, or fails with none. */
  function IsEnemyNearStep(me: nat, sim: Sim): (r: (Status, Sim))
    requires me < |sim.agents| && Valid(sim)
    ensures Valid(r.1) && SameShape(sim, r.1)
    ensures r.0 != Running && (r.0 == Success <==> sim.bb.enemies != [])
    ensures r.0 == Failure ==> r.1 == sim
    ensures r.0 == Success ==> r.1 == sim.(bb := r.1.bb) && r.1.bb == sim.bb.(targetEnemy := r.1.bb.targetEnemy)
    ensures r.0 == Success ==> (r.1.bb.targetEnemy.Some? && r.1.bb.targetEnemy.value in sim.bb.enemies &&
      forall i :: 0 <= i < |sim.bb.enemies| ==>
        DistSq(sim.agents[r.1.bb.targetEnemy.value].pos, sim.agents[me].pos) <= DistSq(sim.agents[sim.bb.enemies[i]].pos, sim.agents[me].pos))
    ensures r.0 == Success ==>
      exists k :: (0 <= k < |sim.bb.enemies| && r.1.bb.targetEnemy == Some(sim.bb.enemies[k]) &&
        forall j :: 0 <= j < k ==>
          DistSq(sim.agents[sim.bb.enemies[k]].pos, sim.agents[me].pos) < DistSq(sim.agents[sim.bb.enemies[j]].pos, sim.agents[me].pos))
  {
    var es := sim.bb.enemies;
    if es == [] then (Failure, sim)
    else
      var key := EnemyDistance(sim.agents, sim.agents[me].pos);
      var k := ScanNearest(es, AnyEnemy, key, |es|);
      assert AnyEnemy(es[0]);
      assert forall j :: 0 <= j < k.value ==> key(es[k.value]) < key(es[j]);
      (Success, sim.(bb := sim.bb.(targetEnemy := Some(es[k.value]))))
  }

  /** The scan of `min(enemies, key=distance)`: the index in `es` of the first enemy nearest to `at`. */
  method NearestOf(es: seq<nat>, ags: seq<Agent>, at: Pos) returns (best: nat)
    requires es != [] && forall i :: 0 <= i < |es| ==> es[i] < |ags|
    ensures ScanNearest(es, AnyEnemy, EnemyDistance(ags, at), |es|) == Some(best)
  {
    ghost var key := EnemyDistance(ags, at);
    best := 0;
    var bestDistSq := DistSq(ags[es[0]].pos, at);
    assert AnyEnemy(es[0]);
    assert ScanNearest(es, AnyEnemy, key, 1) == Some(0);
    for i := 1 to |es|
      invariant best < i && ScanNearest(es, AnyEnemy, key, i) == Some(best)
      invariant bestDistSq == key(es[best])
    {
      var d := DistSq(ags[es[i]].pos, at);
      ScanNearestNext(es, AnyEnemy, key, i);
      assert AnyEnemy(es[i]) && key(es[i]) == d;
      if d < bestDistSq {
        best, bestDistSq := i, d;
      }
    }
  }

  /** `HasFoodInInventory`: succeeds iff some inventory entry is of a food type. */
  function HasFoodStep(me: nat, env: Env, sim: Sim): (r: (Status, Sim))
    requires me < |sim.agents|
    ensures r.1 == sim
    ensures r.0 != Running
    ensures r.0 == Success <==>
      exists i :: 0 <= i < |ItemsOf(sim.inventory, sim.agents[me].id)| && ItemsOf(sim.inventory, sim.agents[me].id)[i].resourceType in env.foodTypes
  {
    var items := ItemsOf(sim.inventory, sim.agents[me].id);
    if exists i :: 0 <= i < |items| && items[i].resourceType in env.foodTypes then (Success, sim) else (Failure, sim)
  }

  /** `Flee`: with a target, one step away from it (kept on the map) and RUNNING; without one, FAILURE. */
  function FleeStep(me: nat, env: Env, sim: Sim): (r: (Status, Sim))
    requires me < |sim.agents| && Valid(sim)
    ensures Valid(r.1) && SameShape(sim, r.1)
    ensures r.0 == Failure <==> sim.bb.targetEnemy.None?
    ensures r.0 == Failure ==> r.1 == sim
    ensures r.0 != Failure ==>
      var a := sim.agents[me];
      var target := sim.agents[sim.bb.targetEnemy.value].pos;
      r.0 == Running &&
      r.1 == sim.(agents := sim.agents[me := a.(pos := MoveAway(a.pos, target, env.width, env.height,
                                                             env.dist(a.pos, target), env.fleeJitter, env.fleeJitterDistance))])
    ensures 0.0 <= env.width && 0.0 <= env.height && InMap(sim.agents[me].pos, env.width, env.height) ==>
      InMap(r.1.agents[me].pos, env.width, env.height)
  {
    match sim.bb.targetEnemy
    case None => (Failure, sim)
    case Some(t) =>
      var a := sim.agents[me];
      var target := sim.agents[t].pos;
      var p := MoveAway(a.pos, target, env.width, env.height, env.dist(a.pos, target), env.fleeJitter, env.fleeJitterDistance);
      (Running, sim.(agents := sim.agents[me := a.(pos := p)]))
  }

  /**
   * `Attack`: fails without a target or when the target is already marked for deletion;
   * otherwise steps toward it (RUNNING, one energy) until within ATTACK_RANGE, then hits
   * it for the attacker's base strength (SUCCESS, five energy), marking it for deletion
   * when its health drops to 0 or below.
   */
  function AttackStep(me: nat, env: Env, sim: Sim): (r: (Status, Sim))
    requires me < |sim.agents| && Valid(sim)
    ensures Valid(r.1) && SameShape(sim, r.1)
    ensures r.0 == Failure <==>
      sim.bb.targetEnemy.None? || sim.agents[sim.bb.targetEnemy.value].id in sim.toDelete
    ensures r.0 == Failure ==> r.1 == sim
    ensures r.0 != Failure ==>
      var a := sim.agents[me];
      var victim := sim.agents[sim.bb.targetEnemy.value];
      (r.0 == Running <==> env.dist(a.pos, victim.pos) > ATTACK_RANGE)
    ensures r.0 == Running ==>
      var a := sim.agents[me];
      var victim := sim.agents[sim.bb.targetEnemy.value];
      var step := MoveTowards(a.pos, victim.pos, env.width, env.height, ATTACK_RANGE, env.dist(a.pos, victim.pos));
      r.1 == sim.(agents := sim.agents[me := a.(pos := step.pos, energy := a.energy - 1)])
    ensures r.0 == Success ==>
      var t := sim.bb.targetEnemy.value;
      var a := sim.agents[me];
      var victim := sim.agents[t];
      var damage := a.species.baseStrength;
      var killed := victim.health - damage <= 0;
      r.1 == sim.(agents := r.1.agents, toDelete := r.1.toDelete, added := r.1.added) &&
      (t != me ==> r.1.agents == sim.agents[me := a.(energy := a.energy - 5)][t := victim.(health := victim.health - damage)]) &&
      (t == me ==> r.1.agents == sim.agents[me := a.(energy := a.energy - 5, health := a.health - damage)]) &&
      r.1.toDelete == (if killed then sim.toDelete + {victim.id} else sim.toDelete) &&
      r.1.added == sim.added + [AttackLog(a.id, victim.id, damage)] + (if killed then [DeathLog(victim.id, a.id)] else [])
  {
    if sim.bb.targetEnemy.None? || sim.agents[sim.bb.targetEnemy.value].id in sim.toDelete then (Failure, sim)
    else
      var t := sim.bb.targetEnemy.value;
      var a := sim.agents[me];
      var victim := sim.agents[t];
      var step := MoveTowards(a.pos, victim.pos, env.width, env.height, ATTACK_RANGE, env.dist(a.pos, victim.pos));
      if step.moved then
        (Running, sim.(agents := sim.agents[me := a.(pos := step.pos, energy := a.energy - 1)]))
      else
        var damage := a.species.baseStrength;
        var agents1 := sim.agents[me := a.(energy := a.energy - 5)];
        var hit := agents1[t].(health := agents1[t].health - damage);
        var agents2 := agents1[t := hit];
        var log := sim.added + [AttackLog(a.id, victim.id, damage)];
        if hit.health <= 0 then
          (Success, sim.(agents := agents2, toDelete := sim.toDelete + {victim.id}, added := log + [DeathLog(victim.id, a.id)]))
        else
          (Success, sim.(agents := agents2, added := log))
  }

  /**
   * `EatFromInventory`: takes one unit of the first food entry with units left (deleting
   * the entry when it runs out) and lowers hunger by 50, never below 0; SUCCESS iff it ate.
   */
  function EatStep(me: nat, env: Env, sim: Sim): (r: (Status, Sim))
    requires me < |sim.agents| && Valid(sim)
    ensures Valid(r.1) && SameShape(sim, r.1)
    ensures r.0 != Running
    ensures r.0 == Success <==> FirstFood(ItemsOf(sim.inventory, sim.agents[me].id), env.foodTypes).Some?
    ensures r.0 == Failure ==> r.1 == sim
    ensures r.0 == Success ==>
      var a := sim.agents[me];
      var items := ItemsOf(sim.inventory, a.id);
      var k := FirstFood(items, env.foodTypes).value;
      r.1 == sim.(agents := sim.agents[me := a.(hunger := if a.hunger - 50.0 >= 0.0 then a.hunger - 50.0 else 0.0)],
                  inventory := sim.inventory[a.id := TakeUnit(items, k)],
                  deleted := if items[k].quantity <= 1 then sim.deleted + [(a.id, items[k].resourceType)] else sim.deleted) &&
      r.1.agents[me].hunger >= 0.0 &&
      FoodUnits(r.1.inventory[a.id], env.foodTypes) == FoodUnits(items, env.foodTypes) - 1
  {
    var a := sim.agents[me];
    var items := ItemsOf(sim.inventory, a.id);
    match FirstFood(items, env.foodTypes)
    case None => (Failure, sim)
    case Some(k) =>
      TakeUnitConsumesOne(items, k, env.foodTypes);
      var gone := items[k].quantity - 1 <= 0;
      var hunger := if a.hunger - 50.0 >= 0.0 then a.hunger - 50.0 else 0.0;
      (Success, sim.(agents := sim.agents[me := a.(hunger := hunger)],
                     inventory := sim.inventory[a.id := TakeUnit(items, k)],
                     deleted := if gone then sim.deleted + [(a.id, items[k].resourceType)] else sim.deleted))
  }

  /** `FindFoodResource`: targets the nearest node of category COMIDA and succeeds, or fails when there is none. */
  function FindFoodStep(me: nat, sim: Sim): (r: (Status, Sim))
    requires me < |sim.agents| && Valid(sim)
    ensures Valid(r.1) && SameShape(sim, r.1)
    ensures r.0 != Running
    ensures r.0 == Failure <==> forall i :: 0 <= i < |sim.nodes| ==> !MatchesCategory(sim.nodes[i], Some("COMIDA"))
    ensures r.0 == Failure ==> r.1 == sim
    ensures r.0 == Success ==> (r.1 == sim.(bb := sim.bb.(targetNode := r.1.bb.targetNode)) &&
      r.1.bb.targetNode.Some? &&
      IsFirstMinimum(sim.nodes, CategoryFilter(Some("COMIDA")), NodeDistance(sim.agents[me].pos), |sim.nodes|, r.1.bb.targetNode.value))
  {
    var k := ScanNearest(sim.nodes, CategoryFilter(Some("COMIDA")), NodeDistance(sim.agents[me].pos), |sim.nodes|);
    if k.None? then (Failure, sim)
    else (Success, sim.(bb := sim.bb.(targetNode := k)))
  }

  /**
   * `MoveToAndGatherResource`: fails without a target node or on a depleted one; steps
   * toward it (RUNNING, one energy) until within GATHER_RANGE, then moves one unit from
   * the node into the character's inventory (SUCCESS, three energy), marking the node
   * depleted once its quantity reaches 0.
   */
  function GatherStep(me: nat, env: Env, sim: Sim): (r: (Status, Sim))
    requires me < |sim.agents| && Valid(sim)
    ensures Valid(r.1) && SameShape(sim, r.1)
    ensures r.0 == Failure <==> sim.bb.targetNode.None? || sim.nodes[sim.bb.targetNode.value].depleted
    ensures r.0 == Failure ==> r.1 == sim
    ensures r.0 != Failure ==>
      var a := sim.agents[me];
      var node := sim.nodes[sim.bb.targetNode.value];
      (r.0 == Running <==> env.dist(a.pos, node.pos) > GATHER_RANGE)
    ensures r.0 == Running ==>
      var a := sim.agents[me];
      var node := sim.nodes[sim.bb.targetNode.value];
      var step := MoveTowards(a.pos, node.pos, env.width, env.height, GATHER_RANGE, env.dist(a.pos, node.pos));
      r.1 == sim.(agents := sim.agents[me := a.(pos := step.pos, energy := a.energy - 1)])
    ensures r.0 == Success ==>
      var t := sim.bb.targetNode.value;
      var node := sim.nodes[t];
      var a := sim.agents[me];
      var items := ItemsOf(sim.inventory, a.id);
      r.1 == sim.(agents := r.1.agents, inventory := r.1.inventory, nodes := r.1.nodes, added := r.1.added) &&
      r.1.agents == sim.agents[me := a.(energy := a.energy - 3)] &&
      r.1.nodes == sim.nodes[t := node.(quantity := node.quantity - 1, depleted := node.quantity - 1 <= 0)] &&
      r.1.added == sim.added + (if FindItem(items, node.resourceType).None? then [NewInventoryItem(a.id, node.resourceType)] else []) &&
      a.id in r.1.inventory &&
      Holding(r.1.inventory[a.id], node.resourceType) == Holding(items, node.resourceType) + 1 &&
      (forall rt :: rt != node.resourceType ==> Holding(r.1.inventory[a.id], rt) == Holding(items, rt)) &&
      (forall id :: id in sim.inventory && id != a.id ==> id in r.1.inventory && r.1.inventory[id] == sim.inventory[id])
  {
    if sim.bb.targetNode.None? || sim.nodes[sim.bb.targetNode.value].depleted then (Failure, sim)
    else
      var t := sim.bb.targetNode.value;
      var node := sim.nodes[t];
      var a := sim.agents[me];
      var step := MoveTowards(a.pos, node.pos, env.width, env.height, GATHER_RANGE, env.dist(a.pos, node.pos));
      if step.moved then
        (Running, sim.(agents := sim.agents[me := a.(pos := step.pos, energy := a.energy - 1)]))
      else
        var items := ItemsOf(sim.inventory, a.id);
        var added := if FindItem(items, node.resourceType).Some? then sim.added
                     else sim.added + [NewInventoryItem(a.id, node.resourceType)];
        (Success, sim.(agents := sim.agents[me := a.(energy := a.energy - 3)],
                       inventory := sim.inventory[a.id := AddUnit(items, node.resourceType)],
                       nodes := sim.nodes[t := node.(quantity := node.quantity - 1, depleted := node.quantity - 1 <= 0)],
                       added := added))
  }

  /** Positions of the allies in range, in blackboard order. */
  function AllyPositions(agents: seq<Agent>, allies: seq<nat>): (ps: seq<Pos>)
    requires forall i :: 0 <= i < |allies| ==> allies[i] < |agents|
    ensures |ps| == |allies|
    ensures forall i :: 0 <= i < |allies| ==> ps[i] == agents[allies[i]].pos
  {
    seq(|allies|, i requires 0 <= i < |allies| => agents[allies[i]].pos)
  }

  /** Where `GroupOrFollowObjective` heads, and how close it stops: the clan goal, else the group centre. */
  function GroupTarget(a: Agent, allyPositions: seq<Pos>, env: Env): (g: Option<(Pos, real)>)
    ensures a.clan.Some? && a.clan.value in env.clanGoals ==> g == Some((env.clanGoals[a.clan.value], GATHER_RANGE))
    ensures g.None? <==> (a.clan.None? || a.clan.value !in env.clanGoals) && allyPositions == []
  {
    if a.clan.Some? && a.clan.value in env.clanGoals then Some((env.clanGoals[a.clan.value], GATHER_RANGE))
    else match GroupCenter(a.pos, allyPositions)
      case Some(c) => Some((c, GROUPING_DISTANCE))
      case None => None
  }

  /**
   * `GroupOrFollowObjective`: costs one energy in every case; heads for the clan goal or
   * else the centre of the allies in range (RUNNING), and fails when there is neither.
   */
  function GroupStep(me: nat, env: Env, sim: Sim): (r: (Status, Sim))
    requires me < |sim.agents| && Valid(sim)
    ensures Valid(r.1) && SameShape(sim, r.1)
    ensures r.0 != Success
    ensures r.1 == sim.(agents := sim.agents[me := sim.agents[me].(pos := r.1.agents[me].pos, energy := sim.agents[me].energy - 1)])
    ensures r.0 == Failure <==> GroupTarget(sim.agents[me], AllyPositions(sim.agents, sim.bb.allies), env).None?
    ensures r.0 == Failure ==> r.1.agents[me].pos == sim.agents[me].pos
    ensures r.0 == Running ==>
      var a := sim.agents[me];
      var goal := GroupTarget(a, AllyPositions(sim.agents, sim.bb.allies), env).value;
      r.1.agents[me].pos == MoveTowards(a.pos, goal.0, env.width, env.height, goal.1, env.dist(a.pos, goal.0)).pos
  {
    var a := sim.agents[me].(energy := sim.agents[me].energy - 1);
    match GroupTarget(a, AllyPositions(sim.agents, sim.bb.allies), env)
    case None => (Failure, sim.(agents := sim.agents[me := a]))
    case Some(goal) =>
      var step := MoveTowards(a.pos, goal.0, env.width, env.height, goal.1, env.dist(a.pos, goal.0));
      (Running, sim.(agents := sim.agents[me := a.(pos := step.pos)]))
  }

  /** `Wander`: one random step kept on the map, one energy, SUCCESS. */
  function WanderStep(me: nat, env: Env, sim: Sim): (r: (Status, Sim))
    requires me < |sim.agents| && Valid(sim)
    ensures Valid(r.1) && SameShape(sim, r.1)
    ensures r.0 == Success
    ensures r.1 == sim.(agents := sim.agents[me := sim.agents[me].(pos := r.1.agents[me].pos, energy := sim.agents[me].energy - 1)])
    ensures 0.0 <= env.width && 0.0 <= env.height ==> InMap(r.1.agents[me].pos, env.width, env.height)
    ensures r.1.agents[me].pos == Spatial.Wander(sim.agents[me].pos, env.width, env.height, env.wanderDx, env.wanderDy)
    ensures InMap(sim.agents[me].pos, env.width, env.height) &&
            -WANDER_MAX_STEP <= env.wanderDx <= WANDER_MAX_STEP && -WANDER_MAX_STEP <= env.wanderDy <= WANDER_MAX_STEP ==>
      -WANDER_MAX_STEP <= r.1.agents[me].pos.x - sim.agents[me].pos.x <= WANDER_MAX_STEP &&
      -WANDER_MAX_STEP <= r.1.agents[me].pos.y - sim.agents[me].pos.y <= WANDER_MAX_STEP
  {
    var a := sim.agents[me];
    var p := Spatial.Wander(a.pos, env.width, env.height, env.wanderDx, env.wanderDy);
    assert InMap(a.pos, env.width, env.height) &&
           -WANDER_MAX_STEP <= env.wanderDx <= WANDER_MAX_STEP && -WANDER_MAX_STEP <= env.wanderDy <= WANDER_MAX_STEP ==>
      -WANDER_MAX_STEP <= p.x - a.pos.x <= WANDER_MAX_STEP && -WANDER_MAX_STEP <= p.y - a.pos.y <= WANDER_MAX_STEP by {
      if InMap(a.pos, env.width, env.height) &&
         -WANDER_MAX_STEP <= env.wanderDx <= WANDER_MAX_STEP && -WANDER_MAX_STEP <= env.wanderDy <= WANDER_MAX_STEP {
        WanderStaysNear(a.pos, env.width, env.height, env.wanderDx, env.wanderDy);
      }
    }
    (Success, sim.(agents := sim.agents[me := a.(pos := p, energy := a.energy - 1)]))
  }

  // ---------------------------------------------------------------------------
  // One tick of a node
  // ---------------------------------------------------------------------------

  /** One tick of node `n` for the character at index `me`: its status and the state it leaves. */
  function Tick(n: Node, me: nat, env: Env, sim: Sim): (r: (Status, Sim))
    requires me < |sim.agents| && Valid(sim)
    ensures Valid(r.1) && SameShape(sim, r.1)
    decreases n
  {
    match n
    case Selector(cs) => RunSelector(cs, 0, me, env, sim)
    case Sequence(cs) => RunSequence(cs, 0, me, env, sim)
    case UtilitySelector(cs, fallback) =>
      var sim1 := sim.(bb := Surroundings(sim.agents, me, env.rel));
      var c := Chosen(cs, sim.agents[me], sim1.bb, env);
      if c.Some? then
        assert cs[c.value] in cs;
        Tick(cs[c.value].tree, me, env, sim1)
      else Tick(fallback, me, env, sim1)
    case IsEnemyNear => IsEnemyNearStep(me, sim)
    case HasFoodInInventory => HasFoodStep(me, env, sim)
    case Flee => FleeStep(me, env, sim)
    case Attack => AttackStep(me, env, sim)
    case EatFromInventory => EatStep(me, env, sim)
    case FindFoodResource => FindFoodStep(me, sim)
    case MoveToAndGatherResource => GatherStep(me, env, sim)
    case GroupOrFollowObjective => GroupStep(me, env, sim)
    case Wander => WanderStep(me, env, sim)
    case Rest => (Success, sim)
  }

  /** The Selector loop from child `k` on: stop at the first status other than FAILURE. */
  function RunSelector(cs: seq<Node>, k: nat, me: nat, env: Env, sim: Sim): (r: (Status, Sim))
    requires k <= |cs| && me < |sim.agents| && Valid(sim)
    ensures Valid(r.1) && SameShape(sim, r.1)
    decreases cs, |cs| - k
  {
    if k == |cs| then (Failure, sim)
    else
      var c := Tick(cs[k], me, env, sim);
      if c.0 != Failure then c else RunSelector(cs, k + 1, me, env, c.1)
  }

  /** The Sequence loop from child `k` on: stop at the first status other than SUCCESS. */
  function RunSequence(cs: seq<Node>, k: nat, me: nat, env: Env, sim: Sim): (r: (Status, Sim))
    requires k <= |cs| && me < |sim.agents| && Valid(sim)
    ensures Valid(r.1) && SameShape(sim, r.1)
    decreases cs, |cs| - k
  {
    if k == |cs| then (Success, sim)
    else
      var c := Tick(cs[k], me, env, sim);
      if c.0 != Success then c else RunSequence(cs, k + 1, me, env, c.1)
  }

  /** The state in which child `j` of a composite runs, when children `k` to `j - 1` ran before it. */
  function StateBefore(cs: seq<Node>, k: nat, j: nat, me: nat, env: Env, sim: Sim): (s: Sim)
    requires k <= j <= |cs| && me < |sim.agents| && Valid(sim)
    ensures Valid(s) && SameShape(sim, s)
    decreases j - k
  {
    if j == k then sim else StateBefore(cs, k + 1, j, me, env, Tick(cs[k], me, env, sim).1)
  }

  /** What child `j` returns when children `k` to `j - 1` ran before it. */
  function ChildOutcome(cs: seq<Node>, k: nat, j: nat, me: nat, env: Env, sim: Sim): (Status, Sim)
    requires k <= j < |cs| && me < |sim.agents| && Valid(sim)
  {
    Tick(cs[j], me, env, StateBefore(cs, k, j, me, env, sim))
  }

  /** Every child from `k` up to (not including) `j` returned `st`. */
  predicate AllChildren(cs: seq<Node>, k: nat, j: nat, me: nat, env: Env, sim: Sim, st: Status)
    requires k <= j <= |cs| && me < |sim.agents| && Valid(sim)
  {
    forall i :: k <= i < j ==> ChildOutcome(cs, k, i, me, env, sim).0 == st
  }

  /** Children after the first run from the state the first one left. */
  lemma ChildrenShift(cs: seq<Node>, k: nat, me: nat, env: Env, sim: Sim)
    requires k < |cs| && me < |sim.agents| && Valid(sim)
    ensures forall j :: k + 1 <= j < |cs| ==>
      ChildOutcome(cs, k, j, me, env, sim) == ChildOutcome(cs, k + 1, j, me, env, Tick(cs[k], me, env, sim).1)
  {
    forall j | k + 1 <= j < |cs|
      ensures ChildOutcome(cs, k, j, me, env, sim) == ChildOutcome(cs, k + 1, j, me, env, Tick(cs[k], me, env, sim).1)
    {
      assert StateBefore(cs, k, j, me, env, sim) == StateBefore(cs, k + 1, j, me, env, Tick(cs[k], me, env, sim).1);
    }
  }

  /**
   * A Selector returns the outcome of its first child that does not fail, and FAILURE
   * exactly when every child failed.
   */
  lemma {:induction false} SelectorFirstNonFailure(cs: seq<Node>, k: nat, me: nat, env: Env, sim: Sim)
    requires k <= |cs| && me < |sim.agents| && Valid(sim)
    ensures RunSelector(cs, k, me, env, sim).0 == Failure <==> AllChildren(cs, k, |cs|, me, env, sim, Failure)
    ensures RunSelector(cs, k, me, env, sim).0 != Failure ==>
      exists j :: k <= j < |cs| && RunSelector(cs, k, me, env, sim) == ChildOutcome(cs, k, j, me, env, sim) &&
        AllChildren(cs, k, j, me, env, sim, Failure)
    decreases |cs| - k
  {
    if k < |cs| {
      var c := Tick(cs[k], me, env, sim);
      var next := c.1;
      assert ChildOutcome(cs, k, k, me, env, sim) == c;
      assert AllChildren(cs, k, k, me, env, sim, Failure);
      if c.0 == Failure {
        SelectorFirstNonFailure(cs, k + 1, me, env, next);
        ChildrenShift(cs, k, me, env, sim);
        forall j | k + 1 <= j <= |cs|
          ensures AllChildren(cs, k, j, me, env, sim, Failure) <==> AllChildren(cs, k + 1, j, me, env, next, Failure)
        {
          if AllChildren(cs, k + 1, j, me, env, next, Failure) {
            forall i | k < i < j
              ensures ChildOutcome(cs, k, i, me, env, sim).0 == Failure
            {
              assert ChildOutcome(cs, k + 1, i, me, env, next).0 == Failure;
            }
          }
          if AllChildren(cs, k, j, me, env, sim, Failure) {
            var k1 := k + 1;
            forall i | k1 <= i < j
              ensures ChildOutcome(cs, k1, i, me, env, next).0 == Failure
            {
              assert ChildOutcome(cs, k, i, me, env, sim).0 == Failure;
            }
          }
        }
        if RunSelector(cs, k + 1, me, env, next).0 != Failure {
          var j :| k + 1 <= j < |cs| && RunSelector(cs, k + 1, me, env, next) == ChildOutcome(cs, k + 1, j, me, env, next) &&
            AllChildren(cs, k + 1, j, me, env, next, Failure);
          assert ChildOutcome(cs, k, j, me, env, sim) == ChildOutcome(cs, k + 1, j, me, env, next);
        }
      }
    }
  }

  /**
   * A Sequence returns the outcome of its first child that does not succeed, and SUCCESS
   * exactly when every child succeeded.
   */
  lemma {:induction false} SequenceFirstNonSuccess(cs: seq<Node>, k: nat, me: nat, env: Env, sim: Sim)
    requires k <= |cs| && me < |sim.agents| && Valid(sim)
    ensures RunSequence(cs, k, me, env, sim).0 == Success <==> AllChildren(cs, k, |cs|, me, env, sim, Success)
    ensures RunSequence(cs, k, me, env, sim).0 != Success ==>
      exists j :: k <= j < |cs| && RunSequence(cs, k, me, env, sim) == ChildOutcome(cs, k, j, me, env, sim) &&
        AllChildren(cs, k, j, me, env, sim, Success)
    decreases |cs| - k
  {
    if k < |cs| {
      var c := Tick(cs[k], me, env, sim);
      var next := c.1;
      assert ChildOutcome(cs, k, k, me, env, sim) == c;
      assert AllChildren(cs, k, k, me, env, sim, Success);
      if c.0 == Success {
        SequenceFirstNonSuccess(cs, k + 1, me, env, next);
        ChildrenShift(cs, k, me, env, sim);
        forall j | k + 1 <= j <= |cs|
          ensures AllChildren(cs, k, j, me, env, sim, Success) <==> AllChildren(cs, k + 1, j, me, env, next, Success)
        {
          if AllChildren(cs, k + 1, j, me, env, next, Success) {
            forall i | k < i < j
              ensures ChildOutcome(cs, k, i, me, env, sim).0 == Success
            {
              assert ChildOutcome(cs, k + 1, i, me, env, next).0 == Success;
            }
          }
          if AllChildren(cs, k, j, me, env, sim, Success) {
            var k1 := k + 1;
            forall i | k1 <= i < j
              ensures ChildOutcome(cs, k1, i, me, env, next).0 == Success
            {
              assert ChildOutcome(cs, k, i, me, env, sim).0 == Success;
            }
          }
        }
        if RunSequence(cs, k + 1, me, env, next).0 != Success {
          var j :| k + 1 <= j < |cs| && RunSequence(cs, k + 1, me, env, next) == ChildOutcome(cs, k + 1, j, me, env, next) &&
            AllChildren(cs, k + 1, j, me, env, next, Success);
          assert ChildOutcome(cs, k, j, me, env, sim) == ChildOutcome(cs, k + 1, j, me, env, next);
        }
      }
    }
  }

  /**
   * The tree `build_character_ai_tree` builds: a utility selector over Flee, Attack, Eat,
   * Rest and Group, falling back to wandering.
   */
  const CharacterAiTree: Node :=
    UtilitySelector(
      [ Consideration(FleeUtility, Sequence([IsEnemyNear, Flee])),
        Consideration(AttackUtility, Sequence([IsEnemyNear, Attack])),
        Consideration(EatUtility, Selector([Sequence([HasFoodInInventory, EatFromInventory]),
                                            Sequence([FindFoodResource, MoveToAndGatherResource])])),
        Consideration(RestUtility, Rest),
        Consideration(GroupUtility, GroupOrFollowObjective) ],
      Wander)

  // ---------------------------------------------------------------------------
  // The tick as the source runs it: in-place updates of shared state
  // ---------------------------------------------------------------------------

  /**
   * The state one tick mutates: the characters and resource nodes (updated in place in
   * the source), the inventory map, the `commands` lists and set, and the blackboard.
   */
  class TickContext {
    var agents: seq<Agent>
    var inventory: map<AgentId, seq<Item>>
    var nodes: seq<ResourceNode>
    var toDelete: set<AgentId>
    var added: seq<LogEntry>
    var deleted: seq<(AgentId, ResourceTypeId)>
    var bb: Blackboard

    function State(): Sim
      reads this
    {
      Sim(agents, inventory, nodes, toDelete, added, deleted, bb)
    }

    constructor (sim: Sim)
      ensures State() == sim
    {
      agents := sim.agents;
      inventory := sim.inventory;
      nodes := sim.nodes;
      toDelete := sim.toDelete;
      added := sim.added;
      deleted := sim.deleted;
      bb := sim.bb;
    }

    /** `tick` of any node, dispatching on its kind. */
    method Run(n: Node, me: nat, env: Env) returns (s: Status)
      requires me < |agents| && Valid(State())
      modifies this
      ensures (s, State()) == Tick(n, me, env, old(State()))
      decreases n
    {
      match n
      case Selector(cs) =>
        var i := 0;
        while i < |cs|
          invariant 0 <= i <= |cs| && me < |agents| && Valid(State())
          invariant RunSelector(cs, 0, me, env, old(State())) == RunSelector(cs, i, me, env, State())
        {
          ghost var before := State();
          var st := Run(cs[i], me, env);
          if st != Failure {
            assert RunSelector(cs, i, me, env, before) == (st, State());
            return st;
          }
          i := i + 1;
        }
        s := Failure;
      case Sequence(cs) =>
        var i := 0;
        while i < |cs|
          invariant 0 <= i <= |cs| && me < |agents| && Valid(State())
          invariant RunSequence(cs, 0, me, env, old(State())) == RunSequence(cs, i, me, env, State())
        {
          ghost var before := State();
          var st := Run(cs[i], me, env);
          if st != Success {
            assert RunSequence(cs, i, me, env, before) == (st, State());
            return st;
          }
          i := i + 1;
        }
        s := Success;
      case UtilitySelector(cs, fallback) =>
        s := RunUtility(cs, fallback, me, env);
      case IsEnemyNear => s := IsEnemyNearLeaf(me);
      case HasFoodInInventory => s := HasFoodLeaf(me, env);
      case Flee => s := FleeLeaf(me, env);
      case Attack => s := AttackLeaf(me, env);
      case EatFromInventory => s := EatLeaf(me, env);
      case FindFoodResource => s := FindFoodLeaf(me);
      case MoveToAndGatherResource => s := GatherLeaf(me, env);
      case GroupOrFollowObjective => s := GroupLeaf(me, env);
      case Wander => s := WanderLeaf(me, env);
      case Rest => s := Success;
    }

    /**
     * `UtilitySelector.tick`: clear and refill the blackboard, score every consideration,
     * and run the winner's subtree, or the default behaviour.
     */
    method RunUtility(cs: seq<Consideration>, fallback: Node, me: nat, env: Env) returns (s: Status)
      requires me < |agents| && Valid(State())
      modifies this
      ensures (s, State()) == Tick(UtilitySelector(cs, fallback), me, env, old(State()))
      decreases UtilitySelector(cs, fallback), 0
    {
      var pick := Choose(cs, me, env);
      if pick.Some? {
        assert cs[pick.value] in cs;
        s := Run(cs[pick.value].tree, me, env);
      } else {
        s := Run(fallback, me, env);
      }
    }

    /**
     * The part of `UtilitySelector.tick` before the chosen subtree runs: the blackboard
     * gets the enemies and allies in sight, then the best-scoring consideration is picked
     * if its score exceeds the threshold.
     */
    method Choose(cs: seq<Consideration>, me: nat, env: Env) returns (pick: Option<nat>)
      requires me < |agents| && Valid(State())
      modifies this
      ensures State() == old(State()).(bb := Surroundings(old(agents), me, env.rel))
      ensures Valid(State())
      ensures pick == Chosen(cs, agents[me], bb, env)
    {
      var enemies, allies := ScanSurroundings(me, env.rel);
      bb := Blackboard(enemies, allies, |allies| - |enemies|, None, None);
      assert bb == Surroundings(agents, me, env.rel);
      var best, highest := PickConsideration(cs, me, env);
      pick := if best.Some? && highest > UTILITY_THRESHOLD then best else None;
    }

    /** The scan loop of `UtilitySelector.tick` over every other character. */
    method ScanSurroundings(me: nat, rel: (Agent, Agent) -> Relation) returns (enemies: seq<nat>, allies: seq<nat>)
      requires me < |agents|
      ensures (enemies, allies) == Partition(agents, me, rel, |agents|)
    {
      enemies, allies := [], [];
      var self := agents[me];
      for i := 0 to |agents|
        invariant (enemies, allies) == Partition(agents, me, rel, i)
      {
        var other := agents[i];
        if other.id != self.id {
          var distSq := DistSq(other.pos, self.pos);
          if distSq < VISION_RANGE * VISION_RANGE {
            var r := rel(self, other);
            if r == Friend {
              allies := allies + [i];
            } else if r == Enemy {
              enemies := enemies + [i];
            }
          }
        }
      }
    }

    /** The argmax loop of `UtilitySelector.tick`, from `highest_score = -1.0`. */
    method PickConsideration(cs: seq<Consideration>, me: nat, env: Env) returns (best: Option<nat>, highest: real)
      requires me < |agents|
      ensures (best, highest) == BestScore(Scores(cs, agents[me], bb, env), |cs|)
    {
      best, highest := None, -1.0;
      for i := 0 to |cs|
        invariant (best, highest) == BestScore(Scores(cs, agents[me], bb, env), i)
      {
        var score := Score(cs[i].kind, agents[me], bb, env);
        if score > highest {
          highest := score;
          best := Some(i);
        }
      }
    }

    /** The scan of `IsEnemyNear` over the enemies in sight: the index of the first nearest one. */
    method NearestEnemy(me: nat) returns (best: nat)
      requires me < |agents| && Valid(State()) && bb.enemies != []
      ensures ScanNearest(bb.enemies, AnyEnemy, EnemyDistance(agents, agents[me].pos), |bb.enemies|) == Some(best)
    {
      best := NearestOf(bb.enemies, agents, agents[me].pos);
    }

    method IsEnemyNearLeaf(me: nat) returns (s: Status)
      requires me < |agents| && Valid(State())
      modifies this
      ensures (s, State()) == IsEnemyNearStep(me, old(State()))
    {
      var es := bb.enemies;
      if es == [] {
        return Failure;
      }
      var best := NearestEnemy(me);
      bb := bb.(targetEnemy := Some(es[best]));
      s := Success;
    }

    method HasFoodLeaf(me: nat, env: Env) returns (s: Status)
      requires me < |agents|
      ensures (s, State()) == HasFoodStep(me, env, State())
    {
      var items := ItemsOf(inventory, agents[me].id);
      for i := 0 to |items|
        invariant forall j :: 0 <= j < i ==> items[j].resourceType !in env.foodTypes
      {
        if items[i].resourceType in env.foodTypes {
          return Success;
        }
      }
      s := Failure;
    }

    method FleeLeaf(me: nat, env: Env) returns (s: Status)
      requires me < |agents| && Valid(State())
      modifies this
      ensures (s, State()) == FleeStep(me, env, old(State()))
    {
      if bb.targetEnemy.None? {
        return Failure;
      }
      var a := agents[me];
      var target := agents[bb.targetEnemy.value].pos;
      var p := MoveAway(a.pos, target, env.width, env.height, env.dist(a.pos, target), env.fleeJitter, env.fleeJitterDistance);
      agents := agents[me := a.(pos := p)];
      s := Running;
    }

    method AttackLeaf(me: nat, env: Env) returns (s: Status)
      requires me < |agents| && Valid(State())
      modifies this
      ensures (s, State()) == AttackStep(me, env, old(State()))
    {
      if bb.targetEnemy.None? || agents[bb.targetEnemy.value].id in toDelete {
        return Failure;
      }
      var t := bb.targetEnemy.value;
      var a := agents[me];
      var victim := agents[t];
      var step := MoveTowards(a.pos, victim.pos, env.width, env.height, ATTACK_RANGE, env.dist(a.pos, victim.pos));
      if step.moved {
        agents := agents[me := a.(pos := step.pos, energy := a.energy - 1)];
        return Running;
      }
      var damage := a.species.baseStrength;
      agents := agents[me := agents[me].(energy := agents[me].energy - 5)];
      agents := agents[t := agents[t].(health := agents[t].health - damage)];
      added := added + [AttackLog(a.id, victim.id, damage)];
      if agents[t].health <= 0 {
        toDelete := toDelete + {victim.id};
        added := added + [DeathLog(victim.id, a.id)];
      }
      s := Success;
    }

    method EatLeaf(me: nat, env: Env) returns (s: Status)
      requires me < |agents| && Valid(State())
      modifies this
      ensures (s, State()) == EatStep(me, env, old(State()))
    {
      var a := agents[me];
      var items := ItemsOf(inventory, a.id);
      var k := 0;
      while k < |items| && !(items[k].resourceType in env.foodTypes && items[k].quantity > 0)
        invariant 0 <= k <= |items|
        invariant forall j :: 0 <= j < k ==> !(items[j].resourceType in env.foodTypes && items[j].quantity > 0)
      {
        k := k + 1;
      }
      if k == |items| {
        return Failure;
      }
      var food := FirstFood(items, env.foodTypes);
      assert food == Some(k) by {
        assert food.Some?;
        assert !(food.value < k) && !(k < food.value);
      }
      var item := items[k];
      if item.quantity - 1 <= 0 {
        inventory := inventory[a.id := items[..k] + items[k + 1..]];
        deleted := deleted + [(a.id, item.resourceType)];
      } else {
        inventory := inventory[a.id := items[k := item.(quantity := item.quantity - 1)]];
      }
      agents := agents[me := a.(hunger := if a.hunger - 50.0 >= 0.0 then a.hunger - 50.0 else 0.0)];
      s := Success;
    }

    method FindFoodLeaf(me: nat) returns (s: Status)
      requires me < |agents| && Valid(State())
      modifies this
      ensures (s, State()) == FindFoodStep(me, old(State()))
    {
      var target := FindNearestResourceNode(agents[me].pos, nodes, Some("COMIDA"));
      if target.None? {
        return Failure;
      }
      bb := bb.(targetNode := target);
      s := Success;
    }

    method GatherLeaf(me: nat, env: Env) returns (s: Status)
      requires me < |agents| && Valid(State())
      modifies this
      ensures (s, State()) == GatherStep(me, env, old(State()))
    {
      if bb.targetNode.None? || nodes[bb.targetNode.value].depleted {
        return Failure;
      }
      var t := bb.targetNode.value;
      var node := nodes[t];
      var a := agents[me];
      var step := MoveTowards(a.pos, node.pos, env.width, env.height, GATHER_RANGE, env.dist(a.pos, node.pos));
      if step.moved {
        agents := agents[me := a.(pos := step.pos, energy := a.energy - 1)];
        return Running;
      }
      var items := ItemsOf(inventory, a.id);
      var entry := FindItem(items, node.resourceType);
      if entry.Some? {
        var k := entry.value;
        inventory := inventory[a.id := items[k := items[k].(quantity := items[k].quantity + 1)]];
      } else {
        inventory := inventory[a.id := items + [Item(node.resourceType, 1)]];
        added := added + [NewInventoryItem(a.id, node.resourceType)];
      }
      var gathered := node.(quantity := node.quantity - 1);
      if gathered.quantity <= 0 {
        gathered := gathered.(depleted := true);
      }
      nodes := nodes[t := gathered];
      agents := agents[me := a.(energy := a.energy - 3)];
      s := Success;
    }

    method GroupLeaf(me: nat, env: Env) returns (s: Status)
      requires me < |agents| && Valid(State())
      modifies this
      ensures (s, State()) == GroupStep(me, env, old(State()))
    {
      var positions := AllyPositions(agents, bb.allies);
      var a := agents[me].(energy := agents[me].energy - 1);
      if a.clan.Some? && a.clan.value in env.clanGoals {
        var goal := env.clanGoals[a.clan.value];
        var step := MoveTowards(a.pos, goal, env.width, env.height, GATHER_RANGE, env.dist(a.pos, goal));
        agents := agents[me := a.(pos := step.pos)];
        return Running;
      }
      var center := GroupCenter(a.pos, positions);
      if center.Some? {
        var step := MoveTowards(a.pos, center.value, env.width, env.height, GROUPING_DISTANCE, env.dist(a.pos, center.value));
        agents := agents[me := a.(pos := step.pos)];
        return Running;
      }
      agents := agents[me := a];
      s := Failure;
    }

    method WanderLeaf(me: nat, env: Env) returns (s: Status)
      requires me < |agents| && Valid(State())
      modifies this
      ensures (s, State()) == WanderStep(me, env, old(State()))
    {
      var a := agents[me].(energy := agents[me].energy - 1);
      agents := agents[me := a.(pos := Spatial.Wander(a.pos, env.width, env.height, env.wanderDx, env.wanderDy))];
      s := Success;
    }
  }
}
