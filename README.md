# Orbis simulation core in Dafny

This project models the per-tick simulation of the Orbis life simulator. A world holds
characters of several species, organised in clans. The clans own rectangular
territories on a 1000 x 1000 map that is dotted with resource nodes.

Each tick does four things:

- it decides one action for every alive character by running a behaviour tree;
- it materialises births;
- it applies a passive pass to every character: hunger, starvation, death by hunger and
  energy regeneration;
- it tracks clan missions, counts the population per species and advances the tick
  counters.

Creating a world seeds it. Clans get non-overlapping territories, themed resource nodes
are placed inside each territory, generic nodes are placed outside all of them, and
every character gets a lifespan in ticks.

The model has one module per concern:

| file | module | models |
|---|---|---|
| `domain.dfy` | `Wrappers`, `Domain` | `Option`; characters, species, positions, resource nodes, territories, inventory items; clamping to the map |
| `constants.dfy` | `Constants` | the balancing constants of `app/simulation/constants.py` |
| `relationships.dfy` | `Relationships` | `get_effective_relationship` and `create_relationship_update_operation` |
| `spatial.dfy` | `Spatial` | the nearest-entity searches, territory containment, movement toward and away, wandering, the group centre |
| `events.dfy` | `Events` | `create_event`: category chain, actor and target |
| `missions.dfy` | `Missions` | `check_and_update_mission_progress` |
| `behavior_tree.dfy` | `BehaviorTree` | every node kind of `behavior_tree.py`: a functional `Tick` specification, and a class `TickContext` whose methods update its fields in place and are proved equal to `Tick` |
| `engine.dfy` | `Engine` | `process_tick` and `process_character_chunk`: chunking, the decide phase, births, the passive pass, population, tick counters (class `World`) |
| `seeding.dfy` | `Seeding` | the seeding part of `create_custom_world`: `rects_overlap`, territory placement, themed and generic resource nodes, lifespan |

## How things outside the core are modelled

- **Database reads** are inputs:
  - the character list of a tick;
  - the aggregate total and the territory owner that the mission tracker reads (`Missions.Holdings`);
  - the resource types;
  - the species names of the characters alive after the tick.
- **Random draws** are parameters. Integers from a draw function go through `RandInt`,
  which clamps a raw value into `[lo, hi]`. Reals go through `Uniform`, which maps a draw
  in `[0, 1]` onto `[lo, hi]`.
- **Euclidean distance.** `math.hypot` is an input wherever the source normalises a
  direction. Comparisons by squared distance are modelled exactly.
- **The decision of one character** (one behaviour-tree tick inside
  `process_character_chunk`) is a function parameter `decide` in `Engine`. Each call
  returns:
  - the events and updates appended before any exception;
  - whether an exception was raised.

## Model

| member | source | states |
|---|---|---|
| Domain.Clamp | app/simulation/simulation_utils.py:176-179 | `max(0, min(hi, v))` always lies in `[0, hi]` and leaves a value already in range unchanged |
| Domain.ClampToMap | app/routes/worlds.py:529-532 | a clamped position is on the map, and a position already on the map is unchanged |
| Relationships.SortedPair | app/simulation/simulation_utils.py:28 | the sorted key holds exactly the two ids, smaller first |
| Relationships.Resolve | app/simulation/simulation_utils.py:13-69 | the first-match-wins chain, one rule at a time: same id gives FRIEND; a personal score above 50 or below -50 overrides everything after it; when the zombie species id is set and not 0, both zombies gives FRIEND and exactly one gives ENEMY; same clan gives FRIEND, WAR gives ENEMY, ALLIANCE gives FRIEND; then the species table, else INDIFFERENT |
| Relationships.ZeroZombieIdIsNone | app/simulation/simulation_utils.py:36-47 | a zombie species id of 0, falsy in `if zombie_species_id:`, resolves exactly as no zombie species |
| Relationships.ResolveSymmetric | app/simulation/simulation_utils.py:13-69 | the resolver is symmetric: `rel(a, b) == rel(b, a)` for all characters and tables |
| Relationships.RelationshipUpsert | app/simulation/simulation_utils.py:507-538 | no operation for a character and itself; otherwise an upsert keyed by the sorted pair that adds the score change |
| Relationships.RelationshipUpsertSymmetric | app/simulation/simulation_utils.py:507-538 | the upsert does not depend on the order of the two ids, so it addresses the record the resolver reads |
| Spatial.ScanNearest | app/simulation/simulation_utils.py:82-98 | the left-to-right scan with a strict `<` update returns None iff nothing is eligible; otherwise an eligible index of least key, no earlier eligible index tying it |
| Spatial.FindNearestResourceNode | app/simulation/simulation_utils.py:72-98 | None iff no node matches the category filter (an empty or missing category matches all); otherwise a matching node of minimal squared distance, the first on ties |
| Spatial.FindNearestUndepletedNode | app/routes/worlds.py:476-501 | never a depleted node or one of another category; None iff no node is eligible; otherwise of minimal squared distance among eligible nodes |
| Spatial.FindNearestCharacterByRelationship | app/simulation/simulation_utils.py:117-148 | never the origin; a result has the requested relationship and squared distance strictly below VISION_RANGE squared; None iff no character qualifies |
| Spatial.TerritoryAt | app/simulation/simulation_utils.py:101-114 | None iff no territory contains the point (borders included); otherwise the first territory that does |
| Spatial.PointInAnyTerritory | app/routes/worlds.py:232-236 | true iff some territory contains the point, borders included |
| Spatial.TerritoryLookupsAgree | app/routes/worlds.py:232-236 | the two containment helpers agree: a point is in some territory iff a territory is found at it |
| Spatial.StepLength | app/simulation/simulation_utils.py:167-168 | the step is `min(MOVE_SPEED, distance - stop)`: never more than either |
| Spatial.MoveTowards | app/routes/worlds.py:504-533 | no move, and the same position, iff `distance <= stop` or the distance is 0; otherwise a step of `StepLength` toward the target, clamped onto the map |
| Spatial.MoveTowardsNoOvershoot | app/simulation/simulation_utils.py:151-181 | before clamping, a move covers exactly the step, which is positive and at most MOVE_SPEED, and leaves the mover `distance - step >= stop` from the target |
| Spatial.MoveAway | app/routes/worlds.py:536-564 | from a position on the map the result is on the map; with a non-zero distance it is a MOVE_SPEED step directly away from the target, clamped |
| Spatial.Wander | app/routes/worlds.py:567-581 | the wandering position is always on the map |
| Spatial.WanderStaysNear | app/routes/worlds.py:567-581 | from a position on the map, with offsets within `max(0.1, MOVE_SPEED / 2)`, clamping never moves a character further than the offset on either axis |
| Spatial.GroupCenter | app/simulation/simulation_utils.py:184-206 | None iff the character has no allies in range |
| Spatial.GroupCenterInBox | app/simulation/simulation_utils.py:184-206 | the centre lies in every axis-aligned box containing the character and all its allies |
| Events.EventCategory | app/simulation/simulation_utils.py:469-482 | COMBAT iff the type is COMBAT_ACTION or CHARACTER_DEATH; RESOURCE iff CHARACTER_GATHER or CHARACTER_EAT; LIFE iff CHARACTER_BIRTH; MOVEMENT iff none of those and the type contains MOVE or FLEE; BUILD iff CHARACTER_BUILD_HOUSE; AI iff AI_DECISION |
| Events.MoveEventsAreMovement | app/simulation/simulation_utils.py:469-482 | every `CHARACTER_MOVE...` event, which the passive pass treats as movement, is categorised MOVEMENT |
| Events.CreateEvent | app/simulation/simulation_utils.py:390-504 | the document keeps type and payload; its category follows the type; the actor is the payload's character, else its attacker, else its parent_a; the target is its defender, else its target, else its parent_b |
| Events.FirstPresent | app/simulation/simulation_utils.py:412-415 | the first of three optional ids that is present: the first if present, else the second if present, else the third |
| Missions.EvaluateObjective | app/simulation/simulation_utils.py:319-373 | a complete objective is unchanged; an incomplete GATHER objective records the clan total as progress and completes iff a target quantity exists and the total reaches it; an incomplete CONQUER objective completes iff the clan owns the territory; targets never change |
| Missions.UpdatedMission | app/simulation/simulation_utils.py:317-387 | every objective is evaluated in place; the mission becomes CONCLUÍDA iff every objective is complete after the pass, and otherwise keeps its status |
| Missions.UpdateMission | app/simulation/simulation_utils.py:317-387 | the loop with the `all_objectives_complete` flag computes `UpdatedMission` |
| Missions.TrackedMissions | app/simulation/simulation_utils.py:302-312 | exactly the ATIVA missions of the world are updated; all others are untouched |
| Missions.TrackMissions | app/simulation/simulation_utils.py:302-387 | the outer loop over the missions computes `TrackedMissions` |
| Missions.TrackedStatus | app/simulation/simulation_utils.py:375-383 | after the pass a selected mission is CONCLUÍDA iff all its objectives are complete, and otherwise still ATIVA; other missions are unchanged |
| Missions.CompleteObjectivesStay | app/simulation/simulation_utils.py:319-321 | an objective complete before the pass is skipped |
| Missions.EvaluateIdempotent | app/simulation/simulation_utils.py:319-373 | evaluating an objective twice against the same holdings equals evaluating it once |
| Missions.UpdateIdempotent | app/simulation/simulation_utils.py:317-387 | tracking a mission twice against the same holdings equals tracking it once |
| Missions.EmptyMissionCompletes | app/simulation/simulation_utils.py:312-383 | a mission with no objectives completes on its first pass |
| Missions.GatherMonotone | app/simulation/simulation_utils.py:339-351 | a gather objective complete at some total is complete at any larger total |
| BehaviorTree.FindItem | app/simulation/behavior_tree.py:215-219 | None iff no inventory entry has the resource type; otherwise the first entry that does |
| BehaviorTree.FirstFood | app/simulation/behavior_tree.py:180-184 | None iff no entry is food with units left; otherwise the first such entry |
| BehaviorTree.TakeUnit | app/simulation/behavior_tree.py:180-188 | one unit taken from an entry, which is removed when it held the last unit |
| BehaviorTree.TakeUnitConsumesOne | app/simulation/behavior_tree.py:180-186 | eating lowers the food held by exactly one unit |
| BehaviorTree.AddUnit | app/simulation/behavior_tree.py:215-230 | the gathered type's holding rises by exactly one (a new entry at 1 when absent); every other type's holding is unchanged |
| BehaviorTree.Partition | app/simulation/behavior_tree.py:75-95 | only other characters strictly inside VISION_RANGE are sorted: FRIEND into the allies, ENEMY into the enemies, each in list order |
| BehaviorTree.Surroundings | app/simulation/behavior_tree.py:75-95 | the character itself is in neither list, nobody is in both, the targets are cleared, and `numerical_advantage = |allies| - |enemies|` |
| BehaviorTree.Score | app/simulation/behavior_tree.py:283-359 | Flee scores 0 with no enemies; Attack scores 0 with no enemies or energy below 10 and is never negative; Rest scores 0 with enemies in range; Eat in a safe place is `fome + greed * 0.15` |
| BehaviorTree.Caution | app/simulation/behavior_tree.py:339-341 | the caution factor lies in `[0, 1]` for a `cautela` of at most 100, and is 1 in a safe place |
| BehaviorTree.Scores | app/simulation/behavior_tree.py:75-95 | one score per consideration, in registration order |
| BehaviorTree.BestScore | app/simulation/behavior_tree.py:97-105 | the argmax from -1.0 with a strict `>`: the earliest of the highest scores, never one at or below -1 |
| BehaviorTree.Chosen | app/simulation/behavior_tree.py:97-111 | the earliest consideration with the strictly highest score, and only if that score exceeds 10.0; None, so the default behaviour runs, iff no score exceeds 10.0 |
| BehaviorTree.NoEnemiesNoFight | app/simulation/behavior_tree.py:285-298 | with no enemies in range, neither fleeing nor attacking is ever chosen |
| BehaviorTree.EnemiesNoRest | app/simulation/behavior_tree.py:295-359 | with an enemy in range resting is never chosen, and attacking is never chosen below 10 energy |
| BehaviorTree.IsEnemyNearStep | app/simulation/behavior_tree.py:114-123 | SUCCESS iff some enemy is in range, targeting a nearest enemy, and no enemy earlier in the list is as near (the first on ties, as `min(..., key=...)` picks); otherwise FAILURE and nothing changes |
| BehaviorTree.HasFoodStep | app/simulation/behavior_tree.py:126-132 | SUCCESS iff some inventory entry is of a food type; nothing changes |
| BehaviorTree.FleeStep | app/simulation/behavior_tree.py:135-141 | FAILURE iff there is no target enemy; otherwise RUNNING, and only the fleeing character's position changes, to the clamped MOVE_SPEED step away from the target, staying on the map |
| BehaviorTree.AttackStep | app/simulation/behavior_tree.py:144-175 | FAILURE iff there is no target or it is already marked for deletion; otherwise RUNNING iff the target is further than ATTACK_RANGE, with a step toward it and 1 energy; within ATTACK_RANGE SUCCESS: target health minus the attacker's strength, 5 energy, an attack log entry, and the target marked for deletion plus a death log entry iff its health drops to at most 0; nothing else changes |
| BehaviorTree.EatStep | app/simulation/behavior_tree.py:178-189 | SUCCESS iff some food entry has units left; then one unit of the first such entry is taken (the entry is removed and queued for deletion when it empties), food held drops by one, hunger becomes `max(0, fome - 50)`, and nothing else changes; on FAILURE nothing changes |
| BehaviorTree.FindFoodStep | app/simulation/behavior_tree.py:192-200 | FAILURE iff no node is of category COMIDA; otherwise the nearest one becomes the target |
| BehaviorTree.GatherStep | app/simulation/behavior_tree.py:203-237 | FAILURE iff there is no target node or it is depleted; otherwise RUNNING iff the node is further than GATHER_RANGE, with a step toward it and 1 energy; within GATHER_RANGE SUCCESS: one unit moves from the node into the inventory, a new inventory entry is logged iff the character had none of that type, the node becomes depleted iff its quantity drops to at most 0, the step costs 3 energy, and blackboard, deletions and other inventories are unchanged |
| BehaviorTree.AllyPositions | app/simulation/behavior_tree.py:253-255 | the positions of the allies in range, in blackboard order |
| BehaviorTree.GroupTarget | app/simulation/behavior_tree.py:243-265 | the clan goal when the clan has one; otherwise the allies' centre; None iff there is neither |
| BehaviorTree.GroupStep | app/simulation/behavior_tree.py:240-265 | never SUCCESS; FAILURE iff there is no goal and no ally; always 1 energy; only the character's position and energy change; on RUNNING the position is the step toward the clan goal (stopping at GATHER_RANGE) or else the group centre (stopping at GROUPING_DISTANCE) |
| BehaviorTree.WanderStep | app/simulation/behavior_tree.py:268-272 | SUCCESS, 1 energy, and the clamped wandering position: on the map and, from a position on the map with offsets within `max(0.1, MOVE_SPEED / 2)`, at most that far on either axis; nothing else changes |
| BehaviorTree.Tick | app/simulation/behavior_tree.py:24-387 | ticking any node keeps the blackboard indices valid and never changes the number of characters or resource nodes |
| BehaviorTree.RunSelector | app/simulation/behavior_tree.py:39-44 | the Selector loop keeps the state valid and its shape unchanged |
| BehaviorTree.RunSequence | app/simulation/behavior_tree.py:51-56 | the Sequence loop keeps the state valid and its shape unchanged |
| BehaviorTree.SelectorFirstNonFailure | app/simulation/behavior_tree.py:39-44 | a Selector returns FAILURE iff every child failed; otherwise the outcome of the first child that did not fail |
| BehaviorTree.SequenceFirstNonSuccess | app/simulation/behavior_tree.py:51-56 | a Sequence returns SUCCESS iff every child succeeded; otherwise the outcome of the first child that did not succeed |
| BehaviorTree.TickContext.Run | app/simulation/behavior_tree.py:24-56 | ticking a node in place leaves the status and state that `Tick` specifies |
| BehaviorTree.TickContext.RunUtility | app/simulation/behavior_tree.py:74-111 | the utility selector in place: clear and refill the blackboard, score, and run the winner or the default, as `Tick` specifies |
| BehaviorTree.TickContext.Choose | app/simulation/behavior_tree.py:75-106 | the blackboard is refilled with the characters in sight and nothing else changes; the pick is `Chosen` over the new blackboard |
| BehaviorTree.TickContext.ScanSurroundings | app/simulation/behavior_tree.py:75-95 | the scan loop computes `Partition` |
| BehaviorTree.TickContext.PickConsideration | app/simulation/behavior_tree.py:97-105 | the argmax loop computes `BestScore` |
| BehaviorTree.NearestOf | app/simulation/behavior_tree.py:116-121 | the scan over a list of enemy indices returns the index `ScanNearest` specifies: a nearest enemy, the first on ties |
| BehaviorTree.TickContext.NearestEnemy | app/simulation/behavior_tree.py:116-121 | the scan over the enemies in sight returns the index `ScanNearest` specifies: a nearest enemy, the first on ties |
| BehaviorTree.TickContext.IsEnemyNearLeaf | app/simulation/behavior_tree.py:114-123 | in place, as `IsEnemyNearStep` |
| BehaviorTree.TickContext.HasFoodLeaf | app/simulation/behavior_tree.py:126-132 | in place, as `HasFoodStep` |
| BehaviorTree.TickContext.FleeLeaf | app/simulation/behavior_tree.py:135-141 | in place, as `FleeStep` |
| BehaviorTree.TickContext.AttackLeaf | app/simulation/behavior_tree.py:144-175 | in place, as `AttackStep` |
| BehaviorTree.TickContext.EatLeaf | app/simulation/behavior_tree.py:178-189 | in place, as `EatStep` |
| BehaviorTree.TickContext.FindFoodLeaf | app/simulation/behavior_tree.py:192-200 | in place, as `FindFoodStep` |
| BehaviorTree.TickContext.GatherLeaf | app/simulation/behavior_tree.py:203-237 | in place, as `GatherStep` |
| BehaviorTree.TickContext.GroupLeaf | app/simulation/behavior_tree.py:240-265 | in place, as `GroupStep` |
| BehaviorTree.TickContext.WanderLeaf | app/simulation/behavior_tree.py:268-272 | in place, as `WanderStep` |
| Engine.NumWorkers | app/simulation/engine.py:139 | at least one worker; `cpu_count - 1` when there are at least 2 CPUs; 3 when the count is unknown or 0 |
| Engine.CeilDiv | app/simulation/engine.py:140 | the least `q` with `q * d >= n`, and at least 1 when `n >= 1` |
| Engine.ChunksPartition | app/simulation/engine.py:141-144 | the chunks concatenate back to exactly the list; each holds 1 to `chunk_size` characters |
| Engine.ChunkCount | app/simulation/engine.py:141-144 | there are `ceil(n / chunk_size)` chunks |
| Engine.AtMostWorkers | app/simulation/engine.py:139-144 | with `chunk_size = ceil(n / workers)` there are at most `workers` chunks |
| Engine.MakeChunks | app/simulation/engine.py:141-144 | the slicing comprehension computes the chunks of `ChunksPartition` |
| Engine.ChunkCharacters | app/simulation/engine.py:139-144 | the chunks of a non-empty list are non-empty, between 1 and `num_workers` in number, and concatenate back to the list |
| Engine.ProcessCharacterChunk | app/simulation/engine.py:22-60 | the chunk's buffers hold every character's output in order; a character whose tick raised still contributes what it appended, and the rest of the chunk still runs |
| Engine.ChunkOutputAppend | app/simulation/engine.py:49-58 | the output of a concatenation of characters is the concatenation of their outputs |
| Engine.ChunkingInvisible | app/simulation/engine.py:139-159 | collecting the chunks' outputs in chunk order equals processing the whole list as one chunk |
| Engine.DecideChunks | app/simulation/engine.py:149-159 | the decide phase collects every chunk's buffers in chunk order |
| Engine.BirthParents | app/simulation/engine.py:161-176 | a newborn is materialised for a CHARACTER_BIRTH event iff both parents are alive; one per such event, in event order |
| Engine.MaterializeBirths | app/simulation/engine.py:161-176 | the loop over the decided events computes `BirthParents`: one pair per viable birth event, in event order |
| Engine.ViableBirths | app/simulation/engine.py:161-176 | the indices of the CHARACTER_BIRTH events whose two parents are alive, increasing, and every such index |
| Engine.BirthsOnePerEvent | app/simulation/engine.py:161-176 | the k-th newborn's parents are those of the k-th viable birth event, and there are exactly as many newborns as viable birth events |
| Engine.HungerStuckAsWritten | app/simulation/engine.py:179-181 | as written, `int(min(100, fome + 0.1))` leaves any integer hunger below 100 unchanged |
| Engine.NeverHungryAsWritten | app/simulation/engine.py:179-181 | as written, a character starting at hunger 0 is still at 0 after any number of ticks |
| Engine.NextHunger | app/simulation/engine.py:179-181 | the corrected new hunger is never above 100, and is `fome + 0.1` when that is at most 100 |
| Engine.HungerRises | app/simulation/engine.py:179-181 | with the correction, hunger after `t` ticks is `min(100, fome + 0.1 t)` |
| Engine.StarvesAfterThousandTicks | app/simulation/engine.py:179-191 | with the correction, a character starting at 0 reaches 100 after exactly 1000 ticks and not before |
| Engine.DeathEvent | app/simulation/engine.py:192-201 | the starvation death is a COMBAT event with the character id and reason "Fome" and no acting character |
| Engine.DeathsDoNotCount | app/simulation/engine.py:207-219 | adding death events never changes whether a character rested or moved |
| Engine.PassiveOpsMeaning | app/simulation/engine.py:178-226 | for one character: hunger is set to at most 100; health drops by STARVATION_DAMAGE iff the new hunger is at least 100; a death event and the MORTO update come iff the damaged health is at most 0; energy rises by ENERGY_REGEN_RATE iff the character neither rested nor moved; every update addresses that character |
| Engine.Deaths | app/simulation/engine.py:192-205 | the death events are at most one per character |
| Engine.PassiveEvents | app/simulation/engine.py:178-226 | the passive pass appends exactly the starvation deaths, in character order, to the events |
| Engine.DeathOncePerCharacter | app/simulation/engine.py:192-205 | with distinct ids, the pass emits at most one death event per character, and exactly one iff that character dies |
| Engine.DeathsOfDyingIds | app/simulation/engine.py:192-205 | the death events are, in order, one per dying character, each naming that character |
| Engine.DyingOnce | app/simulation/engine.py:185-205 | with distinct ids, a character's id is among the dying at most once, and there iff it starves to death |
| Engine.RegenIffIdle | app/simulation/engine.py:207-226 | a character gets the energy update iff it has no rest event and no move event this tick |
| Engine.PassiveStep | app/simulation/engine.py:178-226 | one iteration of the passive loop computes `PassiveOps` |
| Engine.ResolvePassive | app/simulation/engine.py:178-226 | the passive loop computes `PassivePass` over every alive character |
| Engine.GroupOf | app/simulation/engine.py:256-261 | the index of a species' group, None iff there is none |
| Engine.AddMember | app/simulation/engine.py:256-261 | counting one more member keeps the species names distinct |
| Engine.GroupBySpecies | app/simulation/engine.py:256-261 | the species groups have distinct names |
| Engine.GroupCounts | app/simulation/engine.py:256-261 | every group counts exactly the alive characters of its species |
| Engine.GroupsCover | app/simulation/engine.py:256-261 | every species of an alive character has a group |
| Engine.PopulationTotal | app/simulation/engine.py:263-265 | the per-species counts sum to the number of alive characters |
| Engine.TotalPopulation | app/simulation/engine.py:263-265 | the summing loop computes the sum of the per-species counts |
| Engine.TickEvents | app/simulation/engine.py:149-226 | a tick's events are the decided events followed by the starvation deaths |
| Engine.Resolve | app/simulation/engine.py:139-226 | chunking, deciding, births and the passive pass compute `ResolveTick` |
| Engine.World.ProcessTick | app/simulation/engine.py:63-278 | both counters advance by one; with no alive character nothing else changes and nothing is written; otherwise the output is `ResolveTick`, the population is counted over the characters alive afterwards, and the missions are tracked unless persistence failed |
| Engine.World.AdvanceSimulationTick | app/routes/worlds.py:436-461 | the route runs `process_tick` and increments `current_tick` again, so it advances by two per request while the analytics counter advances by one; population, per-species counts, missions and the output are those `process_tick` leaves |
| Seeding.RandInt | app/routes/worlds.py:167-168 | a drawn integer lies in `[lo, hi]`, and a raw value in range is returned unchanged |
| Seeding.Uniform | app/routes/worlds.py:215-220 | a drawn real lies in `[lo, hi]` |
| Seeding.OverlapIffSharedInterior | app/routes/worlds.py:156-162 | two proper rectangles overlap iff they share an interior point, so rectangles that only share an edge do not overlap |
| Seeding.Candidate | app/routes/worlds.py:167-174 | a candidate is a 200 x 200 rectangle owned by the clan, lying within `[50, 950]` on each axis |
| Seeding.FirstFit | app/routes/worlds.py:166-185 | a placed territory has the clan as owner and is a proper rectangle |
| Seeding.FoundFits | app/routes/worlds.py:175 | a placed candidate overlaps no territory placed before it |
| Seeding.NoFitMeansAllCollide | app/routes/worlds.py:166-187 | a clan is skipped only when all 100 candidates overlapped a placed territory |
| Seeding.AppendFitting | app/routes/worlds.py:175-183 | appending a fitting candidate keeps the territories pairwise non-overlapping |
| Seeding.OwnedAppend | app/routes/worlds.py:175-183 | appending clan `n - 1`'s territory keeps every territory owned by the clan at its id's position, with ids strictly increasing |
| Seeding.LastClanPlaced | app/routes/worlds.py:165-183 | a clan whose attempts found a fitting candidate owns a territory once its turn is over |
| Seeding.UnplacedLastClanCollided | app/routes/worlds.py:165-187 | a clan that owns no territory once its turn is over had all 100 candidates overlap a territory placed before it |
| Seeding.UnplacedAfterPlacing | app/routes/worlds.py:175-183 | when a clan is placed, every earlier clan still without a territory had had all its candidates collide |
| Seeding.UnplacedAfterCollisions | app/routes/worlds.py:165-187 | when no candidate of a clan fits, that clan joins the clans whose candidates all collided |
| Seeding.TryPlace | app/routes/worlds.py:166-185 | the attempts loop stops at the first fitting candidate, which overlaps none placed so far |
| Seeding.PlaceClan | app/routes/worlds.py:165-187 | one iteration of the placement loop: `placed` iff clan `c`'s territory, with id `c`, was appended, else nothing changes; after clan `c` the territories are those `PlaceAll` specifies, proper, pairwise non-overlapping, owned by the clan at their id's position with increasing ids, and every clan without one had all its candidates collide |
| Seeding.PlaceTerritories | app/routes/worlds.py:164-187 | the clan loop's placement alone, as `SeedClans` performs it: it computes `PlaceAll`; the territories are pairwise non-overlapping; each is owned by the clan at its id's position and ids strictly increase, so no clan gets two; a clan left without a territory had all 100 candidates overlap a territory placed before it |
| Seeding.RStripS | app/routes/worlds.py:199 | `rstrip("s")`: the result is a prefix of the name, followed in it only by `s`, and does not end in `s` |
| Seeding.ThemedPlan | app/routes/worlds.py:189-200 | the resource plan of a species name, else of the name without trailing `s`, else the default plan |
| Seeding.PluralFallback | app/routes/worlds.py:197-200 | "elfos" and "orcs" fall back to their singular plans, and "goblin", which has no plan, gets the default one |
| Seeding.FindType | app/routes/worlds.py:203-205 | the first resource type with the name, None iff there is none |
| Seeding.ThemedOf | app/routes/worlds.py:202-225 | the themed nodes of one territory: as many as the plan asks for types that exist, each inside the territory, fresh, with 20 to 50 units and an existing type |
| Seeding.ClanThemedNodes | app/routes/worlds.py:202-225 | the themed-node loop fed with the draws of the territory's clan yields exactly `ThemedOf` |
| Seeding.SeededNodesAtHome | app/routes/worlds.py:164-225 | every node seeded for a sequence of territories lies inside the territory it was made for, is fresh and has an existing type |
| Seeding.SeedClan | app/routes/worlds.py:165-225 | one iteration of the clan loop: the clan is placed as `PlaceClan` does, an unplaced clan adds no node (`continue`), and a placed clan appends the themed nodes of its species name's plan inside its new territory |
| Seeding.SeedClans | app/routes/worlds.py:164-225 | the clan loop: territories as `PlaceAll` specifies, non-overlapping and owned by position; the nodes are `SeededNodes`, each inside the territory of the clan that owns it, so a clan left without a territory owns no node |
| Seeding.ThemedNodes | app/routes/worlds.py:202-225 | as many nodes as the plan asks for types that exist; node j is made from draw j with the j-th planned type, in plan order; each inside its territory, fresh, with 20 to 50 units and an existing type |
| Seeding.PlannedTypes | app/routes/worlds.py:202-209 | the node types in plan order, `count` of each entry whose type exists; as many as the plan's count, each an existing type |
| Seeding.UnknownEntriesSkipped | app/routes/worlds.py:203-207 | a plan whose names have no resource type yields no node |
| Seeding.TwoEntryPlanOrder | app/routes/worlds.py:202-209 | a two-entry plan yields the first entry's count of its type, then the second's |
| Seeding.ThemedNode | app/routes/worlds.py:209-223 | a themed node lies in its territory, is not depleted, holds 20 to 50 units and has the id and category of its type |
| Seeding.FirstOutside | app/routes/worlds.py:243-261 | a kept point is on the map and outside every territory |
| Seeding.NoPointOutsideMeansAllInside | app/routes/worlds.py:243-247 | a generic node is skipped only when all 100 of its points fell inside some territory |
| Seeding.MapPoint | app/routes/worlds.py:244-245 | a drawn point is on the map |
| Seeding.GenericNodes | app/routes/worlds.py:229-261 | no nodes without resource types; otherwise at most 50 nodes at the first outside point of each iteration, each on the map, outside every territory, fresh, with 15 to 40 units and an existing type |
| Seeding.GenericNode | app/routes/worlds.py:249-259 | a generic node at the given point is fresh, with 15 to 40 units and an existing type |
| Seeding.TryOutside | app/routes/worlds.py:243-261 | the attempts loop returns the first point outside every territory |
| Seeding.PlaceGenericNode | app/routes/worlds.py:241-261 | one iteration of the generic loop: the node positions are the first outside points of the iterations so far, at most one node per iteration, each node on the map, outside every territory, fresh, with 15 to 40 units and an existing type |
| Seeding.DeathAgeWindow | app/routes/worlds.py:290-301 | None iff the lifespan is None or 0; otherwise `(int(avg * 0.8), int(avg * 1.2))` with `avg = years * TICKS_PER_YEAR`, and `0 < min <= avg <= max` |
| Seeding.DeathAgeInTicks | app/routes/worlds.py:287-304 | the death age is None for an immortal species, and otherwise lies within the window |
| Seeding.LifespanExamples | app/simulation/constants.py:33-61 | zombies are immortal; an unknown species gets the 70-year default, ticks 728 to 1092; a human gets ticks 936 to 1404 |

## Left out

- HTTP routing, authentication, world-not-found handling (`app/simulation/engine.py:68-71`, `app/routes/worlds.py:443-455`) and broadcasting are not modelled; they are request plumbing and I/O.
- Persistence (`insert_many`, `bulk_write`, aggregates) is not modelled. Its outcome enters `Engine.World.ProcessTick` only as the flag `persistenceFails`, and its output is the `TickOutput` buffers.
- `Engine.ChunkingInvisible`: holds because a character's decision is a function of that character alone (`decide: Agent -> Decision`). In the source each worker gets its own copy of `world_state` (`app/simulation/engine.py:149-155`), so a character sees the in-place changes made by earlier characters of its own chunk (damage, depleted nodes) and not those made in other chunks; that dependence on the chunking is not modelled.
- `Engine.ProcessCharacterChunk`: decides each character independently of the changes made by the other characters of the same chunk, as `Engine.ChunkingInvisible` says.
- `Engine.DecideChunks`: the chunks are decided independently of one another and of the changes made inside each chunk, as `Engine.ChunkingInvisible` says.
- The process pool and `asyncio.as_completed` are not modelled. Chunk results are collected in chunk order, and `Engine.ChunkingInvisible` shows the order of the characters is kept. A completion order other than chunk order is not covered.
- Floating point is not modelled: reals are exact. `math.hypot` is an input, the Flee and Attack formulas take their raw values from `Env`, the Eat, Rest and Group formulas are computed on exact reals, and `int(x * 0.8)` is computed on exact rationals.
- `Seeding.DeathAgeWindow`: float rounding of `avg * 0.8` and `avg * 1.2` is not modelled. The window bounds are exact floors of the rationals, which could differ by one from the float result.
- Lower-casing of species names is not modelled: names are taken already lower-cased.
- `ObjectId`s, uuids and timestamps are not modelled. A territory's id is its index in the placement order, and an event has no id or timestamp.
- `get_clan_goal_position` is not modelled: a database lookup, whose result is the input map `Env.clanGoals`.
- `create_new_character_document` is not modelled: it builds a database document. A birth is modelled by the pair of parents `Engine.BirthParents` returns.
- Energy values are not capped. The source never caps energy regeneration, so energy may exceed 100.
- `Seeding.FirstFit`: its contract states only the owner of a placed territory. That it fits and that a skipped clan collided are the lemmas `Seeding.FoundFits` and `Seeding.NoFitMeansAllCollide`.
- `consume_food_from_inventory` and `move_towards_target`, which `behavior_tree.py` calls but which the source does not define, are modelled as:
  - eating: take one unit of the first food entry with units left;
  - moving: `move_towards_position` with ATTACK_RANGE as the stop distance.
- The wiring of the behaviour tree into `process_character_chunk` is not modelled. `engine.py` calls `tick` with five arguments, but `behavior_tree.py` defines it with four. The engine's decision per character is therefore a parameter.
- `BehaviorTree.FleeStep`, `BehaviorTree.AttackStep`, `BehaviorTree.GatherStep`, `BehaviorTree.GroupStep`, `BehaviorTree.WanderStep`: `behavior_tree.py` imports its movement helpers from `.engine`, which defines none of them. The defined copies (`app/simulation/simulation_utils.py:151-254`, `app/routes/worlds.py:504-581`) return a new position and never change the character; `move_towards_position` takes four arguments where the tree passes five, and its `(moved, pos)` tuple is always truthy. The model reads the calls as intended: the character's position is updated in place, and the tree tests the `moved` flag.
- `BehaviorTree.AttackStep`: reads `move_towards_target` the same way, as `move_towards_position` with ATTACK_RANGE as the stop distance.
- `BehaviorTree.GatherStep`: reads its `move_towards_position` call the same way: the position is updated in place and arrival is the `moved` flag being false.
- `BehaviorTree.GroupStep`: reads its `move_towards_position` calls the same way: the position is updated in place.
- `BehaviorTree.WanderStep`: reads `process_wandering_state` as updating the position in place.
- `BehaviorTree.FindFoodStep`: `find_nearest_resource_node`, `find_group_center` and `get_territory_at_position` are also imported from `.engine`, which does not define them. The model uses the `app/simulation/simulation_utils.py:72-98` search, which does not skip depleted nodes; the second copy at `app/routes/worlds.py:476-501`, which skips them, is modelled separately as `Spatial.FindNearestUndepletedNode`.
- `Engine.PassiveOpsMeaning`: uses the corrected hunger rule `Engine.NextHunger`, not the truncating `int(...)` of `app/simulation/engine.py:179-181`; as written, integer hunger never rises and nobody starves (see Findings).
- `Engine.PassiveStep`: uses the corrected hunger rule, as `Engine.PassiveOpsMeaning` does.
- `Engine.ResolvePassive`: uses the corrected hunger rule, as `Engine.PassiveOpsMeaning` does.
- `Engine.Resolve`: its passive pass uses the corrected hunger rule, as `Engine.PassiveOpsMeaning` does.
- `Engine.World.ProcessTick`: its passive pass uses the corrected hunger rule, as `Engine.PassiveOpsMeaning` does.
- `Engine.World.ProcessTick`: `aliveAfter` takes the characters alive after the tick as given; the model does not apply the updates to obtain them.

## Findings

| source | as written | input that shows it | evidently intended | confidence | as-written member | corrected member |
|---|---|---|---|---|---|---|
| app/simulation/engine.py:179-181 | `new_fome = int(min(100, fome + HUNGER_INCREASE_RATE))` truncates toward zero, so an integer hunger below 100 plus 0.1 falls back to itself | hunger 0, the value every character is created with (app/routes/worlds.py:329): `int(0.1) == 0`, so the hunger stays 0 on every tick and starvation (lines 185-205) never happens | hunger rises by 0.1 per tick up to 100, so a fresh character starves after 1000 ticks | not executed | Engine.NeverHungryAsWritten | Engine.StarvesAfterThousandTicks |

The passive pass uses the corrected `Engine.NextHunger`. The source's `int(...)` is kept
only in `Engine.NextHungerAsWritten`, whose lemmas `Engine.HungerStuckAsWritten` and
`Engine.NeverHungryAsWritten` show the discrepancy.
