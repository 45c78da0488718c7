/**
 * The relationship resolver of app/simulation/simulation_utils.py: a first-match-wins
 * classifier of a pair of characters as FRIEND, ENEMY or INDIFFERENT, reading three
 * tables keyed by sorted id pairs (personal scores, clan diplomacy, species relations),
 * and the builder of the upsert that changes a personal score.
 */
module Relationships {
  import opened Wrappers
  import opened Domain

  datatype Relation = Friend | Enemy | Indifferent

  /** Diplomatic state between two clans. */
  datatype ClanStance = War | Alliance | Neutral

  /** `tuple(sorted((a, b)))`: the key under which every pair table is stored. */
  function SortedPair(a: int, b: int): (k: (int, int))
    ensures k.0 <= k.1
    ensures {k.0, k.1} == {a, b}
  {
    if a <= b then (a, b) else (b, a)
  }

  /** The relationship tables of one tick's snapshot. */
  datatype Tables = Tables(
    zombieSpecies: Option<SpeciesId>,
    clanRels: map<(ClanId, ClanId), ClanStance>,
    speciesRels: map<(SpeciesId, SpeciesId), Relation>,
    personalScores: map<(AgentId, AgentId), real>)

  /** The personal score of the pair exists and is beyond +50 or -50. */
  predicate DecisiveScore(a: Agent, b: Agent, t: Tables)
  {
    var k := SortedPair(a.id, b.id);
    k in t.personalScores && (t.personalScores[k] > 50.0 || t.personalScores[k] < -50.0)
  }

  /** `if zombie_species_id:` — an absent id and the falsy id 0 both switch the zombie rule off. */
  predicate ZombiesActive(t: Tables)
  {
    t.zombieSpecies.Some? && t.zombieSpecies.value != 0
  }

  predicate IsZombie(a: Agent, t: Tables)
  {
    ZombiesActive(t) && a.species.id == t.zombieSpecies.value
  }

  predicate SameClan(a: Agent, b: Agent)
  {
    a.clan.Some? && b.clan.Some? && a.clan.value == b.clan.value
  }

  /** The diplomacy entry between the two clans, when both have a clan and it is recorded. */
  function Diplomacy(a: Agent, b: Agent, t: Tables): Option<ClanStance>
  {
    if a.clan.Some? && b.clan.Some? && SortedPair(a.clan.value, b.clan.value) in t.clanRels
    then Some(t.clanRels[SortedPair(a.clan.value, b.clan.value)])
    else None
  }

  /**
   * `get_effective_relationship`: identity, then personal score, then the zombie rule,
   * then same clan, then clan diplomacy, then the species table, else INDIFFERENT.
   */
  function Resolve(a: Agent, b: Agent, t: Tables): (r: Relation)
    // identity
    ensures a.id == b.id ==> r == Friend
    // a decisive personal score overrides every later rule
    ensures a.id != b.id && DecisiveScore(a, b, t) ==>
      r == (if t.personalScores[SortedPair(a.id, b.id)] > 50.0 then Friend else Enemy)
    // zombie rule: friends among themselves, enemies of everyone else
    ensures a.id != b.id && !DecisiveScore(a, b, t) && IsZombie(a, t) && IsZombie(b, t) ==> r == Friend
    ensures a.id != b.id && !DecisiveScore(a, b, t) && IsZombie(a, t) != IsZombie(b, t) ==> r == Enemy
    // clans: same clan, then WAR / ALLIANCE
    ensures a.id != b.id && !DecisiveScore(a, b, t) && !IsZombie(a, t) && !IsZombie(b, t) ==>
      (SameClan(a, b) ==> r == Friend) &&
      (!SameClan(a, b) && Diplomacy(a, b, t) == Some(War) ==> r == Enemy) &&
      (!SameClan(a, b) && Diplomacy(a, b, t) == Some(Alliance) ==> r == Friend)
    // otherwise the species table, else INDIFFERENT
    ensures (a.id != b.id && !DecisiveScore(a, b, t) && !IsZombie(a, t) && !IsZombie(b, t) &&
             !SameClan(a, b) && Diplomacy(a, b, t) !in {Some(War), Some(Alliance)}) ==>
      r == (if SortedPair(a.species.id, b.species.id) in t.speciesRels
            then t.speciesRels[SortedPair(a.species.id, b.species.id)] else Indifferent)
  {
    if a.id == b.id then Friend
    else if DecisiveScore(a, b, t) then
      (if t.personalScores[SortedPair(a.id, b.id)] > 50.0 then Friend else Enemy)
    else if ZombiesActive(t) && IsZombie(a, t) && IsZombie(b, t) then Friend
    else if ZombiesActive(t) && (IsZombie(a, t) || IsZombie(b, t)) then Enemy
    else if SameClan(a, b) then Friend
    else if Diplomacy(a, b, t) == Some(War) then Enemy
    else if Diplomacy(a, b, t) == Some(Alliance) then Friend
    else if SortedPair(a.species.id, b.species.id) in t.speciesRels then
      t.speciesRels[SortedPair(a.species.id, b.species.id)]
    else Indifferent
  }

  /** Every test of the resolver is symmetric and every lookup uses a sorted key. */
  lemma ResolveSymmetric(a: Agent, b: Agent, t: Tables)
    ensures Resolve(a, b, t) == Resolve(b, a, t)
  {
    assert SortedPair(a.id, b.id) == SortedPair(b.id, a.id);
    assert SortedPair(a.species.id, b.species.id) == SortedPair(b.species.id, a.species.id);
    if a.clan.Some? && b.clan.Some? {
      assert SortedPair(a.clan.value, b.clan.value) == SortedPair(b.clan.value, a.clan.value);
    }
  }

  /** A zombie species id of 0 is falsy in Python: the resolver behaves as if there were none. */
  lemma ZeroZombieIdIsNone(a: Agent, b: Agent, t: Tables)
    requires t.zombieSpecies == Some(0)
    ensures Resolve(a, b, t) == Resolve(a, b, t.(zombieSpecies := None))
  {
    assert !IsZombie(a, t) && !IsZombie(b, t);
  }

  /** A bulk-write operation on the personal relationship collection. */
  datatype RelationshipUpdate =
    | NoOp
    | Upsert(low: AgentId, high: AgentId, scoreChange: real)

  /**
   * `create_relationship_update_operation`: nothing for a character and itself, otherwise
   * an upsert of the sorted pair that adds `scoreChange` to its score.
   */
  function RelationshipUpsert(a: AgentId, b: AgentId, scoreChange: real): (op: RelationshipUpdate)
    ensures op.NoOp? <==> a == b
    ensures op.Upsert? ==> op.low < op.high && {op.low, op.high} == {a, b} && op.scoreChange == scoreChange
    ensures op.Upsert? ==> (op.low, op.high) == SortedPair(a, b)
  {
    if a == b then NoOp
    else
      var k := SortedPair(a, b);
      Upsert(k.0, k.1, scoreChange)
  }

  /** The operation addresses the record the resolver reads: it does not depend on argument order. */
  lemma RelationshipUpsertSymmetric(a: AgentId, b: AgentId, scoreChange: real)
    ensures RelationshipUpsert(a, b, scoreChange) == RelationshipUpsert(b, a, scoreChange)
  {
    assert SortedPair(a, b) == SortedPair(b, a);
  }
}
