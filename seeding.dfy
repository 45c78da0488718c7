/**
 * The geography `create_custom_world` (app/routes/worlds.py) seeds for a new world:
 * one 200×200 territory per clan placed by up to 100 random attempts without overlapping
 * the territories already placed, themed resource nodes inside each territory, generic
 * resource nodes scattered outside every territory, and each character's death age.
 *
 * Random draws are parameters: a raw value that `RandInt` or `Uniform` maps into the
 * range the source draws from. The species name is given already lower-cased.
 */
module Seeding {
  import opened Wrappers
  import opened Domain
  import opened Constants
  import Spatial

  const MAP_WIDTH: int := 1000
  const MAP_HEIGHT: int := 1000
  const TERRITORY_SIZE: int := 200
  const PLACEMENT_ATTEMPTS: nat := 100
  const NUM_GENERIC_RESOURCES: nat := 50

  /** `random.randint(lo, hi)` with the raw draw `r`, clamped to the range: every value of the range is reachable. */
  function RandInt(lo: int, hi: int, r: int): (v: int)
    requires lo <= hi
    ensures lo <= v <= hi
    ensures lo <= r <= hi ==> v == r
  {
    if r < lo then lo else if r > hi then hi else r
  }

  /** `random.uniform(lo, hi)` with the raw draw `t`, read as a fraction of the interval. */
  function Uniform(lo: real, hi: real, t: real): (v: real)
    requires lo <= hi
    ensures lo <= v <= hi
    ensures 0.0 <= t <= 1.0 ==> v == lo + (hi - lo) * t
  {
    var f := if t < 0.0 then 0.0 else if t > 1.0 then 1.0 else t;
    var d := hi - lo;
    ScaleWithin(d, f);
    lo + d * f
  }

  lemma ScaleWithin(d: real, f: real)
    requires 0.0 <= d && 0.0 <= f <= 1.0
    ensures 0.0 <= d * f <= d
  {
    assert d * (1.0 - f) >= 0.0;
  }

  // ---------------------------------------------------------------------------
  // Territory placement
  // ---------------------------------------------------------------------------

  /** `rects_overlap`: not separated along either axis; touching edges do not count. */
  predicate RectsOverlap(a: Territory, b: Territory)
  {
    !(a.endX <= b.startX || a.startX >= b.endX || a.endY <= b.startY || a.startY >= b.endY)
  }

  predicate InInterior(t: Territory, p: Pos)
  {
    t.startX < p.x < t.endX && t.startY < p.y < t.endY
  }

  predicate Proper(t: Territory)
  {
    t.startX < t.endX && t.startY < t.endY
  }

  lemma RectsOverlapSymmetric(a: Territory, b: Territory)
    ensures RectsOverlap(a, b) <==> RectsOverlap(b, a)
  {
  }

  function MaxR(a: real, b: real): real { if a >= b then a else b }
  function MinR(a: real, b: real): real { if a <= b then a else b }

  /**
   * Two proper rectangles overlap exactly when some point lies strictly inside both, so
   * rectangles that share only an edge or a corner never overlap.
   */
  lemma OverlapIffSharedInterior(a: Territory, b: Territory)
    requires Proper(a) && Proper(b)
    ensures RectsOverlap(a, b) <==> exists p: Pos :: InInterior(a, p) && InInterior(b, p)
  {
    if RectsOverlap(a, b) {
      var p := Pos((MaxR(a.startX, b.startX) + MinR(a.endX, b.endX)) / 2.0,
                   (MaxR(a.startY, b.startY) + MinR(a.endY, b.endY)) / 2.0);
      assert InInterior(a, p) && InInterior(b, p);
    }
  }

  /**
   * The candidate of one attempt: a square of side 200 whose corner is drawn with
   * `randint(50, MAP_WIDTH - 250)` and `randint(50, MAP_HEIGHT - 250)`. The territory's
   * id is the clan's position in the list of created clans.
   */
  function Candidate(c: nat, clan: ClanId, corner: (int, int)): (t: Territory)
    ensures Proper(t) && t.id == c && t.owner == Some(clan)
    ensures 50.0 <= t.startX && t.endX <= (MAP_WIDTH - 50) as real
    ensures 50.0 <= t.startY && t.endY <= (MAP_HEIGHT - 50) as real
  {
    var x := RandInt(50, MAP_WIDTH - 250, corner.0);
    var y := RandInt(50, MAP_HEIGHT - 250, corner.1);
    Territory(c, Some(clan), x as real, y as real, (x + TERRITORY_SIZE) as real, (y + TERRITORY_SIZE) as real)
  }

  /** `not any(rects_overlap(candidate, t) for t in territories_to_create)`. */
  predicate Fits(t: Territory, ts: seq<Territory>)
  {
    forall j {:trigger RectsOverlap(t, ts[j])} :: 0 <= j < |ts| ==> !RectsOverlap(t, ts[j])
  }

  /** The first of the attempts `k, k + 1, …, 99` for clan `c` whose candidate fits. */
  function FirstFit(c: nat, clan: ClanId, ts: seq<Territory>, draw: (nat, nat) -> (int, int), k: nat)
    : (r: Option<Territory>)
    ensures r.Some? ==> r.value.id == c && r.value.owner == Some(clan) && Proper(r.value)
    decreases PLACEMENT_ATTEMPTS - k
  {
    if k >= PLACEMENT_ATTEMPTS then None
    else
      var candidate := Candidate(c, clan, draw(c, k));
      if Fits(candidate, ts) then Some(candidate) else FirstFit(c, clan, ts, draw, k + 1)
  }

  /** The candidate kept overlaps no territory already placed. */
  lemma {:induction false} FoundFits(c: nat, clan: ClanId, ts: seq<Territory>, draw: (nat, nat) -> (int, int), k: nat)
    requires FirstFit(c, clan, ts, draw, k).Some?
    ensures Fits(FirstFit(c, clan, ts, draw, k).value, ts)
    decreases PLACEMENT_ATTEMPTS - k
  {
    if !Fits(Candidate(c, clan, draw(c, k)), ts) {
      FoundFits(c, clan, ts, draw, k + 1);
    }
  }

  /** When no attempt from `k` on fits, every one of those candidates overlaps a placed territory. */
  lemma {:induction false} NoFitMeansAllCollide(c: nat, clan: ClanId, ts: seq<Territory>, draw: (nat, nat) -> (int, int), k: nat)
    requires FirstFit(c, clan, ts, draw, k).None?
    ensures forall a :: k <= a < PLACEMENT_ATTEMPTS ==> !Fits(Candidate(c, clan, draw(c, a)), ts)
    decreases PLACEMENT_ATTEMPTS - k
  {
    if k < PLACEMENT_ATTEMPTS {
      NoFitMeansAllCollide(c, clan, ts, draw, k + 1);
    }
  }

  /** The territories placed for the first `n` clans. */
  function PlaceAll(clans: seq<ClanId>, draw: (nat, nat) -> (int, int), n: nat): seq<Territory>
    requires n <= |clans|
  {
    if n == 0 then []
    else
      var ts := PlaceAll(clans, draw, n - 1);
      match FirstFit(n - 1, clans[n - 1], ts, draw, 0)
      case None => ts
      case Some(t) => ts + [t]
  }

  predicate PairwiseDisjoint(ts: seq<Territory>)
  {
    forall i, j :: 0 <= i < j < |ts| ==> !RectsOverlap(ts[i], ts[j])
  }

  /** Appending a territory that fits keeps the territories pairwise disjoint. */
  lemma AppendFitting(ts: seq<Territory>, t: Territory)
    requires PairwiseDisjoint(ts) && Fits(t, ts)
    ensures PairwiseDisjoint(ts + [t])
  {
    var ts' := ts + [t];
    forall i, j | 0 <= i < j < |ts'|
      ensures !RectsOverlap(ts'[i], ts'[j])
    {
      if j == |ts| {
        assert !RectsOverlap(t, ts[i]);
        RectsOverlapSymmetric(t, ts[i]);
      } else {
        assert ts'[i] == ts[i] && ts'[j] == ts[j];
      }
    }
  }

  /** Each territory belongs to the clan whose position is its id, among the first `n` clans. */
  predicate OwnedByPosition(ts: seq<Territory>, clans: seq<ClanId>, n: nat)
  {
    forall i :: 0 <= i < |ts| ==> 0 <= ts[i].id < n && n <= |clans| && ts[i].owner == Some(clans[ts[i].id])
  }

  predicate IdsIncrease(ts: seq<Territory>)
  {
    forall i, j :: 0 <= i < j < |ts| ==> ts[i].id < ts[j].id
  }

  lemma OwnedWeaken(ts: seq<Territory>, clans: seq<ClanId>, n: nat)
    requires 0 < n <= |clans| && OwnedByPosition(ts, clans, n - 1)
    ensures OwnedByPosition(ts, clans, n)
  {
  }

  lemma OwnedAppend(ts: seq<Territory>, t: Territory, clans: seq<ClanId>, n: nat)
    requires 0 < n <= |clans| && OwnedByPosition(ts, clans, n - 1) && IdsIncrease(ts)
    requires t.id == n - 1 && t.owner == Some(clans[n - 1])
    ensures OwnedByPosition(ts + [t], clans, n) && IdsIncrease(ts + [t])
  {
    var ts' := ts + [t];
    forall i, j | 0 <= i < j < |ts'|
      ensures ts'[i].id < ts'[j].id
    {
      assert ts'[i] == ts[i];
    }
  }

  /** Clan `n - 1` adds its first fitting candidate to the territories of the clans before it, or nothing. */
  lemma PlaceAllStep(clans: seq<ClanId>, draw: (nat, nat) -> (int, int), n: nat)
    requires 0 < n <= |clans|
    ensures var ts := PlaceAll(clans, draw, n - 1);
      var r := FirstFit(n - 1, clans[n - 1], ts, draw, 0);
      PlaceAll(clans, draw, n) == if r.Some? then ts + [r.value] else ts
  {
  }

  /** No territory of `ts` belongs to clan position `c`. */
  predicate NotPlaced(ts: seq<Territory>, c: nat)
  {
    forall i :: 0 <= i < |ts| ==> ts[i].id != c
  }

  /** Every one of the 100 candidates of clan `c` overlaps a territory of `ts`. */
  predicate AllCollided(c: nat, clan: ClanId, ts: seq<Territory>, draw: (nat, nat) -> (int, int))
  {
    forall a :: 0 <= a < PLACEMENT_ATTEMPTS ==> !Fits(Candidate(c, clan, draw(c, a)), ts)
  }

  /** The clan placed last gets no territory only when all 100 of its candidates collided. */
  lemma UnplacedLastClanCollided(clans: seq<ClanId>, draw: (nat, nat) -> (int, int), c: nat)
    requires c < |clans| && NotPlaced(PlaceAll(clans, draw, c + 1), c)
    ensures AllCollided(c, clans[c], PlaceAll(clans, draw, c), draw)
  {
    var ts := PlaceAll(clans, draw, c);
    if FirstFit(c, clans[c], ts, draw, 0).Some? {
      LastClanPlaced(clans, draw, c);
      assert false;
    }
    NoFitMeansAllCollide(c, clans[c], ts, draw, 0);
  }

  /** A clan whose attempts found a fitting candidate is among the owners afterwards. */
  lemma LastClanPlaced(clans: seq<ClanId>, draw: (nat, nat) -> (int, int), c: nat)
    requires c < |clans| && FirstFit(c, clans[c], PlaceAll(clans, draw, c), draw, 0).Some?
    ensures !NotPlaced(PlaceAll(clans, draw, c + 1), c)
  {
    var ts := PlaceAll(clans, draw, c);
    PlaceAllStep(clans, draw, c + 1);
    assert PlaceAll(clans, draw, c + 1)[|ts|] == FirstFit(c, clans[c], ts, draw, 0).value;
  }

  /** Every clan among the first `c` without a territory in `ts` had all 100 of its candidates collide. */
  predicate UnplacedCollided(ts: seq<Territory>, clans: seq<ClanId>, draw: (nat, nat) -> (int, int), c: nat)
    requires c <= |clans|
  {
    forall k {:trigger NotPlaced(ts, k)} :: 0 <= k < c && NotPlaced(ts, k) ==>
      AllCollided(k, clans[k], PlaceAll(clans, draw, k), draw)
  }

  /** A clan with no territory in `ts + [t]` has none in `ts` and is not `t`'s. */
  lemma NotPlacedAppend(ts: seq<Territory>, t: Territory, k: nat)
    requires NotPlaced(ts + [t], k)
    ensures NotPlaced(ts, k) && t.id != k
  {
    assert (ts + [t])[|ts|] == t;
    forall i | 0 <= i < |ts|
      ensures ts[i].id != k
    {
      assert (ts + [t])[i] == ts[i];
    }
  }

  /** Placing clan `c` leaves the clans before it that had no territory without one. */
  lemma UnplacedAfterPlacing(ts: seq<Territory>, t: Territory, clans: seq<ClanId>, draw: (nat, nat) -> (int, int), c: nat)
    requires c < |clans| && UnplacedCollided(ts, clans, draw, c) && t.id == c
    ensures UnplacedCollided(ts + [t], clans, draw, c + 1)
  {
    forall k | 0 <= k < c + 1 && NotPlaced(ts + [t], k)
      ensures AllCollided(k, clans[k], PlaceAll(clans, draw, k), draw)
    {
      NotPlacedAppend(ts, t, k);
    }
  }

  /** A clan none of whose candidates fits joins the clans that had all of theirs collide. */
  lemma UnplacedAfterCollisions(clans: seq<ClanId>, draw: (nat, nat) -> (int, int), c: nat)
    requires c < |clans| && UnplacedCollided(PlaceAll(clans, draw, c), clans, draw, c)
    requires FirstFit(c, clans[c], PlaceAll(clans, draw, c), draw, 0).None?
    ensures UnplacedCollided(PlaceAll(clans, draw, c), clans, draw, c + 1)
  {
    NoFitMeansAllCollide(c, clans[c], PlaceAll(clans, draw, c), draw, 0);
  }

  /** The attempts loop for one clan, left at the first candidate that overlaps nothing placed. */
  method TryPlace(c: nat, clan: ClanId, ts: seq<Territory>, draw: (nat, nat) -> (int, int))
    returns (r: Option<Territory>)
    ensures r == FirstFit(c, clan, ts, draw, 0)
    ensures r.Some? ==> Fits(r.value, ts)
  {
    for k := 0 to PLACEMENT_ATTEMPTS
      invariant FirstFit(c, clan, ts, draw, 0) == FirstFit(c, clan, ts, draw, k)
    {
      var candidate := Candidate(c, clan, draw(c, k));
      var overlaps := exists j | 0 <= j < |ts| :: RectsOverlap(candidate, ts[j]);
      if !overlaps {
        return Some(candidate);
      }
    }
    return None;
  }

  /** Every territory of `ts` is a proper rectangle. */
  predicate AllProper(ts: seq<Territory>)
  {
    forall i :: 0 <= i < |ts| ==> Proper(ts[i])
  }

  /**
   * The territories after the first `c` clans: the ones `PlaceAll` specifies, proper,
   * pairwise disjoint, each owned by the clan whose position is its id, with ids strictly
   * increasing, so that no clan gets two, and each of them left without a territory had
   * all its candidates collide.
   */
  predicate PlacedSoFar(ts: seq<Territory>, clans: seq<ClanId>, draw: (nat, nat) -> (int, int), c: nat)
  {
    c <= |clans| && ts == PlaceAll(clans, draw, c) && AllProper(ts) && PairwiseDisjoint(ts) &&
    OwnedByPosition(ts, clans, c) && IdsIncrease(ts) && UnplacedCollided(ts, clans, draw, c)
  }

  /**
   * One iteration of the placement loop: clan `c` gets the first candidate that fits, or
   * nothing; `placed` says which.
   */
  method PlaceClan(clans: seq<ClanId>, draw: (nat, nat) -> (int, int), c: nat, ts: seq<Territory>)
    returns (ts': seq<Territory>, placed: bool)
    requires c < |clans| && PlacedSoFar(ts, clans, draw, c)
    ensures PlacedSoFar(ts', clans, draw, c + 1)
    ensures placed ==> |ts'| == |ts| + 1 && ts'[..|ts|] == ts && ts'[|ts|].id == c
    ensures !placed ==> ts' == ts
  {
    var found := TryPlace(c, clans[c], ts, draw);
    if found.Some? {
      AppendFitting(ts, found.value);
      OwnedAppend(ts, found.value, clans, c + 1);
      ts' := ts + [found.value];
      assert ts'[..|ts|] == ts;
      UnplacedAfterPlacing(ts, found.value, clans, draw, c);
      placed := true;
    } else {
      OwnedWeaken(ts, clans, c + 1);
      UnplacedAfterCollisions(clans, draw, c);
      ts' := ts;
      placed := false;
    }
  }

  /**
   * The placement loop over the created clans; a clan whose attempts all collide gets
   * nothing. The territories placed stay pairwise disjoint, each belongs to the clan whose
   * position is its id, ids strictly increase, so no clan gets two, and a clan left
   * without a territory had all 100 of its candidates overlap a territory placed before it.
   */
  method PlaceTerritories(clans: seq<ClanId>, draw: (nat, nat) -> (int, int)) returns (ts: seq<Territory>)
    ensures ts == PlaceAll(clans, draw, |clans|)
    ensures PairwiseDisjoint(ts)
    ensures OwnedByPosition(ts, clans, |clans|) && IdsIncrease(ts)
    ensures UnplacedCollided(ts, clans, draw, |clans|)
  {
    ts := [];
    for c := 0 to |clans|
      invariant PlacedSoFar(ts, clans, draw, c)
    {
      var placed;
      ts, placed := PlaceClan(clans, draw, c, ts);
    }
  }

  // ---------------------------------------------------------------------------
  // Resource nodes
  // ---------------------------------------------------------------------------

  /** A resource type document: its id, its name and its category. */
  datatype ResourceType = ResourceType(id: ResourceTypeId, name: string, category: string)

  /** The themed resources per species: resource name and number of nodes. */
  const RESOURCE_MAP: map<string, seq<(string, nat)>> :=
    map[
      "anão" := [("Minério de Ferro", 10), ("Pedra", 15)],
      "elfo" := [("Madeira", 15), ("Baga Silvestre", 5)],
      "humano" := [("Peixe", 5), ("Madeira", 5), ("Pedra", 5)],
      "orc" := [("Madeira", 10), ("Peixe", 5)],
      "default" := [("Baga Silvestre", 10), ("Pedra", 5)]
    ]

  /** `s.rstrip("s")`: every trailing `s` removed. */
  function RStripS(s: string): (r: string)
    ensures |r| <= |s| && r == s[..|r|]
    ensures r == [] || r[|r| - 1] != 's'
    ensures forall i :: |r| <= i < |s| ==> s[i] == 's'
  {
    if s == [] || s[|s| - 1] != 's' then s else RStripS(s[..|s| - 1])
  }

  /** The themed plan: the species' own entry, else that of its name without trailing `s`, else the default. */
  function ThemedPlan(species: string): (plan: seq<(string, nat)>)
    ensures species in RESOURCE_MAP ==> plan == RESOURCE_MAP[species]
    ensures species !in RESOURCE_MAP && RStripS(species) in RESOURCE_MAP ==> plan == RESOURCE_MAP[RStripS(species)]
    ensures species !in RESOURCE_MAP && RStripS(species) !in RESOURCE_MAP ==> plan == RESOURCE_MAP["default"]
  {
    if species in RESOURCE_MAP then RESOURCE_MAP[species]
    else if RStripS(species) in RESOURCE_MAP then RESOURCE_MAP[RStripS(species)]
    else RESOURCE_MAP["default"]
  }

  /** Plural species names fall back to the singular entry. */
  lemma PluralFallback()
    ensures ThemedPlan("orcs") == RESOURCE_MAP["orc"]
    ensures ThemedPlan("elfos") == RESOURCE_MAP["elfo"]
    ensures ThemedPlan("goblin") == RESOURCE_MAP["default"]
  {
    assert RStripS("orcs") == "orc";
    assert RStripS("elfos") == "elfo";
    assert RStripS("goblin") == "goblin";
    assert "goblin" !in RESOURCE_MAP;
    assert "orcs" !in RESOURCE_MAP && "elfos" !in RESOURCE_MAP;
  }

  /** `next((rt for rt in all_resource_types if rt["name"] == name), None)`. */
  function FindType(types: seq<ResourceType>, name: string): (r: Option<nat>)
    ensures r.Some? ==> r.value < |types| && types[r.value].name == name
    ensures r.Some? ==> forall j :: 0 <= j < r.value ==> types[j].name != name
    ensures r.None? ==> forall j :: 0 <= j < |types| ==> types[j].name != name
  {
    if types == [] then None
    else if types[0].name == name then Some(0)
    else
      match FindType(types[1..], name)
      case None => None
      case Some(i) => Some(i + 1)
  }

  /** How many themed nodes a plan yields: resource names without a type are skipped. */
  function PlannedCount(plan: seq<(string, nat)>, types: seq<ResourceType>): nat
  {
    if plan == [] then 0
    else
      PlannedCount(plan[..|plan| - 1], types)
      + (if FindType(types, plan[|plan| - 1].0).Some? then plan[|plan| - 1].1 else 0)
  }

  /**
   * The types of the themed nodes in creation order: for each plan entry whose resource
   * type exists, that type `count` times.
   */
  function PlannedTypes(plan: seq<(string, nat)>, types: seq<ResourceType>): (rts: seq<ResourceType>)
    ensures |rts| == PlannedCount(plan, types)
    ensures forall j :: 0 <= j < |rts| ==> rts[j] in types
  {
    if plan == [] then []
    else
      var last := plan[|plan| - 1];
      PlannedTypes(plan[..|plan| - 1], types) +
      (match FindType(types, last.0)
       case None => []
       case Some(k) => seq(last.1, _ => types[k]))
  }

  /** Each entry whose name has no resource type yields no node, whatever its count. */
  lemma {:induction false} UnknownEntriesSkipped(plan: seq<(string, nat)>, types: seq<ResourceType>)
    requires forall i :: 0 <= i < |plan| ==> FindType(types, plan[i].0).None?
    ensures PlannedTypes(plan, types) == []
  {
    if plan != [] {
      UnknownEntriesSkipped(plan[..|plan| - 1], types);
    }
  }

  /** A two-entry plan yields the first entry's nodes, then the second's. */
  lemma TwoEntryPlanOrder(first: (string, nat), second: (string, nat), types: seq<ResourceType>)
    requires FindType(types, first.0).Some? && FindType(types, second.0).Some?
    ensures PlannedTypes([first, second], types) ==
      seq(first.1, _ => types[FindType(types, first.0).value]) + seq(second.1, _ => types[FindType(types, second.0).value])
  {
    assert [first, second][..1] == [first];
    assert [first][..0] == [];
  }

  /** A fresh node of the given type and position. */
  function NewNode(rt: ResourceType, pos: Pos, quantity: int): ResourceNode
  {
    ResourceNode(rt.id, Some(rt.category), pos, quantity, false)
  }

  /** The node has the id and category of one of the resource types. */
  predicate OfSomeType(n: ResourceNode, types: seq<ResourceType>)
  {
    exists j :: 0 <= j < |types| && n.resourceType == types[j].id && n.category == Some(types[j].category)
  }

  predicate Fresh(n: ResourceNode, lo: int, hi: int)
  {
    !n.depleted && lo <= n.quantity <= hi
  }

  /** The themed node of type `rt` made from draw `raw` for its position and `qty` for its units. */
  function ThemedNode(t: Territory, rt: ResourceType, raw: (real, real), qty: int): (n: ResourceNode)
    requires t.startX <= t.endX && t.startY <= t.endY
    ensures InTerritory(t, n.pos.x, n.pos.y) && Fresh(n, 20, 50)
    ensures n.resourceType == rt.id && n.category == Some(rt.category)
  {
    NewNode(rt, Pos(Uniform(t.startX, t.endX, raw.0), Uniform(t.startY, t.endY, raw.1)), RandInt(20, 50, qty))
  }

  /** Node `j` is the themed node of type `rts[j]` made from draw `j`. */
  predicate ThemedSoFar(t: Territory, nodes: seq<ResourceNode>, rts: seq<ResourceType>,
                        drawPos: nat -> (real, real), drawQty: nat -> int)
    requires t.startX <= t.endX && t.startY <= t.endY
  {
    |nodes| <= |rts| &&
    forall j :: 0 <= j < |nodes| ==> nodes[j] == ThemedNode(t, rts[j], drawPos(j), drawQty(j))
  }

  /** Extending the plan keeps the nodes made so far a prefix of the planned ones. */
  lemma ThemedSoFarExtend(t: Territory, nodes: seq<ResourceNode>, rts: seq<ResourceType>, more: seq<ResourceType>,
                          drawPos: nat -> (real, real), drawQty: nat -> int)
    requires t.startX <= t.endX && t.startY <= t.endY
    requires ThemedSoFar(t, nodes, rts, drawPos, drawQty)
    ensures ThemedSoFar(t, nodes, rts + more, drawPos, drawQty)
  {
    assert forall j :: 0 <= j < |rts| ==> (rts + more)[j] == rts[j];
  }

  /** Making the next planned node keeps the nodes a prefix of the planned ones. */
  lemma ThemedSoFarPush(t: Territory, nodes: seq<ResourceNode>, rts: seq<ResourceType>,
                        drawPos: nat -> (real, real), drawQty: nat -> int)
    requires t.startX <= t.endX && t.startY <= t.endY
    requires ThemedSoFar(t, nodes, rts, drawPos, drawQty) && |nodes| < |rts|
    ensures ThemedSoFar(t, nodes + [ThemedNode(t, rts[|nodes|], drawPos(|nodes|), drawQty(|nodes|))], rts, drawPos, drawQty)
  {
  }

  /** The planned types of one more plan entry. */
  lemma PlannedTypesNext(plan: seq<(string, nat)>, types: seq<ResourceType>, i: nat)
    requires i < |plan|
    ensures PlannedTypes(plan[..i + 1], types) == PlannedTypes(plan[..i], types) +
      (match FindType(types, plan[i].0)
       case None => []
       case Some(k) => seq(plan[i].1, _ => types[k]))
  {
    assert plan[..i + 1][..i] == plan[..i];
  }

  /**
   * The themed nodes of one territory: for each planned resource whose type exists,
   * `count` nodes at uniform positions inside the territory with `randint(20, 50)` units.
   * Draw `j` is the j-th node of the territory.
   */
  method ThemedNodes(t: Territory, plan: seq<(string, nat)>, types: seq<ResourceType>,
                     drawPos: nat -> (real, real), drawQty: nat -> int)
    returns (nodes: seq<ResourceNode>)
    requires t.startX <= t.endX && t.startY <= t.endY
    ensures |nodes| == PlannedCount(plan, types)
    ensures forall j :: 0 <= j < |nodes| ==>
      nodes[j] == ThemedNode(t, PlannedTypes(plan, types)[j], drawPos(j), drawQty(j))
    ensures forall n :: n in nodes ==> InTerritory(t, n.pos.x, n.pos.y) && Fresh(n, 20, 50) && OfSomeType(n, types)
  {
    nodes := [];
    for i := 0 to |plan|
      invariant |nodes| == PlannedCount(plan[..i], types)
      invariant ThemedSoFar(t, nodes, PlannedTypes(plan[..i], types), drawPos, drawQty)
    {
      PlannedTypesNext(plan, types, i);
      var entry := plan[i];
      var found := FindType(types, entry.0);
      ghost var rts := PlannedTypes(plan[..i + 1], types);
      ThemedSoFarExtend(t, nodes, PlannedTypes(plan[..i], types), rts[|nodes|..], drawPos, drawQty);
      assert PlannedTypes(plan[..i], types) + rts[|nodes|..] == rts;
      if found.Some? {
        var rt := types[found.value];
        for k := 0 to entry.1
          invariant |nodes| == PlannedCount(plan[..i], types) + k
          invariant ThemedSoFar(t, nodes, rts, drawPos, drawQty)
        {
          assert rts[|nodes|] == rt;
          ThemedSoFarPush(t, nodes, rts, drawPos, drawQty);
          var raw := drawPos(|nodes|);
          var pos := Pos(Uniform(t.startX, t.endX, raw.0), Uniform(t.startY, t.endY, raw.1));
          var node := NewNode(rt, pos, RandInt(20, 50, drawQty(|nodes|)));
          nodes := nodes + [node];
        }
      }
    }
    assert plan[..|plan|] == plan;
    ThemedNodesTyped(t, nodes, PlannedTypes(plan, types), types, drawPos, drawQty);
  }

  /** Nodes made from the planned types lie in the territory, are fresh and have an existing type. */
  lemma ThemedNodesTyped(t: Territory, nodes: seq<ResourceNode>, rts: seq<ResourceType>, types: seq<ResourceType>,
                         drawPos: nat -> (real, real), drawQty: nat -> int)
    requires t.startX <= t.endX && t.startY <= t.endY
    requires ThemedSoFar(t, nodes, rts, drawPos, drawQty)
    requires forall j :: 0 <= j < |rts| ==> rts[j] in types
    ensures forall n :: n in nodes ==> InTerritory(t, n.pos.x, n.pos.y) && Fresh(n, 20, 50) && OfSomeType(n, types)
  {
    forall n | n in nodes
      ensures InTerritory(t, n.pos.x, n.pos.y) && Fresh(n, 20, 50) && OfSomeType(n, types)
    {
      var j :| 0 <= j < |nodes| && nodes[j] == n;
      var m :| 0 <= m < |types| && types[m] == rts[j];
      assert n.resourceType == types[m].id && n.category == Some(types[m].category);
    }
  }

  // ---------------------------------------------------------------------------
  // The clan loop: placement followed by the themed nodes of each placed clan
  // ---------------------------------------------------------------------------

  /** Every territory is proper and belongs to one of the first `n` clans. */
  predicate Seedable(ts: seq<Territory>, n: nat)
  {
    forall i :: 0 <= i < |ts| ==> Proper(ts[i]) && 0 <= ts[i].id < n
  }

  /**
   * The themed nodes of territory `t` under `plan`: node `j` has the j-th planned type and
   * is made from draw `(t.id, j)`, the j-th draw of the clan that owns `t`.
   */
  function ThemedOf(t: Territory, plan: seq<(string, nat)>, types: seq<ResourceType>,
                    drawPos: (nat, nat) -> (real, real), drawQty: (nat, nat) -> int): (nodes: seq<ResourceNode>)
    requires Proper(t) && 0 <= t.id
    ensures |nodes| == PlannedCount(plan, types)
    ensures forall n :: n in nodes ==> InTerritory(t, n.pos.x, n.pos.y) && Fresh(n, 20, 50) && OfSomeType(n, types)
  {
    var rts := PlannedTypes(plan, types);
    var nodes := seq(|rts|, j requires 0 <= j < |rts| => ThemedNode(t, rts[j], drawPos(t.id, j), drawQty(t.id, j)));
    assert forall j :: 0 <= j < |rts| ==> rts[j] in types;
    assert forall n :: n in nodes ==> InTerritory(t, n.pos.x, n.pos.y) && Fresh(n, 20, 50) && OfSomeType(n, types) by {
      forall n | n in nodes
        ensures InTerritory(t, n.pos.x, n.pos.y) && Fresh(n, 20, 50) && OfSomeType(n, types)
      {
        var j :| 0 <= j < |nodes| && nodes[j] == n;
        var m :| 0 <= m < |types| && types[m] == rts[j];
        assert n == ThemedNode(t, types[m], drawPos(t.id, j), drawQty(t.id, j));
      }
    }
    nodes
  }

  /**
   * The themed nodes of the territories `ts`, territory by territory: each territory
   * gets the nodes of the plan of its clan's species name.
   */
  function SeededNodes(ts: seq<Territory>, species: seq<string>, types: seq<ResourceType>,
                       drawPos: (nat, nat) -> (real, real), drawQty: (nat, nat) -> int): seq<ResourceNode>
    requires Seedable(ts, |species|)
    decreases |ts|
  {
    if ts == [] then []
    else
      var t := ts[|ts| - 1];
      SeededNodes(ts[..|ts| - 1], species, types, drawPos, drawQty) +
      ThemedOf(t, ThemedPlan(species[t.id]), types, drawPos, drawQty)
  }

  /** For each node of `SeededNodes`, the index in `ts` of the territory it was made for. */
  function SeededHomes(ts: seq<Territory>, species: seq<string>, types: seq<ResourceType>): seq<nat>
    requires Seedable(ts, |species|)
    decreases |ts|
  {
    if ts == [] then []
    else
      var t := ts[|ts| - 1];
      SeededHomes(ts[..|ts| - 1], species, types) + seq(PlannedCount(ThemedPlan(species[t.id]), types), _ => |ts| - 1)
  }

  /** Every seeded node lies inside the territory it was made for, and is fresh with an existing type. */
  lemma {:induction false} SeededNodesAtHome(ts: seq<Territory>, species: seq<string>, types: seq<ResourceType>,
                                            drawPos: (nat, nat) -> (real, real), drawQty: (nat, nat) -> int)
    requires Seedable(ts, |species|)
    ensures var nodes := SeededNodes(ts, species, types, drawPos, drawQty);
      var homes := SeededHomes(ts, species, types);
      |homes| == |nodes| &&
      forall j :: 0 <= j < |nodes| ==> (homes[j] < |ts| &&
        InTerritory(ts[homes[j]], nodes[j].pos.x, nodes[j].pos.y) && Fresh(nodes[j], 20, 50) && OfSomeType(nodes[j], types))
    decreases |ts|
  {
    if ts != [] {
      var init := ts[..|ts| - 1];
      var t := ts[|ts| - 1];
      SeededNodesAtHome(init, species, types, drawPos, drawQty);
      var before := SeededNodes(init, species, types, drawPos, drawQty);
      var homesBefore := SeededHomes(init, species, types);
      var more := ThemedOf(t, ThemedPlan(species[t.id]), types, drawPos, drawQty);
      var nodes := before + more;
      var homes := homesBefore + seq(|more|, _ => |ts| - 1);
      forall j | 0 <= j < |nodes|
        ensures homes[j] < |ts| &&
          InTerritory(ts[homes[j]], nodes[j].pos.x, nodes[j].pos.y) && Fresh(nodes[j], 20, 50) && OfSomeType(nodes[j], types)
      {
        if j < |before| {
          assert nodes[j] == before[j] && homes[j] == homesBefore[j];
          assert ts[homes[j]] == init[homes[j]];
        } else {
          assert nodes[j] == more[j - |before|] && homes[j] == |ts| - 1;
          assert nodes[j] in more;
        }
      }
    }
  }

  /** Seeding one more territory appends its themed nodes, all homed at its index. */
  lemma SeededSnoc(ts: seq<Territory>, t: Territory, species: seq<string>, types: seq<ResourceType>,
                   drawPos: (nat, nat) -> (real, real), drawQty: (nat, nat) -> int)
    requires Seedable(ts + [t], |species|)
    ensures Seedable(ts, |species|) && Proper(t) && 0 <= t.id < |species|
    ensures SeededNodes(ts + [t], species, types, drawPos, drawQty) ==
      SeededNodes(ts, species, types, drawPos, drawQty) + ThemedOf(t, ThemedPlan(species[t.id]), types, drawPos, drawQty)
    ensures SeededHomes(ts + [t], species, types) ==
      SeededHomes(ts, species, types) + seq(PlannedCount(ThemedPlan(species[t.id]), types), _ => |ts|)
  {
    assert (ts + [t])[..|ts|] == ts && (ts + [t])[|ts|] == t;
    assert forall i :: 0 <= i < |ts| ==> (ts + [t])[i] == ts[i];
  }

  /** `ThemedNodes` for territory `t`, fed with the draws `(t.id, j)` of the clan that owns it. */
  method ClanThemedNodes(t: Territory, plan: seq<(string, nat)>, types: seq<ResourceType>,
                         drawPos: (nat, nat) -> (real, real), drawQty: (nat, nat) -> int)
    returns (nodes: seq<ResourceNode>)
    requires Proper(t) && 0 <= t.id
    ensures nodes == ThemedOf(t, plan, types, drawPos, drawQty)
  {
    var c: nat := t.id;
    nodes := ThemedNodes(t, plan, types, (j: nat) => drawPos(c, j), (j: nat) => drawQty(c, j));
  }

  /** The clans' territories have the ids of clans that exist, so each has a species name. */
  lemma PlacedSeedable(ts: seq<Territory>, clans: seq<ClanId>, species: seq<string>, draw: (nat, nat) -> (int, int), c: nat)
    requires |species| == |clans| && PlacedSoFar(ts, clans, draw, c)
    ensures Seedable(ts, |species|)
  {
    forall i | 0 <= i < |ts|
      ensures Proper(ts[i]) && 0 <= ts[i].id < |species|
    {
    }
  }

  /**
   * After the first `c` clans: the territories are those of `PlaceAll`, and the themed
   * nodes and their homes are those of `SeededNodes` and `SeededHomes`.
   */
  predicate SeededSoFar(ts: seq<Territory>, nodes: seq<ResourceNode>, homes: seq<nat>,
                        clans: seq<ClanId>, species: seq<string>, types: seq<ResourceType>,
                        draw: (nat, nat) -> (int, int), drawPos: (nat, nat) -> (real, real), drawQty: (nat, nat) -> int, c: nat)
  {
    |species| == |clans| && PlacedSoFar(ts, clans, draw, c) && Seedable(ts, |species|) &&
    nodes == SeededNodes(ts, species, types, drawPos, drawQty) && homes == SeededHomes(ts, species, types)
  }

  /**
   * One iteration of the clan loop: clan `c` is placed as `PlaceClan` does; a clan left
   * without a territory is skipped, and a placed clan gets the themed nodes of its
   * species name's plan inside its new territory, made from draws `(c, j)`.
   */
  method SeedClan(clans: seq<ClanId>, species: seq<string>, types: seq<ResourceType>,
                  draw: (nat, nat) -> (int, int), drawPos: (nat, nat) -> (real, real), drawQty: (nat, nat) -> int,
                  c: nat, ts: seq<Territory>, nodes: seq<ResourceNode>, homes: seq<nat>)
    returns (ts': seq<Territory>, nodes': seq<ResourceNode>, homes': seq<nat>)
    requires c < |clans| && SeededSoFar(ts, nodes, homes, clans, species, types, draw, drawPos, drawQty, c)
    ensures SeededSoFar(ts', nodes', homes', clans, species, types, draw, drawPos, drawQty, c + 1)
  {
    var placed;
    ts', placed := PlaceClan(clans, draw, c, ts);
    PlacedSeedable(ts', clans, species, draw, c + 1);
    if !placed {
      return ts', nodes, homes;
    }
    var t := ts'[|ts|];
    var plan := ThemedPlan(species[c]);
    var more := ClanThemedNodes(t, plan, types, drawPos, drawQty);
    assert ts' == ts + [t];
    SeededSnoc(ts, t, species, types, drawPos, drawQty);
    nodes' := nodes + more;
    homes' := homes + seq(|more|, _ => |ts|);
  }

  /**
   * The loop over the created clans (`for spec_id, clan_info in created_clans.items()`):
   * the territories are those `PlaceAll` specifies, and every themed node lies inside the
   * territory of the clan it was made for, so a clan left without a territory owns none.
   * `homes[j]` is the index in `ts` of the territory node `j` was made for.
   */
  method SeedClans(clans: seq<ClanId>, species: seq<string>, types: seq<ResourceType>,
                   draw: (nat, nat) -> (int, int), drawPos: (nat, nat) -> (real, real), drawQty: (nat, nat) -> int)
    returns (ts: seq<Territory>, nodes: seq<ResourceNode>, homes: seq<nat>)
    requires |species| == |clans|
    ensures ts == PlaceAll(clans, draw, |clans|) && PairwiseDisjoint(ts)
    ensures OwnedByPosition(ts, clans, |clans|) && IdsIncrease(ts)
    ensures Seedable(ts, |species|) && nodes == SeededNodes(ts, species, types, drawPos, drawQty)
    ensures |homes| == |nodes|
    ensures forall j :: 0 <= j < |nodes| ==> (homes[j] < |ts| &&
      ts[homes[j]].owner == Some(clans[ts[homes[j]].id]) &&
      InTerritory(ts[homes[j]], nodes[j].pos.x, nodes[j].pos.y) && Fresh(nodes[j], 20, 50) && OfSomeType(nodes[j], types))
    ensures forall c, j :: 0 <= c < |clans| && NotPlaced(ts, c) && 0 <= j < |nodes| ==> ts[homes[j]].id != c
  {
    ts, nodes, homes := [], [], [];
    for c := 0 to |clans|
      invariant SeededSoFar(ts, nodes, homes, clans, species, types, draw, drawPos, drawQty, c)
    {
      ts, nodes, homes := SeedClan(clans, species, types, draw, drawPos, drawQty, c, ts, nodes, homes);
    }
    SeededNodesAtHome(ts, species, types, drawPos, drawQty);
  }

  /** The first of the attempts `k, …, 99` of generic node `i` that falls outside every territory. */
  function FirstOutside(ts: seq<Territory>, drawPoint: (nat, nat) -> (real, real), i: nat, k: nat): (r: Option<Pos>)
    ensures r.Some? ==> !Spatial.PointInAnyTerritory(r.value.x, r.value.y, ts)
    ensures r.Some? ==> InMap(r.value, MAP_WIDTH as real, MAP_HEIGHT as real)
    decreases PLACEMENT_ATTEMPTS - k
  {
    if k >= PLACEMENT_ATTEMPTS then None
    else
      var p := MapPoint(drawPoint(i, k));
      if !Spatial.PointInAnyTerritory(p.x, p.y, ts) then Some(p) else FirstOutside(ts, drawPoint, i, k + 1)
  }

  /** A generic node is skipped only when every one of its remaining attempts fell inside some territory. */
  lemma {:induction false} NoPointOutsideMeansAllInside(ts: seq<Territory>, drawPoint: (nat, nat) -> (real, real), i: nat, k: nat)
    requires FirstOutside(ts, drawPoint, i, k).None?
    ensures forall a :: k <= a < PLACEMENT_ATTEMPTS ==>
      Spatial.PointInAnyTerritory(MapPoint(drawPoint(i, a)).x, MapPoint(drawPoint(i, a)).y, ts)
    decreases PLACEMENT_ATTEMPTS - k
  {
    if k < PLACEMENT_ATTEMPTS {
      NoPointOutsideMeansAllInside(ts, drawPoint, i, k + 1);
    }
  }

  /** `(random.uniform(0, MAP_WIDTH), random.uniform(0, MAP_HEIGHT))`. */
  function MapPoint(raw: (real, real)): (p: Pos)
    ensures InMap(p, MAP_WIDTH as real, MAP_HEIGHT as real)
  {
    Pos(Uniform(0.0, MAP_WIDTH as real, raw.0), Uniform(0.0, MAP_HEIGHT as real, raw.1))
  }

  /** The positions of the generic nodes of the first `n` iterations, in order. */
  function GenericPositions(ts: seq<Territory>, drawPoint: (nat, nat) -> (real, real), n: nat): (ps: seq<Pos>)
    ensures |ps| <= n
  {
    if n == 0 then []
    else
      var prev := GenericPositions(ts, drawPoint, n - 1);
      match FirstOutside(ts, drawPoint, n - 1, 0)
      case None => prev
      case Some(p) => prev + [p]
  }

  function PositionsOf(nodes: seq<ResourceNode>): seq<Pos>
  {
    if nodes == [] then [] else PositionsOf(nodes[..|nodes| - 1]) + [nodes[|nodes| - 1].pos]
  }

  lemma PositionsOfSnoc(nodes: seq<ResourceNode>, node: ResourceNode)
    ensures PositionsOf(nodes + [node]) == PositionsOf(nodes) + [node.pos]
  {
    assert (nodes + [node])[..|nodes|] == nodes;
  }

  /** A generic node lies on the map outside every territory, holds 15 to 40 units and has one of the types. */
  predicate IsGenericNode(n: ResourceNode, ts: seq<Territory>, types: seq<ResourceType>)
  {
    !Spatial.PointInAnyTerritory(n.pos.x, n.pos.y, ts) && InMap(n.pos, MAP_WIDTH as real, MAP_HEIGHT as real) &&
    Fresh(n, 15, 40) && OfSomeType(n, types)
  }

  /** The nodes of the first `i` generic iterations: at the positions `GenericPositions` gives, each a generic node. */
  predicate GenericSoFar(nodes: seq<ResourceNode>, ts: seq<Territory>, types: seq<ResourceType>,
                         drawPoint: (nat, nat) -> (real, real), i: nat)
  {
    PositionsOf(nodes) == GenericPositions(ts, drawPoint, i) && |nodes| <= i &&
    forall n :: n in nodes ==> IsGenericNode(n, ts, types)
  }

  /** Iteration `i` of the generic loop: the first attempt outside every territory yields a node. */
  method PlaceGenericNode(ts: seq<Territory>, types: seq<ResourceType>,
                          drawPoint: (nat, nat) -> (real, real), drawType: nat -> int, drawQty: nat -> int,
                          i: nat, nodes: seq<ResourceNode>)
    returns (nodes': seq<ResourceNode>)
    requires types != [] && GenericSoFar(nodes, ts, types, drawPoint, i)
    ensures GenericSoFar(nodes', ts, types, drawPoint, i + 1)
  {
    var found := TryOutside(ts, drawPoint, i);
    if found.Some? {
      var node := GenericNode(types, found.value, drawType(i), drawQty(i));
      PositionsOfSnoc(nodes, node);
      nodes' := nodes + [node];
    } else {
      nodes' := nodes;
    }
  }

  /**
   * The generic nodes: when resource types exist, 50 iterations of up to 100 attempts
   * each, keeping the first point outside every territory with a random type and
   * `randint(15, 40)` units.
   */
  method GenericNodes(ts: seq<Territory>, types: seq<ResourceType>,
                      drawPoint: (nat, nat) -> (real, real), drawType: nat -> int, drawQty: nat -> int)
    returns (nodes: seq<ResourceNode>)
    ensures types == [] ==> nodes == []
    ensures types != [] ==> PositionsOf(nodes) == GenericPositions(ts, drawPoint, NUM_GENERIC_RESOURCES)
    ensures |nodes| <= NUM_GENERIC_RESOURCES
    ensures forall n :: n in nodes ==> IsGenericNode(n, ts, types)
  {
    nodes := [];
    if types == [] {
      return;
    }
    for i := 0 to NUM_GENERIC_RESOURCES
      invariant GenericSoFar(nodes, ts, types, drawPoint, i)
    {
      nodes := PlaceGenericNode(ts, types, drawPoint, drawType, drawQty, i, nodes);
    }
  }

  /** A generic node at `p`: its type is `random.choice(types)`, its quantity `randint(15, 40)`. */
  function GenericNode(types: seq<ResourceType>, p: Pos, typeDraw: int, qtyDraw: int): (n: ResourceNode)
    requires types != []
    ensures n.pos == p && Fresh(n, 15, 40) && OfSomeType(n, types)
  {
    var j := RandInt(0, |types| - 1, typeDraw);
    var n := NewNode(types[j], p, RandInt(15, 40, qtyDraw));
    assert n.resourceType == types[j].id && n.category == Some(types[j].category);
    n
  }

  /** The attempts loop of one generic node, left at the first point outside every territory. */
  method TryOutside(ts: seq<Territory>, drawPoint: (nat, nat) -> (real, real), i: nat) returns (r: Option<Pos>)
    ensures r == FirstOutside(ts, drawPoint, i, 0)
  {
    for k := 0 to PLACEMENT_ATTEMPTS
      invariant FirstOutside(ts, drawPoint, i, 0) == FirstOutside(ts, drawPoint, i, k)
    {
      var p := MapPoint(drawPoint(i, k));
      if !Spatial.PointInAnyTerritory(p.x, p.y, ts) {
        return Some(p);
      }
    }
    return None;
  }

  // ---------------------------------------------------------------------------
  // Lifespan
  // ---------------------------------------------------------------------------

  /** `SPECIES_LIFESPAN_YEARS.get(species, 70)` on the lower-cased species name. */
  function LifespanYears(species: string): Option<nat>
  {
    if species in SPECIES_LIFESPAN_YEARS then SPECIES_LIFESPAN_YEARS[species] else Some(70)
  }

  /**
   * The window `[int(avg * 0.8), int(avg * 1.2)]` around the average death age
   * `avg = years * TICKS_PER_YEAR`, or `None` when the lifespan is missing or zero.
   */
  function DeathAgeWindow(species: string): (w: Option<(int, int)>)
    ensures w.None? <==> LifespanYears(species) == None || LifespanYears(species) == Some(0)
    ensures w.Some? ==> var avg := LifespanYears(species).value * TICKS_PER_YEAR;
      0 < w.value.0 <= avg <= w.value.1 &&
      5 * w.value.0 <= 4 * avg < 5 * w.value.0 + 5 &&
      5 * w.value.1 <= 6 * avg < 5 * w.value.1 + 5
  {
    match LifespanYears(species)
    case None => None
    case Some(years) =>
      if years == 0 then None
      else
        var avg := years * TICKS_PER_YEAR;
        Some(((avg * 4) / 5, (avg * 6) / 5))
  }

  /** `death_age_in_ticks`: a draw from the window, or `None` for an immortal species. */
  function DeathAgeInTicks(species: string, draw: int): (age: Option<int>)
    ensures age.None? <==> DeathAgeWindow(species).None?
    ensures age.Some? ==> DeathAgeWindow(species).value.0 <= age.value <= DeathAgeWindow(species).value.1
  {
    match DeathAgeWindow(species)
    case None => None
    case Some(w) => Some(RandInt(w.0, w.1, draw))
  }

  /** Zombies never die of age; an unknown species lives 70 years, 728 to 1092 ticks. */
  lemma LifespanExamples(unknown: string)
    requires unknown !in SPECIES_LIFESPAN_YEARS
    ensures DeathAgeWindow("zumbi") == None
    ensures DeathAgeWindow(unknown) == Some((728, 1092))
    ensures DeathAgeWindow("humano") == Some((936, 1404))
  {
    assert "zumbi" in SPECIES_LIFESPAN_YEARS;
    assert "humano" in SPECIES_LIFESPAN_YEARS;
  }
}
