/**
 * Spatial helpers of app/simulation/simulation_utils.py and app/routes/worlds.py:
 * nearest-entity searches, territory containment, movement toward / away from a point
 * with clamping to the map, random wandering and the centre of a group.
 *
 * `math.hypot` is not modelled: wherever the source normalises a direction, the
 * Euclidean length is an input (`distance`), and only the clamping, the stop rule and
 * squared-distance comparisons are stated.
 */
module Spatial {
  import opened Wrappers
  import opened Domain
  import opened Constants
  import opened Relationships

  // ---------------------------------------------------------------------------
  // Argmin with first-wins ties, the shape of every nearest search in the source
  // ---------------------------------------------------------------------------

  /** Index `i` holds an eligible element of `xs[..n]` of least key, and no earlier eligible element ties it. */
  ghost predicate IsFirstMinimum<T>(xs: seq<T>, ok: T -> bool, key: T -> real, n: nat, i: nat)
  {
    i < n <= |xs| && ok(xs[i]) &&
    (forall j :: 0 <= j < n && ok(xs[j]) ==> key(xs[i]) <= key(xs[j])) &&
    (forall j :: 0 <= j < i && ok(xs[j]) ==> key(xs[i]) < key(xs[j]))
  }

  /**
   * The result of scanning `xs[..n]` left to right, keeping the eligible element whose key
   * is strictly below the best so far (the `if dist_sq < min_dist_sq` update).
   */
  function ScanNearest<T>(xs: seq<T>, ok: T -> bool, key: T -> real, n: nat): (r: Option<nat>)
    requires n <= |xs|
    ensures r.None? <==> (forall j :: 0 <= j < n ==> !ok(xs[j]))
    ensures r.Some? ==> IsFirstMinimum(xs, ok, key, n, r.value)
    decreases n
  {
    if n == 0 then None
    else
      var r := ScanNearest(xs, ok, key, n - 1);
      if ok(xs[n - 1]) && (r.None? || key(xs[n - 1]) < key(xs[r.value])) then Some(n - 1) else r
  }

  /** One more element of the scan: it becomes the answer only when eligible and strictly nearer. */
  lemma ScanNearestNext<T>(xs: seq<T>, ok: T -> bool, key: T -> real, n: nat)
    requires n < |xs|
    ensures var r := ScanNearest(xs, ok, key, n);
      ScanNearest(xs, ok, key, n + 1) == if ok(xs[n]) && (r.None? || key(xs[n]) < key(xs[r.value])) then Some(n) else r
  {
  }

  // ---------------------------------------------------------------------------
  // Resource nodes
  // ---------------------------------------------------------------------------

  /** `if resource_category:` an empty or missing category disables the filter. */
  predicate MatchesCategory(n: ResourceNode, category: Option<string>)
  {
    category.None? || category.value == [] || n.category == Some(category.value)
  }

  function CategoryFilter(category: Option<string>): ResourceNode -> bool
  {
    n => MatchesCategory(n, category)
  }

  /** The worlds.py variant also skips depleted nodes. */
  function UndepletedCategoryFilter(category: Option<string>): ResourceNode -> bool
  {
    (n: ResourceNode) => !n.depleted && MatchesCategory(n, category)
  }

  function NodeDistance(at: Pos): ResourceNode -> real
  {
    (n: ResourceNode) => DistSq(n.pos, at)
  }

  /**
   * `find_nearest_resource_node` of simulation_utils.py: the index of the node of the
   * requested category nearest to `at`, the first one on ties; `None` iff no node matches.
   */
  method FindNearestResourceNode(at: Pos, nodes: seq<ResourceNode>, category: Option<string>)
    returns (r: Option<nat>)
    ensures r == ScanNearest(nodes, CategoryFilter(category), NodeDistance(at), |nodes|)
    ensures r.None? <==> (forall j :: 0 <= j < |nodes| ==> !MatchesCategory(nodes[j], category))
    ensures r.Some? ==> r.value < |nodes| && MatchesCategory(nodes[r.value], category)
    ensures r.Some? ==> forall j :: 0 <= j < |nodes| && MatchesCategory(nodes[j], category) ==>
      DistSq(nodes[r.value].pos, at) <= DistSq(nodes[j].pos, at)
    ensures r.Some? ==> forall j :: 0 <= j < r.value && MatchesCategory(nodes[j], category) ==>
      DistSq(nodes[r.value].pos, at) < DistSq(nodes[j].pos, at)
  {
    r := None;
    var best := 0.0;
    for i := 0 to |nodes|
      invariant r == ScanNearest(nodes, CategoryFilter(category), NodeDistance(at), i)
      invariant r.Some? ==> r.value < i && best == DistSq(nodes[r.value].pos, at)
    {
      ScanNearestNext(nodes, CategoryFilter(category), NodeDistance(at), i);
      if !MatchesCategory(nodes[i], category) {
        continue;
      }
      var d := DistSq(nodes[i].pos, at);
      if r.None? || d < best {
        best := d;
        r := Some(i);
      }
    }
    NearestNodeFacts(at, nodes, category);
  }

  /** What the scan with the category filter promises, stated without the filter's closure. */
  lemma NearestNodeFacts(at: Pos, nodes: seq<ResourceNode>, category: Option<string>)
    ensures var r := ScanNearest(nodes, CategoryFilter(category), NodeDistance(at), |nodes|);
      (r.None? <==> (forall j :: 0 <= j < |nodes| ==> !MatchesCategory(nodes[j], category))) &&
      (r.Some? ==> r.value < |nodes| && MatchesCategory(nodes[r.value], category)) &&
      (r.Some? ==> forall j :: 0 <= j < |nodes| && MatchesCategory(nodes[j], category) ==>
        DistSq(nodes[r.value].pos, at) <= DistSq(nodes[j].pos, at)) &&
      (r.Some? ==> forall j :: 0 <= j < r.value && MatchesCategory(nodes[j], category) ==>
        DistSq(nodes[r.value].pos, at) < DistSq(nodes[j].pos, at))
  {
    assert forall j :: 0 <= j < |nodes| ==> CategoryFilter(category)(nodes[j]) == MatchesCategory(nodes[j], category);
  }

  /**
   * `find_nearest_resource_node` of worlds.py: as above, but depleted nodes are never
   * candidates, so the result is never a depleted node.
   */
  method FindNearestUndepletedNode(at: Pos, nodes: seq<ResourceNode>, category: Option<string>)
    returns (r: Option<nat>)
    ensures r == ScanNearest(nodes, UndepletedCategoryFilter(category), NodeDistance(at), |nodes|)
    ensures r.None? <==> (forall j :: 0 <= j < |nodes| ==> nodes[j].depleted || !MatchesCategory(nodes[j], category))
    ensures r.Some? ==> r.value < |nodes| && !nodes[r.value].depleted && MatchesCategory(nodes[r.value], category)
    ensures r.Some? ==> forall j :: 0 <= j < |nodes| && !nodes[j].depleted && MatchesCategory(nodes[j], category) ==>
      DistSq(nodes[r.value].pos, at) <= DistSq(nodes[j].pos, at)
  {
    r := None;
    var bestDistSq := 0.0;
    for i := 0 to |nodes|
      invariant r == ScanNearest(nodes, UndepletedCategoryFilter(category), NodeDistance(at), i)
      invariant r.Some? ==> r.value < i && bestDistSq == DistSq(nodes[r.value].pos, at)
    {
      ScanNearestNext(nodes, UndepletedCategoryFilter(category), NodeDistance(at), i);
      if nodes[i].depleted {
        continue;
      }
      if !MatchesCategory(nodes[i], category) {
        continue;
      }
      var d := DistSq(nodes[i].pos, at);
      if r.None? || d < bestDistSq {
        bestDistSq := d;
        r := Some(i);
      }
    }
    UndepletedNodeFacts(at, nodes, category);
  }

  /** What the scan with the undepleted-category filter promises, stated without the filter's closure. */
  lemma UndepletedNodeFacts(at: Pos, nodes: seq<ResourceNode>, category: Option<string>)
    ensures var r := ScanNearest(nodes, UndepletedCategoryFilter(category), NodeDistance(at), |nodes|);
      (r.None? <==> (forall j :: 0 <= j < |nodes| ==> nodes[j].depleted || !MatchesCategory(nodes[j], category))) &&
      (r.Some? ==> r.value < |nodes| && !nodes[r.value].depleted && MatchesCategory(nodes[r.value], category)) &&
      (r.Some? ==> forall j :: 0 <= j < |nodes| && !nodes[j].depleted && MatchesCategory(nodes[j], category) ==>
        DistSq(nodes[r.value].pos, at) <= DistSq(nodes[j].pos, at))
  {
    assert forall j :: 0 <= j < |nodes| ==>
      UndepletedCategoryFilter(category)(nodes[j]) == (!nodes[j].depleted && MatchesCategory(nodes[j], category));
  }

  // ---------------------------------------------------------------------------
  // Characters
  // ---------------------------------------------------------------------------

  /** Another character, in the requested relationship, strictly within vision range. */
  predicate IsCandidate(origin: Agent, rel: (Agent, Agent) -> Relation, want: Relation, a: Agent)
  {
    a.id != origin.id && rel(origin, a) == want &&
    DistSq(a.pos, origin.pos) < VISION_RANGE * VISION_RANGE
  }

  function CandidateFilter(origin: Agent, rel: (Agent, Agent) -> Relation, want: Relation): Agent -> bool
  {
    a => IsCandidate(origin, rel, want, a)
  }

  function AgentDistance(origin: Agent): Agent -> real
  {
    (a: Agent) => DistSq(a.pos, origin.pos)
  }

  /**
   * `find_nearest_character_by_relationship`: the search starts from VISION_RANGE squared,
   * so only characters strictly inside the vision radius can be returned; the origin
   * itself is skipped by id.
   */
  method FindNearestCharacterByRelationship(
    origin: Agent, agents: seq<Agent>, rel: (Agent, Agent) -> Relation, want: Relation)
    returns (r: Option<nat>)
    ensures r == ScanNearest(agents, CandidateFilter(origin, rel, want), AgentDistance(origin), |agents|)
    ensures r.Some? ==> r.value < |agents| && agents[r.value].id != origin.id
    ensures r.Some? ==> rel(origin, agents[r.value]) == want
    ensures r.Some? ==> DistSq(agents[r.value].pos, origin.pos) < VISION_RANGE * VISION_RANGE
    ensures r.None? <==> (forall j :: 0 <= j < |agents| ==> !IsCandidate(origin, rel, want, agents[j]))
  {
    r := None;
    var minDistSq := VISION_RANGE * VISION_RANGE;
    for i := 0 to |agents|
      invariant r == ScanNearest(agents, CandidateFilter(origin, rel, want), AgentDistance(origin), i)
      invariant r.None? ==> minDistSq == VISION_RANGE * VISION_RANGE
      invariant r.Some? ==> r.value < i && minDistSq == DistSq(agents[r.value].pos, origin.pos)
      invariant r.Some? ==> IsCandidate(origin, rel, want, agents[r.value])
    {
      ScanNearestNext(agents, CandidateFilter(origin, rel, want), AgentDistance(origin), i);
      if origin.id == agents[i].id {
        continue;
      }
      if rel(origin, agents[i]) == want {
        var d := DistSq(agents[i].pos, origin.pos);
        if d < minDistSq {
          minDistSq := d;
          r := Some(i);
        }
      }
    }
    CandidateFacts(origin, agents, rel, want);
  }

  /** The scan with the candidate filter finds nothing exactly when no character is a candidate. */
  lemma CandidateFacts(origin: Agent, agents: seq<Agent>, rel: (Agent, Agent) -> Relation, want: Relation)
    ensures var r := ScanNearest(agents, CandidateFilter(origin, rel, want), AgentDistance(origin), |agents|);
      (r.None? <==> (forall j :: 0 <= j < |agents| ==> !IsCandidate(origin, rel, want, agents[j]))) &&
      (r.Some? ==> r.value < |agents| && IsCandidate(origin, rel, want, agents[r.value]))
  {
    assert forall j :: 0 <= j < |agents| ==>
      CandidateFilter(origin, rel, want)(agents[j]) == IsCandidate(origin, rel, want, agents[j]);
  }

  // ---------------------------------------------------------------------------
  // Territories
  // ---------------------------------------------------------------------------

  /** `get_territory_at_position`: the index of the first territory containing (x, y), if any. */
  function TerritoryAt(ts: seq<Territory>, x: real, y: real): (r: Option<nat>)
    ensures r.None? <==> (forall j :: 0 <= j < |ts| ==> !InTerritory(ts[j], x, y))
    ensures r.Some? ==> r.value < |ts| && InTerritory(ts[r.value], x, y)
    ensures r.Some? ==> forall j :: 0 <= j < r.value ==> !InTerritory(ts[j], x, y)
  {
    if ts == [] then None
    else if InTerritory(ts[0], x, y) then Some(0)
    else
      match TerritoryAt(ts[1..], x, y)
      case None => None
      case Some(i) => Some(i + 1)
  }

  /** `is_point_in_any_territory` (worlds.py): some territory contains the point, borders included. */
  function PointInAnyTerritory(x: real, y: real, ts: seq<Territory>): (b: bool)
    ensures b <==> exists j :: 0 <= j < |ts| && InTerritory(ts[j], x, y)
  {
    if ts == [] then false
    else if InTerritory(ts[0], x, y) then true
    else
      var rest := PointInAnyTerritory(x, y, ts[1..]);
      assert forall j :: 1 <= j < |ts| ==> ts[j] == ts[1..][j - 1];
      rest
  }

  /** The two containment helpers agree: a point is in some territory iff a territory is found at it. */
  lemma TerritoryLookupsAgree(ts: seq<Territory>, x: real, y: real)
    ensures PointInAnyTerritory(x, y, ts) <==> TerritoryAt(ts, x, y).Some?
  {
  }

  // ---------------------------------------------------------------------------
  // Movement
  // ---------------------------------------------------------------------------

  /** Outcome of `move_towards_position`: whether it moved, and the new position. */
  datatype Step = Step(moved: bool, pos: Pos)

  /** `min(MOVE_SPEED, distance - stop_distance)`: never overshoots the stop distance. */
  function StepLength(distance: real, stop: real): (step: real)
    ensures step <= MOVE_SPEED && step <= distance - stop
    ensures step == MOVE_SPEED || step == distance - stop
  {
    var remain := distance - stop;
    if MOVE_SPEED <= remain then MOVE_SPEED else remain
  }

  /** The point `step` along the direction from `from` to `to`, whose length is `distance`. */
  function Toward(from: Pos, to: Pos, distance: real, step: real): Pos
    requires distance != 0.0
  {
    Pos(from.x + (to.x - from.x) / distance * step, from.y + (to.y - from.y) / distance * step)
  }

  /**
   * `move_towards_position` (both copies): no move when already within `stop` (or on top
   * of the target), otherwise a step of `StepLength` toward the target, clamped to the map.
   * `distance` is `math.hypot` of the offset.
   */
  function MoveTowards(from: Pos, to: Pos, width: real, height: real, stop: real, distance: real): (s: Step)
    ensures !s.moved <==> (distance <= stop || distance == 0.0)
    ensures !s.moved ==> s.pos == from
    ensures s.moved && 0.0 <= width && 0.0 <= height ==> InMap(s.pos, width, height)
    ensures s.moved ==> s.pos == ClampToMap(Toward(from, to, distance, StepLength(distance, stop)), width, height)
  {
    if distance <= stop || distance == 0.0 then Step(false, from)
    else Step(true, ClampToMap(Toward(from, to, distance, StepLength(distance, stop)), width, height))
  }

  /**
   * Before clamping, a move covers exactly `step` (at most MOVE_SPEED) and leaves the mover
   * `distance - step` from the target, which is never below the stop distance.
   */
  lemma {:induction false} MoveTowardsNoOvershoot(from: Pos, to: Pos, stop: real, distance: real)
    requires 0.0 <= stop < distance
    requires distance * distance == DistSq(to, from)
    ensures var step := StepLength(distance, stop);
      var p := Toward(from, to, distance, step);
      0.0 < step <= MOVE_SPEED &&
      DistSq(p, from) == step * step &&
      DistSq(to, p) == (distance - step) * (distance - step) &&
      distance - step >= stop
  {
    var step := StepLength(distance, stop);
    var p := Toward(from, to, distance, step);
    var k := step / distance;
    var dx, dy := to.x - from.x, to.y - from.y;
    DivScale(dx, distance, step);
    DivScale(dy, distance, step);
    assert p.x - from.x == k * dx && p.y - from.y == k * dy;
    assert to.x - p.x == (1.0 - k) * dx && to.y - p.y == (1.0 - k) * dy;
    ScaledSq(dx, dy, k, distance);
    ScaledSq(dx, dy, 1.0 - k, distance);
    assert (1.0 - k) * distance == distance - step;
  }

  lemma DivScale(v: real, d: real, step: real)
    requires d != 0.0
    ensures v / d * step == (step / d) * v && (step / d) * d == step
  {
  }

  /** Scaling both legs of a right triangle by `k` scales its hypotenuse by `k`. */
  lemma ScaledSq(a: real, b: real, k: real, d: real)
    requires d * d == a * a + b * b
    ensures (k * a) * (k * a) + (k * b) * (k * b) == (k * d) * (k * d)
  {
    calc {
      (k * a) * (k * a) + (k * b) * (k * b);
      k * k * (a * a + b * b);
      k * k * (d * d);
      (k * d) * (k * d);
    }
  }

  /**
   * `move_away_from_target`: a MOVE_SPEED step directly away from the target, clamped to
   * the map; on an exact overlap the direction is the random `jitter` (length
   * `jitterDistance`), and when that is zero too the position is returned unchanged.
   */
  function MoveAway(from: Pos, target: Pos, width: real, height: real,
                    distance: real, jitter: Pos, jitterDistance: real): (p: Pos)
    ensures 0.0 <= width && 0.0 <= height ==> p == from || InMap(p, width, height)
    ensures 0.0 <= width && 0.0 <= height && InMap(from, width, height) ==> InMap(p, width, height)
    ensures distance != 0.0 ==> p == ClampToMap(Toward(from, Pos(2.0 * from.x - target.x, 2.0 * from.y - target.y), distance, MOVE_SPEED), width, height)
  {
    if distance == 0.0 then
      if jitterDistance == 0.0 then from
      else ClampToMap(Pos(from.x + jitter.x / jitterDistance * MOVE_SPEED,
                          from.y + jitter.y / jitterDistance * MOVE_SPEED), width, height)
    else
      ClampToMap(Pos(from.x + (from.x - target.x) / distance * MOVE_SPEED,
                     from.y + (from.y - target.y) / distance * MOVE_SPEED), width, height)
  }

  /** `max(0.1, MOVE_SPEED / 2.0)`: the largest random offset per axis while wandering. */
  const WANDER_MAX_STEP: real := if 0.1 >= MOVE_SPEED / 2.0 then 0.1 else MOVE_SPEED / 2.0

  /** `process_wandering_state`: the random offset (dx, dy) added and the result clamped. */
  function Wander(from: Pos, width: real, height: real, dx: real, dy: real): (p: Pos)
    ensures 0.0 <= width && 0.0 <= height ==> InMap(p, width, height)
  {
    ClampToMap(Pos(from.x + dx, from.y + dy), width, height)
  }

  /** Clamping a coordinate moved from inside the map never takes it further than it moved. */
  lemma ClampStaysBetween(start: real, v: real, hi: real)
    requires 0.0 <= start <= hi
    ensures (start <= v ==> start <= Clamp(v, hi) <= v) && (v <= start ==> v <= Clamp(v, hi) <= start)
  {
  }

  /** From inside the map, a wander step with offsets drawn from [-WANDER_MAX_STEP, WANDER_MAX_STEP] moves at most that far per axis. */
  lemma WanderStaysNear(from: Pos, width: real, height: real, dx: real, dy: real)
    requires InMap(from, width, height)
    requires -WANDER_MAX_STEP <= dx <= WANDER_MAX_STEP && -WANDER_MAX_STEP <= dy <= WANDER_MAX_STEP
    ensures var p := Wander(from, width, height, dx, dy);
      -WANDER_MAX_STEP <= p.x - from.x <= WANDER_MAX_STEP &&
      -WANDER_MAX_STEP <= p.y - from.y <= WANDER_MAX_STEP
  {
    ClampStaysBetween(from.x, from.x + dx, width);
    ClampStaysBetween(from.y, from.y + dy, height);
  }

  // ---------------------------------------------------------------------------
  // Group centre
  // ---------------------------------------------------------------------------

  function SumX(ps: seq<Pos>): real
  {
    if ps == [] then 0.0 else ps[0].x + SumX(ps[1..])
  }

  function SumY(ps: seq<Pos>): real
  {
    if ps == [] then 0.0 else ps[0].y + SumY(ps[1..])
  }

  /**
   * `find_group_center`: the mean of the origin's and the allies' positions, or `None`
   * when the origin is alone.
   */
  function GroupCenter(origin: Pos, allies: seq<Pos>): (c: Option<Pos>)
    ensures c.None? <==> allies == []
  {
    var ps := [origin] + allies;
    if |ps| <= 1 then None
    else Some(Pos(SumX(ps) / (|ps| as real), SumY(ps) / (|ps| as real)))
  }

  predicate InBox(p: Pos, lo: Pos, hi: Pos)
  {
    lo.x <= p.x <= hi.x && lo.y <= p.y <= hi.y
  }

  /** `k` copies of `v` added up, which is `k * v` without a product of two unknowns. */
  function Times(k: nat, v: real): real
  {
    if k == 0 then 0.0 else v + Times(k - 1, v)
  }

  lemma {:induction false} TimesIsProduct(k: nat, v: real)
    ensures Times(k, v) == (k as real) * v
  {
    if k > 0 {
      TimesIsProduct(k - 1, v);
    }
  }

  lemma {:induction false} SumsInBox(ps: seq<Pos>, lo: Pos, hi: Pos)
    requires forall i :: 0 <= i < |ps| ==> InBox(ps[i], lo, hi)
    ensures Times(|ps|, lo.x) <= SumX(ps) <= Times(|ps|, hi.x)
    ensures Times(|ps|, lo.y) <= SumY(ps) <= Times(|ps|, hi.y)
  {
    if ps != [] {
      assert InBox(ps[0], lo, hi);
      SumsInBox(ps[1..], lo, hi);
    }
  }

  /** The centre of a group lies in every axis-aligned box containing all its members. */
  lemma GroupCenterInBox(origin: Pos, allies: seq<Pos>, lo: Pos, hi: Pos)
    requires allies != []
    requires InBox(origin, lo, hi)
    requires forall i :: 0 <= i < |allies| ==> InBox(allies[i], lo, hi)
    ensures InBox(GroupCenter(origin, allies).value, lo, hi)
  {
    var ps := [origin] + allies;
    MembersInBox(origin, allies, lo, hi);
    SumsInBox(ps, lo, hi);
    var sx, sy := SumX(ps), SumY(ps);
    MeanBounds(sx, |ps|, lo.x, hi.x);
    MeanBounds(sy, |ps|, lo.y, hi.y);
    assert GroupCenter(origin, allies) == Some(Pos(sx / (|ps| as real), sy / (|ps| as real)));
  }

  lemma MembersInBox(origin: Pos, allies: seq<Pos>, lo: Pos, hi: Pos)
    requires InBox(origin, lo, hi)
    requires forall i :: 0 <= i < |allies| ==> InBox(allies[i], lo, hi)
    ensures forall i :: 0 <= i < |[origin] + allies| ==> InBox(([origin] + allies)[i], lo, hi)
  {
    var ps := [origin] + allies;
    forall i | 0 <= i < |ps| ensures InBox(ps[i], lo, hi) {
      if i > 0 { assert ps[i] == allies[i - 1]; }
    }
  }

  /** A sum of `k` terms between `lo` and `hi` has its mean between them. */
  lemma MeanBounds(s: real, k: nat, lo: real, hi: real)
    requires k > 0 && Times(k, lo) <= s <= Times(k, hi)
    ensures lo <= s / (k as real) <= hi
  {
    TimesIsProduct(k, lo);
    TimesIsProduct(k, hi);
    var n := k as real;
    assert s / n * n == s;
  }

}
