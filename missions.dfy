/**
 * The mission tracker `check_and_update_mission_progress` of
 * app/simulation/simulation_utils.py. Each active mission of a world is walked objective
 * by objective: completed objectives are skipped, a GATHER_RESOURCE objective records the
 * clan's total of the target resource as its progress and completes once that total
 * reaches the target quantity, a CONQUER_TERRITORY objective completes once the clan owns
 * the territory, and the mission becomes CONCLUÍDA when every objective is complete.
 *
 * The two database reads are inputs: `Holdings.totals` is the result of the inventory
 * aggregate (a clan and resource with no matching inventory entry total 0), and
 * `Holdings.owners` the owner of each territory.
 */
module Missions {
  import opened Wrappers
  import opened Domain

  datatype ObjectiveKind = GatherResource | ConquerTerritory | DefeatCharacter

  datatype Objective = Objective(
    kind: ObjectiveKind,
    targetResource: Option<ResourceTypeId>,
    targetTerritory: Option<TerritoryId>,
    targetQuantity: Option<int>,
    isComplete: bool,
    progress: Option<int>)

  /** ATIVA, CONCLUÍDA and FALHOU. */
  datatype MissionStatus = Active | Completed | Failed

  datatype Mission = Mission(worldId: int, assignee: ClanId, status: MissionStatus, objectives: seq<Objective>)

  /** What the two database queries of the tracker answer. */
  datatype Holdings = Holdings(
    totals: map<(ClanId, Option<ResourceTypeId>), int>,
    owners: map<TerritoryId, Option<ClanId>>)

  /** The aggregate's `total`, or 0 when the aggregate matched no inventory entry. */
  function ClanTotal(h: Holdings, clan: ClanId, resource: Option<ResourceTypeId>): int
  {
    if (clan, resource) in h.totals then h.totals[(clan, resource)] else 0
  }

  /** The territory lookup by id and owner found a document. */
  predicate OwnsTerritory(h: Holdings, clan: ClanId, territory: Option<TerritoryId>)
  {
    territory.Some? && territory.value in h.owners && h.owners[territory.value] == Some(clan)
  }

  /**
   * One objective after the tracker has looked at it, as stored: a missing target
   * quantity compares as infinity, so such a gather objective never completes.
   */
  function EvaluateObjective(o: Objective, clan: ClanId, h: Holdings): (r: Objective)
    ensures o.isComplete ==> r == o
    ensures r.kind == o.kind && r.targetResource == o.targetResource
    ensures r.targetTerritory == o.targetTerritory && r.targetQuantity == o.targetQuantity
    ensures !o.isComplete && o.kind == GatherResource ==>
      r.progress == Some(ClanTotal(h, clan, o.targetResource)) &&
      (r.isComplete <==> o.targetQuantity.Some? && ClanTotal(h, clan, o.targetResource) >= o.targetQuantity.value)
    ensures !o.isComplete && o.kind == ConquerTerritory ==>
      r.progress == o.progress && (r.isComplete <==> OwnsTerritory(h, clan, o.targetTerritory))
    ensures o.kind == DefeatCharacter ==> r == o
  {
    if o.isComplete then o
    else match o.kind
      case GatherResource =>
        var total := ClanTotal(h, clan, o.targetResource);
        o.(progress := Some(total), isComplete := o.targetQuantity.Some? && total >= o.targetQuantity.value)
      case ConquerTerritory =>
        o.(isComplete := OwnsTerritory(h, clan, o.targetTerritory))
      case DefeatCharacter => o
  }

  predicate AllComplete(os: seq<Objective>)
  {
    forall i :: 0 <= i < |os| ==> os[i].isComplete
  }

  /** The mission as stored after one pass of the tracker over it. */
  function UpdatedMission(m: Mission, h: Holdings): (r: Mission)
    ensures r.worldId == m.worldId && r.assignee == m.assignee
    ensures |r.objectives| == |m.objectives|
    ensures forall i :: 0 <= i < |m.objectives| ==> r.objectives[i] == EvaluateObjective(m.objectives[i], m.assignee, h)
    ensures r.status == (if AllComplete(r.objectives) then Completed else m.status)
  {
    var os := seq(|m.objectives|, i requires 0 <= i < |m.objectives| => EvaluateObjective(m.objectives[i], m.assignee, h));
    m.(objectives := os, status := if AllComplete(os) then Completed else m.status)
  }

  /**
   * The loop over one mission's objectives, with the `all_objectives_complete` flag
   * cleared by the first objective still incomplete after its evaluation.
   */
  method UpdateMission(m: Mission, h: Holdings) returns (r: Mission)
    ensures r == UpdatedMission(m, h)
  {
    var allComplete := true;
    var os := m.objectives;
    for i := 0 to |os|
      invariant |os| == |m.objectives|
      invariant forall j :: 0 <= j < i ==> os[j] == EvaluateObjective(m.objectives[j], m.assignee, h)
      invariant forall j :: i <= j < |os| ==> os[j] == m.objectives[j]
      invariant allComplete <==> forall j :: 0 <= j < i ==> os[j].isComplete
    {
      var o := os[i];
      if o.isComplete {
        continue;
      }
      var now := false;
      if o.kind == GatherResource {
        var total := ClanTotal(h, m.assignee, o.targetResource);
        o := o.(progress := Some(total));
        if o.targetQuantity.Some? && total >= o.targetQuantity.value {
          now := true;
        }
      } else if o.kind == ConquerTerritory {
        if OwnsTerritory(h, m.assignee, o.targetTerritory) {
          now := true;
        }
      }
      if now {
        o := o.(isComplete := true);
      }
      os := os[i := o];
      if !o.isComplete {
        allComplete := false;
      }
    }
    r := m.(objectives := os);
    if allComplete {
      r := r.(status := Completed);
    }
  }

  /** A mission the query `{"world_id": w, "status": "ATIVA"}` selects. */
  predicate Selected(m: Mission, worldId: int)
  {
    m.worldId == worldId && m.status == Active
  }

  /** All missions of the collection after the tracker ran for `worldId`. */
  function TrackedMissions(ms: seq<Mission>, worldId: int, h: Holdings): (r: seq<Mission>)
    ensures |r| == |ms|
    ensures forall i :: 0 <= i < |ms| ==> r[i] == if Selected(ms[i], worldId) then UpdatedMission(ms[i], h) else ms[i]
  {
    seq(|ms|, i requires 0 <= i < |ms| => if Selected(ms[i], worldId) then UpdatedMission(ms[i], h) else ms[i])
  }

  /** The outer loop over the world's active missions. */
  method TrackMissions(ms: seq<Mission>, worldId: int, h: Holdings) returns (r: seq<Mission>)
    ensures r == TrackedMissions(ms, worldId, h)
  {
    r := ms;
    for k := 0 to |ms|
      invariant |r| == |ms|
      invariant forall j :: 0 <= j < k ==> r[j] == if Selected(ms[j], worldId) then UpdatedMission(ms[j], h) else ms[j]
      invariant forall j :: k <= j < |ms| ==> r[j] == ms[j]
    {
      if Selected(ms[k], worldId) {
        var updated := UpdateMission(ms[k], h);
        r := r[k := updated];
      }
    }
  }

  /**
   * After the pass a selected mission is CONCLUÍDA exactly when every objective is
   * complete, and otherwise still ATIVA; missions of other worlds or statuses are untouched.
   */
  lemma TrackedStatus(ms: seq<Mission>, worldId: int, h: Holdings, i: int)
    requires 0 <= i < |ms|
    ensures var r := TrackedMissions(ms, worldId, h);
      (Selected(ms[i], worldId) ==> (r[i].status == Completed <==> AllComplete(r[i].objectives))) &&
      (Selected(ms[i], worldId) ==> r[i].status in {Completed, Active}) &&
      (!Selected(ms[i], worldId) ==> r[i] == ms[i])
  {
  }

  /** An objective that was complete before the pass is unchanged by it. */
  lemma CompleteObjectivesStay(m: Mission, h: Holdings, i: int)
    requires 0 <= i < |m.objectives| && m.objectives[i].isComplete
    ensures UpdatedMission(m, h).objectives[i] == m.objectives[i]
  {
  }

  /** Evaluating an objective twice against the same holdings changes nothing more. */
  lemma EvaluateIdempotent(o: Objective, clan: ClanId, h: Holdings)
    ensures EvaluateObjective(EvaluateObjective(o, clan, h), clan, h) == EvaluateObjective(o, clan, h)
  {
  }

  /** Running the tracker twice against the same holdings gives what one run gives. */
  lemma {:induction false} UpdateIdempotent(m: Mission, h: Holdings)
    ensures UpdatedMission(UpdatedMission(m, h), h) == UpdatedMission(m, h)
  {
    var once := UpdatedMission(m, h);
    var twice := UpdatedMission(once, h);
    forall i | 0 <= i < |m.objectives|
      ensures twice.objectives[i] == once.objectives[i]
    {
      EvaluateIdempotent(m.objectives[i], m.assignee, h);
    }
    assert twice.objectives == once.objectives;
  }

  /** A mission without objectives completes on its first pass. */
  lemma EmptyMissionCompletes(m: Mission, h: Holdings)
    requires m.objectives == []
    ensures UpdatedMission(m, h).status == Completed
  {
  }

  /** More of the target resource can only help: a gather objective complete at one total is complete at any larger one. */
  lemma GatherMonotone(o: Objective, clan: ClanId, h: Holdings, h': Holdings)
    requires o.kind == GatherResource
    requires ClanTotal(h, clan, o.targetResource) <= ClanTotal(h', clan, o.targetResource)
    ensures EvaluateObjective(o, clan, h).isComplete ==> EvaluateObjective(o, clan, h').isComplete
  {
  }
}
