/**
 * The event documents of `create_event` (app/simulation/simulation_utils.py): the category
 * an event type falls into, and the actor and target the document records.
 */
module Events {
  import opened Wrappers
  import opened Domain

  datatype Category = Combat | Resource | Life | Movement | Build | AI | Other

  predicate StartsWith(s: string, prefix: string)
  {
    |prefix| <= |s| && s[..|prefix|] == prefix
  }

  /** `sub` occurs in `s` starting at index `i`. */
  predicate OccursAt(s: string, sub: string, i: int)
  {
    0 <= i <= |s| - |sub| && s[i..i + |sub|] == sub
  }

  /** Python's `sub in s` on strings. */
  predicate HasSubstring(s: string, sub: string)
  {
    exists i | 0 <= i <= |s| - |sub| :: OccursAt(s, sub, i)
  }

  /** A string without the letters `M` and `F` contains neither `MOVE` nor `FLEE`. */
  lemma NoMoveOrFlee(s: string)
    requires forall i :: 0 <= i < |s| ==> s[i] != 'M' && s[i] != 'F'
    ensures !HasSubstring(s, "MOVE") && !HasSubstring(s, "FLEE")
  {
    forall i | 0 <= i <= |s| - 4
      ensures !OccursAt(s, "MOVE", i) && !OccursAt(s, "FLEE", i)
    {
      assert s[i..i + 4][0] == s[i];
    }
  }

  /** The `if/elif` chain that picks `eventCategory` from `eventType`. */
  function EventCategory(eventType: string): (c: Category)
    ensures eventType in {"COMBAT_ACTION", "CHARACTER_DEATH"} <==> c == Combat
    ensures eventType in {"CHARACTER_GATHER", "CHARACTER_EAT"} <==> c == Resource
    ensures eventType == "CHARACTER_BIRTH" <==> c == Life
    ensures c == Movement <==>
      eventType !in {"COMBAT_ACTION", "CHARACTER_DEATH", "CHARACTER_GATHER", "CHARACTER_EAT", "CHARACTER_BIRTH"} &&
      (HasSubstring(eventType, "MOVE") || HasSubstring(eventType, "FLEE"))
    ensures c == Build <==> eventType == "CHARACTER_BUILD_HOUSE"
    ensures c == AI <==> eventType == "AI_DECISION"
  {
    NoMoveOrFlee("CHARACTER_BUILD_HOUSE");
    NoMoveOrFlee("AI_DECISION");
    if eventType in {"COMBAT_ACTION", "CHARACTER_DEATH"} then Combat
    else if eventType in {"CHARACTER_GATHER", "CHARACTER_EAT"} then Resource
    else if eventType == "CHARACTER_BIRTH" then Life
    else if HasSubstring(eventType, "MOVE") || HasSubstring(eventType, "FLEE") then Movement
    else if eventType == "CHARACTER_BUILD_HOUSE" then Build
    else if eventType == "AI_DECISION" then AI
    else Other
  }

  /** Every `CHARACTER_MOVE...` event, which the resolve pass treats as movement, is categorised MOVEMENT. */
  lemma MoveEventsAreMovement(eventType: string)
    requires StartsWith(eventType, "CHARACTER_MOVE")
    ensures EventCategory(eventType) == Movement
  {
    var prefix := "CHARACTER_MOVE";
    assert eventType[..|prefix|] == prefix;
    assert eventType[1] == 'H' && eventType[10] == 'M';
    assert eventType[10..14] == "MOVE";
    assert OccursAt(eventType, "MOVE", 10);
    assert "CHARACTER_DEATH"[10] == 'D' && "CHARACTER_GATHER"[10] == 'G' && "CHARACTER_EAT"[10] == 'E';
    assert "CHARACTER_BIRTH"[10] == 'B' && "COMBAT_ACTION"[1] == 'O';
  }

  /**
   * The payload fields the simulation reads back: the acting `character`, the `attacker`
   * and `defender` of a fight, the `parent_a`/`parent_b` of a birth, the `target`, and the
   * plain `character_id` and `reason` of a starvation death.
   */
  datatype Payload = Payload(
    character: Option<AgentId>,
    attacker: Option<AgentId>,
    parentA: Option<AgentId>,
    defender: Option<AgentId>,
    target: Option<AgentId>,
    parentB: Option<AgentId>,
    characterId: Option<AgentId>,
    reason: Option<string>)

  /** An event document: type, category, the actor and target extracted from the payload, and the payload. */
  datatype Event = Event(eventType: string, category: Category, actor: Option<AgentId>, target: Option<AgentId>, payload: Payload)

  function FirstPresent(a: Option<AgentId>, b: Option<AgentId>, c: Option<AgentId>): (r: Option<AgentId>)
    ensures r.Some? <==> a.Some? || b.Some? || c.Some?
    ensures a.Some? ==> r == a
    ensures a.None? && b.Some? ==> r == b
    ensures a.None? && b.None? ==> r == c
  {
    if a.Some? then a else if b.Some? then b else c
  }

  /**
   * `create_event`: the actor is the first of character / attacker / parent_a, the target
   * the first of defender / target / parent_b, and the category follows the event type.
   */
  function CreateEvent(eventType: string, payload: Payload): (e: Event)
    ensures e.eventType == eventType && e.payload == payload
    ensures e.category == EventCategory(eventType)
    ensures payload.character.Some? ==> e.actor == payload.character
    ensures payload.character.None? && payload.attacker.Some? ==> e.actor == payload.attacker
    ensures payload.character.None? && payload.attacker.None? ==> e.actor == payload.parentA
    ensures payload.defender.Some? ==> e.target == payload.defender
    ensures payload.defender.None? && payload.target.Some? ==> e.target == payload.target
    ensures payload.defender.None? && payload.target.None? ==> e.target == payload.parentB
  {
    Event(eventType, EventCategory(eventType),
          FirstPresent(payload.character, payload.attacker, payload.parentA),
          FirstPresent(payload.defender, payload.target, payload.parentB),
          payload)
  }
}
