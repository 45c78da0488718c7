/**
 * The resolve pass of `process_tick` (app/simulation/engine.py) and the tick route of
 * app/routes/worlds.py: the characters alive at the start of the tick are split into
 * chunks, each chunk's decisions are collected, births are materialised, every character
 * gets its passive update (hunger, starvation, death, energy regeneration), missions are
 * tracked, the population is counted and the tick counters advance.
 *
 * What the database and the worker processes answer is input: the decisions of the
 * behaviour tree per character (`Decision`), the species names of the characters alive
 * after persistence, whether persistence raised, and the mission tracker's holdings.
 */
module Engine {
  import opened Wrappers
  import opened Domain
  import opened Constants
  import opened Events
  import Missions

  // ---------------------------------------------------------------------------
  // Chunking the characters for the workers
  // ---------------------------------------------------------------------------

  /** `max(1, (os.cpu_count() or 4) - 1)`; a missing or zero CPU count reads as 4. */
  function NumWorkers(cpuCount: Option<int>): (w: nat)
    ensures w >= 1
    ensures cpuCount.Some? && cpuCount.value >= 2 ==> w == cpuCount.value - 1
    ensures cpuCount.None? || cpuCount == Some(0) ==> w == 3
  {
    var cpus := if cpuCount.None? || cpuCount.value == 0 then 4 else cpuCount.value;
    if cpus - 1 >= 1 then cpus - 1 else 1
  }

  /** `math.ceil(n / d)` on naturals: the least `q` with `q * d >= n`. */
  function CeilDiv(n: nat, d: nat): (q: nat)
    requires d >= 1
    ensures q * d >= n
    ensures q >= 1 ==> (q - 1) * d < n
    ensures n >= 1 ==> q >= 1
    decreases n
  {
    if n == 0 then 0
    else if n <= d then 1
    else
      var q' := CeilDiv(n - d, d);
      assert (q' + 1) * d == q' * d + d;
      q' + 1
  }

  function Min(a: int, b: int): int { if a <= b then a else b }

  /** `[xs[i : i + size] for i in range(start, len(xs), size)]`. */
  function ChunksFrom<T>(xs: seq<T>, size: nat, start: nat): (chunks: seq<seq<T>>)
    requires size >= 1
    decreases |xs| - start
  {
    if start >= |xs| then []
    else [xs[start..Min(start + size, |xs|)]] + ChunksFrom(xs, size, start + size)
  }

  function Flatten<T>(css: seq<seq<T>>): seq<T>
  {
    if css == [] then [] else css[0] + Flatten(css[1..])
  }

  lemma {:induction false} FlattenAppend<T>(a: seq<seq<T>>, b: seq<seq<T>>)
    ensures Flatten(a + b) == Flatten(a) + Flatten(b)
    decreases |a|
  {
    if a == [] {
      assert a + b == b;
    } else {
      assert (a + b)[1..] == a[1..] + b;
      FlattenAppend(a[1..], b);
    }
  }

  /** The chunks concatenate back to the characters, and each holds between 1 and `size` of them. */
  lemma {:induction false} ChunksPartition<T>(xs: seq<T>, size: nat, start: nat)
    requires size >= 1 && start <= |xs|
    ensures Flatten(ChunksFrom(xs, size, start)) == xs[start..]
    ensures forall c :: c in ChunksFrom(xs, size, start) ==> 1 <= |c| <= size
    decreases |xs| - start
  {
    if start < |xs| {
      var next := Min(start + size, |xs|);
      ChunksPartition(xs, size, next);
      assert ChunksFrom(xs, size, start + size) == ChunksFrom(xs, size, next);
      assert xs[start..] == xs[start..next] + xs[next..];
    }
  }

  /** There are `ceil((|xs| - start) / size)` chunks. */
  lemma {:induction false} ChunkCount<T>(xs: seq<T>, size: nat, start: nat)
    requires size >= 1 && start <= |xs|
    ensures |ChunksFrom(xs, size, start)| == CeilDiv(|xs| - start, size)
    decreases |xs| - start
  {
    if start < |xs| {
      var next := Min(start + size, |xs|);
      ChunkCount(xs, size, next);
      assert ChunksFrom(xs, size, start + size) == ChunksFrom(xs, size, next);
      CeilDivStep(|xs| - start, size);
    } else {
      assert CeilDiv(0, size) == 0;
    }
  }

  /** One chunk of at most `d` taken off `n` items leaves one chunk fewer. */
  lemma CeilDivStep(n: nat, d: nat)
    requires n >= 1 && d >= 1
    ensures CeilDiv(n, d) == 1 + CeilDiv(n - Min(d, n), d)
  {
    if n <= d {
      assert CeilDiv(0, d) == 0;
    }
  }

  /** With chunks of `ceil(n / w)` characters there are at most `w` chunks. */
  lemma AtMostWorkers(n: nat, w: nat)
    requires n >= 1 && w >= 1
    ensures CeilDiv(n, w) >= 1
    ensures CeilDiv(n, CeilDiv(n, w)) <= w
  {
    var s := CeilDiv(n, w);
    var q := CeilDiv(n, s);
    if q > w {
      assert (q - 1) * s < n;
      assert w * s >= n;
      MulMono(w, q - 1, s);
      assert false;
    }
  }

  lemma MulMono(a: nat, b: nat, c: nat)
    requires a <= b
    ensures a * c <= b * c
  {
  }

  /** The slicing loop of `process_tick`. */
  method MakeChunks<T>(xs: seq<T>, size: nat) returns (chunks: seq<seq<T>>)
    requires size >= 1
    ensures chunks == ChunksFrom(xs, size, 0)
  {
    chunks := [];
    var i := 0;
    while i < |xs|
      invariant chunks + ChunksFrom(xs, size, i) == ChunksFrom(xs, size, 0)
      decreases |xs| - i
    {
      assert ChunksFrom(xs, size, i) == [xs[i..Min(i + size, |xs|)]] + ChunksFrom(xs, size, i + size);
      chunks := chunks + [xs[i..Min(i + size, |xs|)]];
      i := i + size;
    }
  }

  /**
   * The characters split for the workers: non-empty chunks, no more chunks than
   * workers, concatenating back to exactly the characters in order.
   */
  method ChunkCharacters<T>(xs: seq<T>, cpuCount: Option<int>) returns (chunks: seq<seq<T>>)
    requires xs != []
    ensures Flatten(chunks) == xs
    ensures forall c :: c in chunks ==> c != []
    ensures 1 <= |chunks| <= NumWorkers(cpuCount)
  {
    var workers := NumWorkers(cpuCount);
    AtMostWorkers(|xs|, workers);
    var size := CeilDiv(|xs|, workers);
    chunks := MakeChunks(xs, size);
    ChunksPartition(xs, size, 0);
    ChunkCount(xs, size, 0);
    assert xs[0..] == xs;
  }

  // ---------------------------------------------------------------------------
  // Decide phase
  // ---------------------------------------------------------------------------

  /** A write queued for the characters collection. */
  datatype CharacterUpdate =
    | SetHunger(id: AgentId, hunger: real)
    | SetHealth(id: AgentId, health: int)
    | SetDead(id: AgentId)
    | AddEnergy(id: AgentId, amount: int)
    | TreeUpdate(id: AgentId)

  /**
   * What ticking one character's tree appended to the chunk's event and update buffers,
   * and whether it then raised (the appends made before the exception stay).
   */
  datatype Decision = Decision(events: seq<Event>, updates: seq<CharacterUpdate>, raised: bool)

  /** The buffers a chunk returns: every character's appends, in order, whether or not it raised. */
  function ChunkOutput(chunk: seq<Agent>, decide: Agent -> Decision): (seq<Event>, seq<CharacterUpdate>)
  {
    if chunk == [] then ([], [])
    else
      var prev := ChunkOutput(chunk[..|chunk| - 1], decide);
      var d := decide(chunk[|chunk| - 1]);
      (prev.0 + d.events, prev.1 + d.updates)
  }

  /** `process_character_chunk`: an exception for one character is caught and the loop goes on. */
  method ProcessCharacterChunk(chunk: seq<Agent>, decide: Agent -> Decision)
    returns (events: seq<Event>, updates: seq<CharacterUpdate>)
    ensures (events, updates) == ChunkOutput(chunk, decide)
  {
    events, updates := [], [];
    for i := 0 to |chunk|
      invariant (events, updates) == ChunkOutput(chunk[..i], decide)
    {
      assert chunk[..i + 1][..i] == chunk[..i];
      var d := decide(chunk[i]);
      events := events + d.events;
      updates := updates + d.updates;
    }
    assert chunk[..|chunk|] == chunk;
  }

  lemma {:induction false} ChunkOutputAppend(a: seq<Agent>, b: seq<Agent>, decide: Agent -> Decision)
    ensures ChunkOutput(a + b, decide).0 == ChunkOutput(a, decide).0 + ChunkOutput(b, decide).0
    ensures ChunkOutput(a + b, decide).1 == ChunkOutput(a, decide).1 + ChunkOutput(b, decide).1
    decreases |b|
  {
    if b == [] {
      assert a + b == a;
    } else {
      var b' := b[..|b| - 1];
      assert (a + b)[..|a + b| - 1] == a + b';
      ChunkOutputAppend(a, b', decide);
    }
  }

  /** The decide output of all chunks, collected chunk by chunk. */
  function CollectChunks(chunks: seq<seq<Agent>>, decide: Agent -> Decision): (seq<Event>, seq<CharacterUpdate>)
  {
    if chunks == [] then ([], [])
    else
      var first := ChunkOutput(chunks[0], decide);
      var rest := CollectChunks(chunks[1..], decide);
      (first.0 + rest.0, first.1 + rest.1)
  }

  /** However the characters were chunked, the collected output is that of one pass over all of them. */
  lemma {:induction false} ChunkingInvisible(chunks: seq<seq<Agent>>, decide: Agent -> Decision)
    ensures CollectChunks(chunks, decide) == ChunkOutput(Flatten(chunks), decide)
    decreases |chunks|
  {
    if chunks != [] {
      ChunkingInvisible(chunks[1..], decide);
      ChunkOutputAppend(chunks[0], Flatten(chunks[1..]), decide);
    }
  }

  // ---------------------------------------------------------------------------
  // Births
  // ---------------------------------------------------------------------------

  /** A CHARACTER_BIRTH event both of whose parents are alive at the start of the tick. */
  predicate IsViableBirth(e: Event, alive: set<AgentId>)
  {
    e.eventType == "CHARACTER_BIRTH" &&
    e.payload.parentA.Some? && e.payload.parentB.Some? &&
    e.payload.parentA.value in alive && e.payload.parentB.value in alive
  }

  /** The parent pairs for which a newborn document is created, in event order. */
  function BirthParents(events: seq<Event>, alive: set<AgentId>): (ps: seq<(AgentId, AgentId)>)
    ensures |ps| <= |events|
    ensures forall p :: p in ps ==> p.0 in alive && p.1 in alive
    ensures forall i :: 0 <= i < |events| && IsViableBirth(events[i], alive) ==>
      (events[i].payload.parentA.value, events[i].payload.parentB.value) in ps
  {
    if events == [] then []
    else
      var prev := BirthParents(events[..|events| - 1], alive);
      var e := events[|events| - 1];
      assert forall i :: 0 <= i < |events| - 1 ==> events[i] == events[..|events| - 1][i];
      if IsViableBirth(e, alive) then prev + [(e.payload.parentA.value, e.payload.parentB.value)] else prev
  }

  /** The indices of the viable birth events, in increasing order. */
  function ViableBirths(events: seq<Event>, alive: set<AgentId>): (ix: seq<nat>)
    ensures forall k :: 0 <= k < |ix| ==> ix[k] < |events| && IsViableBirth(events[ix[k]], alive)
    ensures forall k, l :: 0 <= k < l < |ix| ==> ix[k] < ix[l]
    ensures forall i :: 0 <= i < |events| && IsViableBirth(events[i], alive) ==> i in ix
  {
    if events == [] then []
    else
      var init := events[..|events| - 1];
      var prev := ViableBirths(init, alive);
      assert forall k :: 0 <= k < |prev| ==> events[prev[k]] == init[prev[k]];
      assert forall i :: 0 <= i < |init| ==> events[i] == init[i];
      if IsViableBirth(events[|events| - 1], alive) then prev + [|events| - 1] else prev
  }

  /** The parents a viable birth event names. */
  function ParentsOf(e: Event): (AgentId, AgentId)
    requires e.payload.parentA.Some? && e.payload.parentB.Some?
  {
    (e.payload.parentA.value, e.payload.parentB.value)
  }

  /** One newborn per viable birth event, in event order, and none for any other event. */
  lemma {:induction false} BirthsOnePerEvent(events: seq<Event>, alive: set<AgentId>)
    ensures |BirthParents(events, alive)| == |ViableBirths(events, alive)|
    ensures forall k :: 0 <= k < |ViableBirths(events, alive)| ==>
      BirthParents(events, alive)[k] == ParentsOf(events[ViableBirths(events, alive)[k]])
  {
    if events != [] {
      var init := events[..|events| - 1];
      var last := events[|events| - 1];
      BirthsOnePerEvent(init, alive);
      var ps, ix := BirthParents(init, alive), ViableBirths(init, alive);
      var ps', ix' := BirthParents(events, alive), ViableBirths(events, alive);
      assert ps' == ps + (if IsViableBirth(last, alive) then [ParentsOf(last)] else []);
      assert ix' == ix + (if IsViableBirth(last, alive) then [|events| - 1] else []);
      forall k | 0 <= k < |ix'|
        ensures ps'[k] == ParentsOf(events[ix'[k]])
      {
        if k < |ix| {
          assert ps'[k] == ps[k] && ix'[k] == ix[k];
          assert events[ix[k]] == init[ix[k]];
        }
      }
    }
  }

  /** The birth loop over the collected events: a newborn only when both parents are in the character map. */
  method MaterializeBirths(events: seq<Event>, alive: set<AgentId>) returns (parents: seq<(AgentId, AgentId)>)
    ensures parents == BirthParents(events, alive)
    ensures |parents| == |ViableBirths(events, alive)|
    ensures forall k :: 0 <= k < |parents| ==> parents[k] == ParentsOf(events[ViableBirths(events, alive)[k]])
  {
    parents := [];
    for i := 0 to |events|
      invariant parents == BirthParents(events[..i], alive)
    {
      assert events[..i + 1][..i] == events[..i];
      var e := events[i];
      if e.eventType == "CHARACTER_BIRTH" {
        var a, b := e.payload.parentA, e.payload.parentB;
        if a.Some? && a.value in alive && b.Some? && b.value in alive {
          parents := parents + [(a.value, b.value)];
        }
      }
    }
    assert events[..|events|] == events;
    BirthsOnePerEvent(events, alive);
  }

  // ---------------------------------------------------------------------------
  // Hunger
  // ---------------------------------------------------------------------------

  /** Python's `int()` on a float: truncation toward zero. */
  function Trunc(x: real): int
  {
    if x >= 0.0 then x.Floor else -((-x).Floor)
  }

  function MinReal(a: real, b: real): real { if a <= b then a else b }

  /** The hunger update as written: `int(min(100, fome + HUNGER_INCREASE_RATE))`. */
  function NextHungerAsWritten(hunger: real): int
  {
    Trunc(MinReal(100.0, hunger + HUNGER_INCREASE_RATE))
  }

  /** As written, an integral hunger below 100 never rises: the 0.1 is truncated away. */
  lemma HungerStuckAsWritten(hunger: int)
    requires 0 <= hunger < 100
    ensures NextHungerAsWritten(hunger as real) == hunger
  {
    var x := hunger as real + HUNGER_INCREASE_RATE;
    assert hunger as real <= x < hunger as real + 1.0;
  }

  function HungerAfterAsWritten(hunger: int, ticks: nat): int
    decreases ticks
  {
    if ticks == 0 then hunger else HungerAfterAsWritten(NextHungerAsWritten(hunger as real), ticks - 1)
  }

  /** Characters are created with hunger 0, so as written they never grow hungry and never starve. */
  lemma {:induction false} NeverHungryAsWritten(ticks: nat)
    ensures HungerAfterAsWritten(0, ticks) == 0
  {
    if ticks > 0 {
      HungerStuckAsWritten(0);
      NeverHungryAsWritten(ticks - 1);
    }
  }

  /** The evidently intended update: hunger rises by HUNGER_INCREASE_RATE per tick, capped at 100. */
  function NextHunger(hunger: real): (h: real)
    ensures h <= 100.0
    ensures hunger + HUNGER_INCREASE_RATE <= 100.0 ==> h == hunger + HUNGER_INCREASE_RATE
    ensures hunger + HUNGER_INCREASE_RATE >= 100.0 ==> h == 100.0
  {
    MinReal(100.0, hunger + HUNGER_INCREASE_RATE)
  }

  function HungerAfter(hunger: real, ticks: nat): real
    decreases ticks
  {
    if ticks == 0 then hunger else HungerAfter(NextHunger(hunger), ticks - 1)
  }

  /** With the intended update, hunger after `t` ticks is `min(100, h + t * 0.1)`. */
  lemma {:induction false} HungerRises(hunger: real, ticks: nat)
    requires hunger <= 100.0
    ensures HungerAfter(hunger, ticks) == MinReal(100.0, hunger + (ticks as real) * HUNGER_INCREASE_RATE)
    decreases ticks
  {
    if ticks > 0 {
      HungerRises(NextHunger(hunger), ticks - 1);
    }
  }

  /** A newly created character reaches the starvation threshold after exactly 1000 ticks. */
  lemma StarvesAfterThousandTicks()
    ensures HungerAfter(0.0, 1000) == 100.0
    ensures HungerAfter(0.0, 999) < 100.0
  {
    HungerRises(0.0, 1000);
    HungerRises(0.0, 999);
  }

  // ---------------------------------------------------------------------------
  // The passive update of every character
  // ---------------------------------------------------------------------------

  /** The starvation death event: `{"character_id": ..., "reason": "Fome"}`, with no `character` entry. */
  function DeathEvent(id: AgentId): (e: Event)
    ensures e.eventType == "CHARACTER_DEATH" && e.category == Combat
    ensures e.payload.characterId == Some(id) && e.payload.reason == Some("Fome")
    ensures e.payload.character.None?
  {
    CreateEvent("CHARACTER_DEATH", Payload(None, None, None, None, None, None, Some(id), Some("Fome")))
  }

  predicate RestsAs(e: Event, id: AgentId)
  {
    e.eventType == "CHARACTER_ACTION_REST" && e.payload.character == Some(id)
  }

  predicate MovesAs(e: Event, id: AgentId)
  {
    StartsWith(e.eventType, "CHARACTER_MOVE") && e.payload.character == Some(id)
  }

  /** `is_resting` and `is_moving` over the events collected so far. */
  predicate RestedOrMoved(events: seq<Event>, id: AgentId)
  {
    exists e | e in events :: RestsAs(e, id) || MovesAs(e, id)
  }

  /** Death events carry no `character`, so they never count as resting or moving. */
  lemma DeathsDoNotCount(events: seq<Event>, deaths: seq<Event>, id: AgentId)
    requires forall e :: e in deaths ==> e.payload.character.None?
    ensures RestedOrMoved(events + deaths, id) <==> RestedOrMoved(events, id)
  {
    if RestedOrMoved(events + deaths, id) {
      var e :| e in events + deaths && (RestsAs(e, id) || MovesAs(e, id));
      assert e in events;
    }
  }

  /** The starvation threshold is reached this tick. */
  predicate Starving(a: Agent)
  {
    NextHunger(a.hunger) >= 100.0
  }

  predicate Dies(a: Agent)
  {
    Starving(a) && a.health - STARVATION_DAMAGE <= 0
  }

  /** The starvation death event this character appends, if it dies this tick. */
  function StarvationDeath(a: Agent): seq<Event>
  {
    if Dies(a) then [DeathEvent(a.id)] else []
  }

  /** The writes queued for one character, given the events collected up to its regeneration check. */
  function PassiveUpdates(a: Agent, events: seq<Event>): seq<CharacterUpdate>
  {
    [SetHunger(a.id, NextHunger(a.hunger))]
    + (if Starving(a) then [SetHealth(a.id, a.health - STARVATION_DAMAGE)] else [])
    + (if Dies(a) then [SetDead(a.id)] else [])
    + (if !RestedOrMoved(events, a.id) then [AddEnergy(a.id, ENERGY_REGEN_RATE)] else [])
  }

  /**
   * The passive update of one character, given the events collected so far: the
   * events it appends and the writes it queues.
   */
  function PassiveOps(a: Agent, events: seq<Event>): (seq<Event>, seq<CharacterUpdate>)
  {
    (StarvationDeath(a), PassiveUpdates(a, events + StarvationDeath(a)))
  }

  /**
   * One character's passive update: hunger is written (at most 100); health drops by the
   * starvation damage iff hunger reached 100; it dies, with one death event, iff that
   * leaves no health; energy regenerates iff no event collected before it shows it
   * resting or moving; and every write is about this character.
   */
  lemma PassiveOpsMeaning(a: Agent, events: seq<Event>)
    ensures var r := PassiveOps(a, events);
      |r.1| >= 1 && r.1[0] == SetHunger(a.id, NextHunger(a.hunger)) && r.1[0].hunger <= 100.0 &&
      (SetHealth(a.id, a.health - STARVATION_DAMAGE) in r.1 <==> Starving(a)) &&
      r.0 == (if Dies(a) then [DeathEvent(a.id)] else []) &&
      (SetDead(a.id) in r.1 <==> Dies(a)) &&
      (AddEnergy(a.id, ENERGY_REGEN_RATE) in r.1 <==> !RestedOrMoved(events, a.id)) &&
      (forall u :: u in r.1 ==> u.id == a.id)
  {
    DeathsDoNotCount(events, StarvationDeath(a), a.id);
  }

  /** The buffers after the passive loop has visited the first `n` characters. */
  function PassivePass(agents: seq<Agent>, events: seq<Event>, updates: seq<CharacterUpdate>, n: nat)
    : (r: (seq<Event>, seq<CharacterUpdate>))
    requires n <= |agents|
  {
    if n == 0 then (events, updates)
    else
      var prev := PassivePass(agents, events, updates, n - 1);
      var ops := PassiveOps(agents[n - 1], prev.0);
      (prev.0 + ops.0, prev.1 + ops.1)
  }

  /** The starvation deaths among the first `n` characters, in order. */
  function Deaths(agents: seq<Agent>, n: nat): (ds: seq<Event>)
    requires n <= |agents|
    ensures forall e :: e in ds ==> e.eventType == "CHARACTER_DEATH" && e.payload.character.None?
  {
    if n == 0 then []
    else Deaths(agents, n - 1) + StarvationDeath(agents[n - 1])
  }

  /** The pass appends exactly the starvation deaths to the collected events. */
  lemma {:induction false} PassiveEvents(agents: seq<Agent>, events: seq<Event>, updates: seq<CharacterUpdate>, n: nat)
    requires n <= |agents|
    ensures PassivePass(agents, events, updates, n).0 == events + Deaths(agents, n)
  {
    if n > 0 {
      PassiveEvents(agents, events, updates, n - 1);
      var prev := PassivePass(agents, events, updates, n - 1);
      var ops := PassiveOps(agents[n - 1], prev.0);
      assert PassivePass(agents, events, updates, n).0 == prev.0 + ops.0;
    }
  }

  /** A death event for a character comes from that character and no other. */
  lemma DeathOncePerCharacter(agents: seq<Agent>, n: nat, id: AgentId)
    requires n <= |agents|
    requires forall i, j :: 0 <= i < j < |agents| ==> agents[i].id != agents[j].id
    ensures multiset(Deaths(agents, n))[DeathEvent(id)] <= 1
    ensures multiset(Deaths(agents, n))[DeathEvent(id)] == 1 <==> exists i :: 0 <= i < n && agents[i].id == id && Dies(agents[i])
  {
    DeathsOfDyingIds(agents, n);
    forall x, y | DeathEvent(x) == DeathEvent(y)
      ensures x == y
    {
      assert DeathEvent(x).payload.characterId == Some(x);
    }
    CountMapped(DyingIds(agents, n), Deaths(agents, n), DeathEvent, id);
    DyingOnce(agents, n, id);
  }

  /** The ids of the characters among the first `n` that starve to death, in order. */
  function DyingIds(agents: seq<Agent>, n: nat): seq<AgentId>
    requires n <= |agents|
  {
    if n == 0 then []
    else DyingIds(agents, n - 1) + (if Dies(agents[n - 1]) then [agents[n - 1].id] else [])
  }

  lemma {:induction false} DeathsOfDyingIds(agents: seq<Agent>, n: nat)
    requires n <= |agents|
    ensures |Deaths(agents, n)| == |DyingIds(agents, n)|
    ensures forall i :: 0 <= i < |Deaths(agents, n)| ==> Deaths(agents, n)[i] == DeathEvent(DyingIds(agents, n)[i])
  {
    if n > 0 {
      DeathsOfDyingIds(agents, n - 1);
    }
  }

  /** Counting images under an injective map counts the originals. */
  lemma {:induction false} CountMapped<X, Y>(xs: seq<X>, ys: seq<Y>, f: X -> Y, x: X)
    requires |xs| == |ys| && forall i :: 0 <= i < |xs| ==> ys[i] == f(xs[i])
    requires forall a, b :: f(a) == f(b) ==> a == b
    ensures multiset(ys)[f(x)] == multiset(xs)[x]
  {
    if xs != [] {
      var k := |xs| - 1;
      CountMapped(xs[..k], ys[..k], f, x);
      assert xs == xs[..k] + [xs[k]] && ys == ys[..k] + [ys[k]];
    }
  }

  /** Some character among the first `n` has id `id` and starves to death. */
  predicate DiesAmong(agents: seq<Agent>, n: nat, id: AgentId)
    requires n <= |agents|
  {
    exists i :: 0 <= i < n && agents[i].id == id && Dies(agents[i])
  }

  lemma DiesAmongStep(agents: seq<Agent>, n: nat, id: AgentId)
    requires 0 < n <= |agents|
    ensures DiesAmong(agents, n, id) <==> DiesAmong(agents, n - 1, id) || (agents[n - 1].id == id && Dies(agents[n - 1]))
  {
    if DiesAmong(agents, n, id) && !(agents[n - 1].id == id && Dies(agents[n - 1])) {
      var i :| 0 <= i < n && agents[i].id == id && Dies(agents[i]);
      assert i < n - 1;
    }
    if agents[n - 1].id == id && Dies(agents[n - 1]) {
      assert 0 <= n - 1 < n;
    }
  }

  /** An id none of the first `n` characters has is not among their dying. */
  lemma {:induction false} AbsentNotDying(agents: seq<Agent>, n: nat, id: AgentId)
    requires n <= |agents| && forall i :: 0 <= i < n ==> agents[i].id != id
    ensures multiset(DyingIds(agents, n))[id] == 0 && !DiesAmong(agents, n, id)
  {
    if n > 0 {
      AbsentNotDying(agents, n - 1, id);
      DiesAmongStep(agents, n, id);
      var a := agents[n - 1];
      var tail := if Dies(a) then [a.id] else [];
      assert multiset(DyingIds(agents, n)) == multiset(DyingIds(agents, n - 1)) + multiset(tail);
    }
  }

  /** With distinct ids a character's id is among the dying at most once, and there iff it dies. */
  lemma {:induction false} DyingOnce(agents: seq<Agent>, n: nat, id: AgentId)
    requires n <= |agents|
    requires forall i, j :: 0 <= i < j < |agents| ==> agents[i].id != agents[j].id
    ensures multiset(DyingIds(agents, n))[id] <= 1
    ensures multiset(DyingIds(agents, n))[id] == 1 <==> DiesAmong(agents, n, id)
  {
    if n > 0 {
      var a := agents[n - 1];
      var tail := if Dies(a) then [a.id] else [];
      assert multiset(DyingIds(agents, n)) == multiset(DyingIds(agents, n - 1)) + multiset(tail);
      DiesAmongStep(agents, n, id);
      if a.id == id {
        assert forall i :: 0 <= i < n - 1 ==> agents[i].id != id;
        AbsentNotDying(agents, n - 1, id);
      } else {
        DyingOnce(agents, n - 1, id);
      }
    }
  }

  /** A character's energy regenerates iff no event collected before the pass shows it resting or moving. */
  lemma {:induction false} RegenIffIdle(agents: seq<Agent>, events: seq<Event>, updates: seq<CharacterUpdate>, n: nat, k: nat)
    requires k < n <= |agents|
    ensures var pre := PassivePass(agents, events, updates, k).0;
      AddEnergy(agents[k].id, ENERGY_REGEN_RATE) in PassiveOps(agents[k], pre).1 <==> !RestedOrMoved(events, agents[k].id)
  {
    PassiveEvents(agents, events, updates, k);
    var pre := PassivePass(agents, events, updates, k).0;
    PassiveOpsMeaning(agents[k], pre);
    DeathsDoNotCount(events, Deaths(agents, k), agents[k].id);
  }

  /** The body of the passive loop for one character, given the events collected so far. */
  method PassiveStep(a: Agent, events: seq<Event>) returns (deaths: seq<Event>, ups: seq<CharacterUpdate>)
    ensures (deaths, ups) == PassiveOps(a, events)
  {
    var hunger := NextHunger(a.hunger);
    var health := a.health - STARVATION_DAMAGE;
    var starvation: seq<CharacterUpdate> := [];
    var death: seq<CharacterUpdate> := [];
    deaths := [];
    if hunger >= 100.0 {
      starvation := [SetHealth(a.id, health)];
      if health <= 0 {
        deaths := [DeathEvent(a.id)];
        death := [SetDead(a.id)];
      }
    }
    var all := events + deaths;
    var resting := exists e | e in all :: RestsAs(e, a.id);
    var moving := exists e | e in all :: MovesAs(e, a.id);
    assert resting || moving <==> RestedOrMoved(all, a.id);
    var regen: seq<CharacterUpdate> := if !resting && !moving then [AddEnergy(a.id, ENERGY_REGEN_RATE)] else [];
    ups := [SetHunger(a.id, hunger)] + starvation + death + regen;
    assert deaths == StarvationDeath(a);
  }

  /** The passive loop of `process_tick` over every character alive at the start of the tick. */
  method ResolvePassive(agents: seq<Agent>, events: seq<Event>, updates: seq<CharacterUpdate>)
    returns (events': seq<Event>, updates': seq<CharacterUpdate>)
    ensures (events', updates') == PassivePass(agents, events, updates, |agents|)
  {
    events', updates' := events, updates;
    for i := 0 to |agents|
      invariant (events', updates') == PassivePass(agents, events, updates, i)
    {
      var deaths, ups := PassiveStep(agents[i], events');
      events' := events' + deaths;
      updates' := updates' + ups;
    }
  }

  // ---------------------------------------------------------------------------
  // Population
  // ---------------------------------------------------------------------------

  function CountOf(names: seq<string>, name: string): nat
  {
    if names == [] then 0
    else CountOf(names[..|names| - 1], name) + (if names[|names| - 1] == name then 1 else 0)
  }

  predicate DistinctNames(groups: seq<(string, nat)>)
  {
    forall i, j :: 0 <= i < j < |groups| ==> groups[i].0 != groups[j].0
  }

  /** The position of the group of `name`, if there is one. */
  function GroupOf(groups: seq<(string, nat)>, name: string): (k: Option<nat>)
    ensures k.Some? ==> k.value < |groups| && groups[k.value].0 == name
    ensures k.None? ==> forall i :: 0 <= i < |groups| ==> groups[i].0 != name
  {
    if groups == [] then None
    else if groups[|groups| - 1].0 == name then Some(|groups| - 1)
    else GroupOf(groups[..|groups| - 1], name)
  }

  /** Adds one member to the group of `name`, opening the group if it is new. */
  function AddMember(groups: seq<(string, nat)>, name: string): (gs: seq<(string, nat)>)
    requires DistinctNames(groups)
    ensures DistinctNames(gs)
  {
    match GroupOf(groups, name)
    case None => groups + [(name, 1)]
    case Some(k) => groups[k := (name, groups[k].1 + 1)]
  }

  /** The `$group` by species name of the alive characters, groups in order of first appearance. */
  function GroupBySpecies(names: seq<string>): (gs: seq<(string, nat)>)
    ensures DistinctNames(gs)
  {
    if names == [] then []
    else AddMember(GroupBySpecies(names[..|names| - 1]), names[|names| - 1])
  }

  lemma {:induction false} CountAbsent(names: seq<string>, name: string)
    requires name !in names
    ensures CountOf(names, name) == 0
    decreases |names|
  {
    if names != [] {
      assert forall n :: n in names[..|names| - 1] ==> n in names;
      CountAbsent(names[..|names| - 1], name);
    }
  }

  predicate CountsExact(names: seq<string>, gs: seq<(string, nat)>)
  {
    forall i :: 0 <= i < |gs| ==> gs[i].1 == CountOf(names, gs[i].0) && gs[i].1 >= 1
  }

  /** Counting one more character keeps every group's count exact. */
  lemma AddMemberCounts(prefix: seq<string>, prev: seq<(string, nat)>, last: string)
    requires DistinctNames(prev) && CountsExact(prefix, prev)
    requires GroupOf(prev, last).None? ==> last !in prefix
    ensures CountsExact(prefix + [last], AddMember(prev, last))
  {
    var names := prefix + [last];
    assert names[..|names| - 1] == prefix;
    var gs := AddMember(prev, last);
    forall i | 0 <= i < |prev|
      ensures gs[i].1 == CountOf(names, gs[i].0) && gs[i].1 >= 1
    {
      assert prev[i].1 == CountOf(prefix, prev[i].0);
    }
    if GroupOf(prev, last).None? {
      CountAbsent(prefix, last);
      assert gs[|prev|] == (last, 1);
    }
  }

  /** Each group holds the count of alive characters of its species, which is at least one. */
  lemma {:induction false} GroupCounts(names: seq<string>)
    ensures CountsExact(names, GroupBySpecies(names))
    decreases |names|
  {
    if names != [] {
      var prefix, last := names[..|names| - 1], names[|names| - 1];
      GroupCounts(prefix);
      GroupsCover(prefix);
      assert names == prefix + [last];
      AddMemberCounts(prefix, GroupBySpecies(prefix), last);
    }
  }

  /** Every species name among the alive characters has a group. */
  lemma {:induction false} GroupsCover(names: seq<string>)
    ensures var gs := GroupBySpecies(names);
      forall n :: n in names ==> exists i :: 0 <= i < |gs| && gs[i].0 == n
    decreases |names|
  {
    if names != [] {
      var prefix, last := names[..|names| - 1], names[|names| - 1];
      GroupsCover(prefix);
      var prev := GroupBySpecies(prefix);
      var gs := AddMember(prev, last);
      assert GroupBySpecies(names) == gs;
      assert names == prefix + [last];
      forall n | n in names
        ensures exists i :: 0 <= i < |gs| && gs[i].0 == n
      {
        if n in prefix {
          var i :| 0 <= i < |prev| && prev[i].0 == n;
          assert gs[i].0 == n;
        } else {
          match GroupOf(prev, last)
          case Some(k) => assert gs[k].0 == n;
          case None => assert gs[|prev|].0 == n;
        }
      }
    }
  }

  function SumCounts(groups: seq<(string, nat)>): nat
  {
    if groups == [] then 0 else groups[0].1 + SumCounts(groups[1..])
  }

  lemma {:induction false} SumAppend(groups: seq<(string, nat)>, g: (string, nat))
    ensures SumCounts(groups + [g]) == SumCounts(groups) + g.1
    decreases |groups|
  {
    if groups != [] {
      assert (groups + [g])[1..] == groups[1..] + [g];
      SumAppend(groups[1..], g);
    }
  }

  lemma {:induction false} SumBump(groups: seq<(string, nat)>, k: nat, name: string)
    requires k < |groups|
    ensures SumCounts(groups[k := (name, groups[k].1 + 1)]) == SumCounts(groups) + 1
    decreases k
  {
    if k == 0 {
      assert groups[k := (name, groups[k].1 + 1)][1..] == groups[1..];
    } else {
      assert groups[k := (name, groups[k].1 + 1)][1..] == groups[1..][k - 1 := (name, groups[k].1 + 1)];
      SumBump(groups[1..], k - 1, name);
    }
  }

  lemma SumAddMember(groups: seq<(string, nat)>, name: string)
    requires DistinctNames(groups)
    ensures SumCounts(AddMember(groups, name)) == SumCounts(groups) + 1
  {
    match GroupOf(groups, name)
    case None => SumAppend(groups, (name, 1));
    case Some(k) => SumBump(groups, k, name);
  }

  /** The total population is the sum of the per-species counts, which is the number of alive characters. */
  lemma {:induction false} PopulationTotal(names: seq<string>)
    ensures SumCounts(GroupBySpecies(names)) == |names|
    decreases |names|
  {
    if names != [] {
      PopulationTotal(names[..|names| - 1]);
      SumAddMember(GroupBySpecies(names[..|names| - 1]), names[|names| - 1]);
    }
  }

  /** `sum(item["count"] for item in population_data)`, 0 when there are no groups. */
  method TotalPopulation(groups: seq<(string, nat)>) returns (total: nat)
    ensures total == SumCounts(groups)
  {
    total := 0;
    var i := |groups|;
    while i > 0
      invariant 0 <= i <= |groups|
      invariant total == SumCounts(groups[i..])
    {
      i := i - 1;
      assert groups[i..][1..] == groups[i + 1..];
      total := total + groups[i].1;
    }
  }

  // ---------------------------------------------------------------------------
  // The tick
  // ---------------------------------------------------------------------------

  /** Everything `process_tick` writes, collected before persistence. */
  datatype TickOutput = TickOutput(
    events: seq<Event>,
    updates: seq<CharacterUpdate>,
    births: seq<(AgentId, AgentId)>)

  function AliveIds(agents: seq<Agent>): set<AgentId>
  {
    set a | a in agents :: a.id
  }

  /** The buffers of a tick with at least one alive character. */
  function ResolveTick(alive: seq<Agent>, decide: Agent -> Decision): TickOutput
  {
    var decided := ChunkOutput(alive, decide);
    var passive := PassivePass(alive, decided.0, decided.1, |alive|);
    TickOutput(passive.0, passive.1, BirthParents(decided.0, AliveIds(alive)))
  }

  /**
   * The events of a tick are the decided events followed by the starvation deaths, and
   * newborns come only from birth events of the decided phase.
   */
  lemma TickEvents(alive: seq<Agent>, decide: Agent -> Decision)
    ensures ResolveTick(alive, decide).events == ChunkOutput(alive, decide).0 + Deaths(alive, |alive|)
  {
    var decided := ChunkOutput(alive, decide);
    PassiveEvents(alive, decided.0, decided.1, |alive|);
  }

  /** The decide phase over the chunks, in chunk order. */
  method DecideChunks(chunks: seq<seq<Agent>>, decide: Agent -> Decision)
    returns (events: seq<Event>, updates: seq<CharacterUpdate>)
    ensures (events, updates) == CollectChunks(chunks, decide)
  {
    events, updates := [], [];
    for c := 0 to |chunks|
      invariant (events, updates) == CollectChunks(chunks[..c], decide)
    {
      var chunkEvents, chunkUpdates := ProcessCharacterChunk(chunks[c], decide);
      CollectAppend(chunks[..c], chunks[c], decide);
      assert chunks[..c + 1] == chunks[..c] + [chunks[c]];
      events := events + chunkEvents;
      updates := updates + chunkUpdates;
    }
    assert chunks[..|chunks|] == chunks;
  }

  /** Chunking, deciding, births and the passive pass of a tick with alive characters. */
  method Resolve(alive: seq<Agent>, cpuCount: Option<int>, decide: Agent -> Decision) returns (out: TickOutput)
    requires alive != []
    ensures out == ResolveTick(alive, decide)
  {
    var chunks := ChunkCharacters(alive, cpuCount);
    var events, updates := DecideChunks(chunks, decide);
    ChunkingInvisible(chunks, decide);
    var births := MaterializeBirths(events, AliveIds(alive));
    events, updates := ResolvePassive(alive, events, updates);
    out := TickOutput(events, updates, births);
  }

  /** A world's tick counters, population figures and missions, as the tick leaves them. */
  class World {
    const id: int
    var currentTick: int
    var analyticsTick: int
    var population: nat
    var populationBySpecies: seq<(string, nat)>
    var missions: seq<Missions.Mission>

    constructor (id: int, missions: seq<Missions.Mission>)
      ensures this.id == id && this.missions == missions
      ensures currentTick == 0 && analyticsTick == 0 && population == 0 && populationBySpecies == []
    {
      this.id := id;
      currentTick := 0;
      analyticsTick := 0;
      population := 0;
      populationBySpecies := [];
      this.missions := missions;
    }

    /**
     * `process_tick`. With no alive character only the two counters advance. Otherwise
     * the chunks are decided, births materialised and passive updates appended; if
     * persistence succeeds the missions are tracked (an exception there is caught and the
     * tick goes on); the population is counted over the characters alive afterwards
     * (`aliveAfter`, their species names); and both counters advance by one.
     */
    method ProcessTick(alive: seq<Agent>, cpuCount: Option<int>, decide: Agent -> Decision,
                       persistenceFails: bool, holdings: Missions.Holdings, aliveAfter: seq<string>)
      returns (out: TickOutput)
      modifies this
      ensures currentTick == old(currentTick) + 1 && analyticsTick == old(analyticsTick) + 1
      ensures alive == [] ==> (out == TickOutput([], [], []) &&
        population == old(population) && populationBySpecies == old(populationBySpecies) && missions == old(missions))
      ensures alive != [] ==> (out == ResolveTick(alive, decide) &&
        populationBySpecies == GroupBySpecies(aliveAfter) && population == |aliveAfter| &&
        missions == (if persistenceFails then old(missions) else Missions.TrackedMissions(old(missions), id, holdings)))
    {
      if alive == [] {
        currentTick := currentTick + 1;
        analyticsTick := analyticsTick + 1;
        return TickOutput([], [], []);
      }
      out := Resolve(alive, cpuCount, decide);
      if !persistenceFails {
        missions := Missions.TrackMissions(missions, id, holdings);
      }
      populationBySpecies := GroupBySpecies(aliveAfter);
      population := TotalPopulation(populationBySpecies);
      PopulationTotal(aliveAfter);
      analyticsTick := analyticsTick + 1;
      currentTick := currentTick + 1;
    }

    /**
     * The `POST /{world_id}/tick` route: runs `process_tick`, then increments
     * `current_tick` once more, so the world's counter advances by two per request while
     * the analytics counter advances by one.
     */
    method AdvanceSimulationTick(alive: seq<Agent>, cpuCount: Option<int>, decide: Agent -> Decision,
                                 persistenceFails: bool, holdings: Missions.Holdings, aliveAfter: seq<string>)
      returns (out: TickOutput)
      modifies this
      ensures currentTick == old(currentTick) + 2 && analyticsTick == old(analyticsTick) + 1
      ensures alive != [] ==> (out == ResolveTick(alive, decide) &&
        populationBySpecies == GroupBySpecies(aliveAfter) && population == |aliveAfter| &&
        missions == (if persistenceFails then old(missions) else Missions.TrackedMissions(old(missions), id, holdings)))
      ensures alive == [] ==> (out == TickOutput([], [], []) &&
        population == old(population) && populationBySpecies == old(populationBySpecies) && missions == old(missions))
    {
      out := ProcessTick(alive, cpuCount, decide, persistenceFails, holdings, aliveAfter);
      currentTick := currentTick + 1;
    }
  }

  lemma CollectAppend(chunks: seq<seq<Agent>>, last: seq<Agent>, decide: Agent -> Decision)
    ensures CollectChunks(chunks + [last], decide).0 == CollectChunks(chunks, decide).0 + ChunkOutput(last, decide).0
    ensures CollectChunks(chunks + [last], decide).1 == CollectChunks(chunks, decide).1 + ChunkOutput(last, decide).1
  {
    if chunks != [] {
      assert (chunks + [last])[1..] == chunks[1..] + [last];
      CollectAppend(chunks[1..], last, decide);
    } else {
      assert [last][1..] == [];
    }
  }
}
