/**
 * The agent allocator of the PAX kernel. A `route` call runs in two pieces around its `await`: it
 * begins by taking an idle agent and, later, finishes or throws; other calls run in between.
 */
module PAXRuntime {
  import opened Wrappers
  import opened Sequences
  import opened Sets

  datatype Agent = Agent(role: string, idle: bool, tasks: nat)

  datatype Extraction = Extraction(agent: nat, confidence: real, roi: real)

  datatype Config = Config(agentCount: nat, confidenceThreshold: real, vaultEnabled: bool)

  /**
   * The agents in roster order; which agent each route in flight holds; the agents whose route
   * threw while holding them; and the metrics.
   */
  datatype State = State(
    agents: seq<Agent>, flights: map<nat, nat>, stranded: set<nat>,
    processed: nat, totalROI: real, vault: seq<Extraction>)

  datatype Event =
    | Begin(call: nat, operation: string)
    | Finish(call: nat, confidence: real, roi: real)
    | Throw(call: nat)

  const ROSTER := [
    "orchestrator", "data_ingestion", "value_analysis", "extraction", "confidence_scoring", "vault_management",
    "pax_routing", "quantum_correlate", "roi_reporting", "security_monitor", "ci_cd_pipeline",
    "performance_tuning", "meta_orchestrator"]

  function RoleFor(operation: string): string {
    match operation
    case "extract" => "extraction"
    case "analyze" => "value_analysis"
    case "validate" => "confidence_scoring"
    case "quantum" => "quantum_correlate"
    case "report" => "roi_reporting"
    case "vault" => "vault_management"
    case _ => "orchestrator"
  }

  function Crew(config: Config): seq<Agent> {
    var n := if config.agentCount <= |ROSTER| then config.agentCount else |ROSTER|;
    seq(n, i requires 0 <= i < n => Agent(ROSTER[i], true, 0))
  }

  function Initial(config: Config): State {
    State(Crew(config), map[], {}, 0, 0.0, [])
  }

  /** The first idle agent with the role of the operation, or else the first idle agent. */
  function Assign(agents: seq<Agent>, operation: string): (r: Option<nat>)
    ensures r.Some? ==> r.value < |agents| && agents[r.value].idle
    ensures r.Some? && (exists a :: a in agents && a.idle && a.role == RoleFor(operation))
        ==> agents[r.value].role == RoleFor(operation)
    ensures r.Some? ==> forall j :: 0 <= j < r.value ==>
      !(agents[j].idle && (agents[r.value].role == RoleFor(operation) ==> agents[j].role == RoleFor(operation)))
    ensures r.None? <==> forall a :: a in agents ==> !a.idle
  {
    var i := IndexWhere(agents, (a: Agent) => a.idle && a.role == RoleFor(operation));
    var j := IndexWhere(agents, (a: Agent) => a.idle);
    if i < |agents| then Some(i) else if j < |agents| then Some(j) else None
  }

  /** A call begins once and, while it is in flight, finishes or throws. */
  predicate Allowed(s: State, e: Event) {
    if e.Begin? then e.call !in s.flights else e.call in s.flights && s.flights[e.call] < |s.agents|
  }

  function Took(s: State, call: nat, i: nat): State
    requires i < |s.agents|
  {
    s.(agents := s.agents[i := s.agents[i].(idle := false)], flights := s.flights[call := i])
  }

  function Finished(config: Config, s: State, call: nat, confidence: real, roi: real): State
    requires call in s.flights && s.flights[call] < |s.agents|
  {
    var i := s.flights[call];
    s.(agents := s.agents[i := s.agents[i].(idle := true, tasks := s.agents[i].tasks + 1)],
       flights := s.flights - {call},
       processed := s.processed + 1,
       totalROI := s.totalROI + roi,
       vault := s.vault + if config.vaultEnabled && confidence >= config.confidenceThreshold
                          then [Extraction(i, confidence, roi)] else [])
  }

  /** The `Begin` that finds no agent is refused and changes nothing. */
  function Apply(config: Config, s: State, e: Event): State
    requires Allowed(s, e)
  {
    match e
    case Begin(call, operation) =>
      var r := Assign(s.agents, operation);
      if r.None? then s else Took(s, call, r.value)
    case Finish(call, confidence, roi) => Finished(config, s, call, confidence, roi)
    case Throw(call) => s.(flights := s.flights - {call}, stranded := s.stranded + {s.flights[call]})
  }

  function Tasks(agents: seq<Agent>): nat {
    if agents == [] then 0 else Tasks(agents[..|agents| - 1]) + agents[|agents| - 1].tasks
  }

  /** An agent is held by a route in flight. */
  ghost predicate Held(s: State, i: nat) {
    exists c :: c in s.flights && s.flights[c] == i
  }

  /** Distinct agents, none of them stranded. */
  ghost predicate Exclusive(s: State) {
    && (forall c :: c in s.flights ==> s.flights[c] < |s.agents| && s.flights[c] !in s.stranded)
    && (forall c, d :: c in s.flights && d in s.flights && s.flights[c] == s.flights[d] ==> c == d)
    && (forall i :: i in s.stranded ==> i < |s.agents|)
  }

  ghost predicate IdleIffFree(s: State) {
    forall i: nat :: i < |s.agents| ==> (s.agents[i].idle <==> !Held(s, i) && i !in s.stranded)
  }

  ghost predicate Inv(s: State) {
    Exclusive(s) && IdleIffFree(s) && Tasks(s.agents) == s.processed
  }

  lemma {:induction false} FreshTasks(n: nat, agents: seq<Agent>)
    requires n == |agents| && forall a :: a in agents ==> a.tasks == 0
    ensures Tasks(agents) == 0
  {
    if n > 0 { FreshTasks(n - 1, agents[..n - 1]); }
  }

  lemma InitialInv(config: Config)
    ensures Inv(Initial(config))
  {
    FreshTasks(|Crew(config)|, Crew(config));
  }

  lemma {:induction false} TasksUpdate(agents: seq<Agent>, i: nat, a: Agent)
    requires i < |agents|
    ensures Tasks(agents[i := a]) == Tasks(agents) - agents[i].tasks + a.tasks
    decreases |agents|
  {
    var n := |agents| - 1;
    if i == n {
      assert agents[i := a][..n] == agents[..n];
    } else {
      TasksUpdate(agents[..n], i, a);
      assert agents[i := a][..n] == agents[..n][i := a];
    }
  }

  lemma TookKeepsInv(s: State, call: nat, i: nat)
    requires Inv(s) && call !in s.flights && i < |s.agents| && s.agents[i].idle
    ensures Inv(Took(s, call, i))
  {
    var s' := Took(s, call, i);
    TasksUpdate(s.agents, i, s.agents[i].(idle := false));
    assert s'.flights[call] == i && !Held(s, i);
    assert Exclusive(s') by {
      forall c | c in s.flights ensures s.flights[c] != i {
        assert s.flights[c] == i ==> Held(s, i);
      }
    }
    forall j: nat | j < |s'.agents| ensures s'.agents[j].idle <==> !Held(s', j) && j !in s'.stranded {
      if j != i && Held(s, j) {
        var c :| c in s.flights && s.flights[c] == j;
        assert s'.flights[c] == j;
      }
    }
  }

  lemma FinishedKeepsIdle(config: Config, s: State, call: nat, confidence: real, roi: real)
    requires Exclusive(s) && IdleIffFree(s) && call in s.flights
    ensures IdleIffFree(Finished(config, s, call, confidence, roi))
  {
    var s' := Finished(config, s, call, confidence, roi);
    ReleasedHeld(s, s', call);
    forall j: nat | j < |s'.agents| ensures s'.agents[j].idle <==> !Held(s', j) && j !in s'.stranded {
      assert Held(s', j) <==> Held(s, j) && j != s.flights[call];
    }
  }

  lemma FinishedKeepsExclusive(config: Config, s: State, call: nat, confidence: real, roi: real)
    requires Exclusive(s) && call in s.flights
    ensures Exclusive(Finished(config, s, call, confidence, roi))
  {
  }

  lemma FinishedKeepsTasks(config: Config, s: State, call: nat, confidence: real, roi: real)
    requires call in s.flights && s.flights[call] < |s.agents|
    ensures Tasks(Finished(config, s, call, confidence, roi).agents) == Tasks(s.agents) + 1
  {
    var i := s.flights[call];
    TasksUpdate(s.agents, i, s.agents[i].(idle := true, tasks := s.agents[i].tasks + 1));
  }

  lemma FinishedKeepsInv(config: Config, s: State, call: nat, confidence: real, roi: real)
    requires Inv(s) && call in s.flights
    ensures Inv(Finished(config, s, call, confidence, roi))
  {
    FinishedKeepsExclusive(config, s, call, confidence, roi);
    FinishedKeepsTasks(config, s, call, confidence, roi);
    FinishedKeepsIdle(config, s, call, confidence, roi);
  }

  lemma ThrowKeepsInv(config: Config, s: State, call: nat)
    requires Inv(s) && call in s.flights
    ensures Inv(Apply(config, s, Throw(call)))
  {
    var s' := Apply(config, s, Throw(call));
    assert Held(s, s.flights[call]);
    assert IdleIffFree(s') by { ReleasedHeld(s, s', call); }
  }

  /** Without one call, what it held is not held and everything else is as before. */
  lemma ReleasedHeld(s: State, s': State, call: nat)
    requires Exclusive(s) && call in s.flights && s'.flights == s.flights - {call}
    ensures forall j: nat :: Held(s', j) <==> Held(s, j) && j != s.flights[call]
  {
    forall j: nat ensures Held(s', j) <==> Held(s, j) && j != s.flights[call] {
      if Held(s', j) {
        var c :| c in s'.flights && s'.flights[c] == j;
        assert s.flights[c] == j;
      }
      if Held(s, j) && j != s.flights[call] {
        var c :| c in s.flights && s.flights[c] == j;
        assert s'.flights[c] == j;
      }
    }
  }

  lemma ApplyKeepsInv(config: Config, s: State, e: Event)
    requires Inv(s) && Allowed(s, e)
    ensures Inv(Apply(config, s, e))
  {
    match e
    case Begin(call, operation) =>
      var r := Assign(s.agents, operation);
      if r.Some? { TookKeepsInv(s, call, r.value); }
    case Finish(call, confidence, roi) => FinishedKeepsInv(config, s, call, confidence, roi);
    case Throw(call) => ThrowKeepsInv(config, s, call);
  }

  /** The state after these events, those that cannot happen passed over, and how many routes finished. */
  function Run(config: Config, events: seq<Event>): (State, nat) {
    if events == [] then (Initial(config), 0)
    else
      var (s, finished) := Run(config, events[..|events| - 1]);
      var e := events[|events| - 1];
      if Allowed(s, e) then (Apply(config, s, e), if e.Finish? then finished + 1 else finished) else (s, finished)
  }

  lemma ApplyCounts(config: Config, s: State, e: Event)
    requires Allowed(s, e)
    ensures var s' := Apply(config, s, e);
      s'.processed == s.processed + (if e.Finish? then 1 else 0) && |s'.agents| == |s.agents|
  {
  }

  /**
   * Over every run, whatever routes are interleaved: routes in flight hold distinct agents; an agent is
   * idle exactly when no route in flight holds it and none threw while holding it; and completed tasks,
   * processed items and finished routes are one number.
   */
  lemma {:induction false} RunKeepsInv(config: Config, events: seq<Event>)
    ensures var (s, finished) := Run(config, events);
      Inv(s) && Tasks(s.agents) == s.processed == finished && |s.agents| == |Crew(config)|
  {
    InitialInv(config);
    if events != [] {
      RunKeepsInv(config, events[..|events| - 1]);
      var s := Run(config, events[..|events| - 1]).0;
      var e := events[|events| - 1];
      if Allowed(s, e) {
        ApplyKeepsInv(config, s, e);
        ApplyCounts(config, s, e);
      }
    }
  }

  // Where routes go, and what they leave.

  /** Where the agent for an operation stands in the roster. */
  function Place(operation: string): nat {
    if operation == "extract" then 3 else if operation == "analyze" then 2
    else if operation == "validate" then 4 else if operation == "quantum" then 7
    else if operation == "report" then 8 else if operation == "vault" then 5
    else 0
  }

  lemma PlaceHasRole(operation: string, i: nat)
    requires i < |ROSTER|
    ensures ROSTER[i] == RoleFor(operation) <==> i == Place(operation)
  {
    match operation
    case "extract" =>
    case "analyze" =>
    case "validate" =>
    case "quantum" =>
    case "report" =>
    case "vault" =>
    case _ =>
  }

  /** On a fresh crew an operation goes to its place in the roster, or to the first if the crew ends before that. */
  lemma FreshAssignment(config: Config, operation: string)
    requires config.agentCount > 0
    ensures Assign(Initial(config).agents, operation)
         == Some(if Place(operation) < config.agentCount then Place(operation) else 0)
    ensures |Initial(config).agents| == if config.agentCount <= 13 then config.agentCount else 13
  {
    var agents := Initial(config).agents;
    PlaceHasRole(operation, Place(operation));
    assert agents[0] in agents;
    if Place(operation) < config.agentCount {
      assert agents[Place(operation)] in agents && Assign(agents, operation).Some?;
      PlaceHasRole(operation, Assign(agents, operation).value);
    } else {
      PlaceHasRole(operation, Assign(agents, operation).value);
    }
  }

  /** What the finished routes extracted, in order. */
  function Extracted(config: Config, events: seq<Event>): seq<Extraction> {
    if events == [] then []
    else
      var before, e := events[..|events| - 1], events[|events| - 1];
      var s := Run(config, before).0;
      if e.Finish? && Allowed(s, e) then
        Extracted(config, before) + [Extraction(s.flights[e.call], e.confidence, e.roi)]
      else Extracted(config, before)
  }

  /** Those the vault keeps. */
  function Kept(config: Config, extractions: seq<Extraction>): seq<Extraction> {
    if extractions == [] then []
    else
      var last := extractions[|extractions| - 1];
      Kept(config, extractions[..|extractions| - 1])
      + if config.vaultEnabled && last.confidence >= config.confidenceThreshold then [last] else []
  }

  function Sum(extractions: seq<Extraction>): real {
    if extractions == [] then 0.0 else Sum(extractions[..|extractions| - 1]) + extractions[|extractions| - 1].roi
  }

  lemma OneMoreExtraction(config: Config, xs: seq<Extraction>, x: Extraction)
    ensures Sum(xs + [x]) == Sum(xs) + x.roi
    ensures Kept(config, xs + [x])
         == Kept(config, xs) + if config.vaultEnabled && x.confidence >= config.confidenceThreshold then [x] else []
  {
    assert (xs + [x])[..|xs|] == xs;
  }

  /** Over every run the vault holds the confident extractions in order, and the return is that of all of them. */
  lemma {:induction false} ExtractionsAddUp(config: Config, events: seq<Event>)
    ensures var (s, xs) := (Run(config, events).0, Extracted(config, events));
      s.processed == |xs| && s.vault == Kept(config, xs) && s.totalROI == Sum(xs)
  {
    if events != [] {
      var before, e := events[..|events| - 1], events[|events| - 1];
      ExtractionsAddUp(config, before);
      var s := Run(config, before).0;
      if e.Finish? && Allowed(s, e) {
        OneMoreExtraction(config, Extracted(config, before), Extraction(s.flights[e.call], e.confidence, e.roi));
      }
    }
  }

  // Counting.

  ghost function Image(m: map<nat, nat>, keys: set<nat>): set<nat>
    requires keys <= m.Keys
  {
    set c | c in keys :: m[c]
  }

  lemma {:induction false} ImageSize(m: map<nat, nat>, keys: set<nat>)
    requires keys <= m.Keys
    requires forall c, d :: c in m && d in m && m[c] == m[d] ==> c == d
    ensures |Image(m, keys)| == |keys|
  {
    if keys != {} {
      var c :| c in keys;
      ImageSize(m, keys - {c});
      assert Image(m, keys) == Image(m, keys - {c}) + {m[c]};
    }
  }

  function Below(n: nat): (r: set<nat>)
    ensures |r| == n && forall i: nat :: i in r <==> i < n
  {
    if n == 0 then {} else Below(n - 1) + {n - 1}
  }

  ghost function Busy(s: State): set<nat> {
    s.flights.Values + s.stranded
  }

  lemma BusyCounts(s: State)
    requires Exclusive(s)
    ensures |Busy(s)| == |s.flights| + |s.stranded| && Busy(s) <= Below(|s.agents|)
  {
    ImageSize(s.flights, s.flights.Keys);
    assert Image(s.flights, s.flights.Keys) == s.flights.Values;
    assert s.flights.Values !! s.stranded;
  }

  lemma IdleIffNotBusy(s: State, i: nat)
    requires IdleIffFree(s) && i < |s.agents|
    ensures s.agents[i].idle <==> i !in Busy(s)
  {
    assert Held(s, i) <==> i in s.flights.Values;
  }

  lemma NoneIdleIffAllBusy(s: State)
    requires IdleIffFree(s) && Busy(s) <= Below(|s.agents|)
    ensures (forall a :: a in s.agents ==> !a.idle) <==> Busy(s) == Below(|s.agents|)
  {
    if Busy(s) == Below(|s.agents|) {
      forall a | a in s.agents ensures !a.idle {
        var i :| 0 <= i < |s.agents| && s.agents[i] == a;
        IdleIffNotBusy(s, i);
      }
    } else {
      var i :| i in Below(|s.agents|) && i !in Busy(s);
      IdleIffNotBusy(s, i);
      assert s.agents[i] in s.agents;
    }
  }

  /**
   * A route is refused exactly when the routes in flight and the agents stranded by throws account for
   * every agent, and they never account for more.
   */
  lemma RefusedIffExhausted(s: State, operation: string)
    requires Inv(s)
    ensures |s.flights| + |s.stranded| <= |s.agents|
    ensures Assign(s.agents, operation).None? <==> |s.flights| + |s.stranded| == |s.agents|
  {
    BusyCounts(s);
    SubsetSize(Busy(s), Below(|s.agents|));
    NoneIdleIffAllBusy(s);
  }

  /** A crew of one whose only route threw: nothing is in flight, and the next route is refused. */
  lemma ThrowStrandsCrew(config: Config, operation: string, operation': string)
    requires config.agentCount == 1
    ensures var s := Run(config, [Begin(0, operation), Throw(0)]).0;
      s.flights == map[] && Assign(s.agents, operation').None?
  {
    var e1, e2 := [Begin(0, operation)], [Begin(0, operation), Throw(0)];
    assert e1[..0] == [] && e2[..1] == e1;
    var s0 := Initial(config);
    assert s0.agents == [Agent("orchestrator", true, 0)];
    assert s0.agents[0] in s0.agents;
    assert Run(config, e1).0 == Took(s0, 0, 0);
    assert map[0 := 0] - {0} == map[];
  }

  class Runtime {
    const config: Config
    var agents: seq<Agent>
    var processedItems: nat
    var totalROI: real
    var vaultLog: seq<Extraction>
    /** What the suspended calls remember. */
    ghost var flights: map<nat, nat>
    ghost var stranded: set<nat>

    ghost function View(): State
      reads this
    {
      State(agents, flights, stranded, processedItems, totalROI, vaultLog)
    }

    ghost predicate Valid()
      reads this
    {
      Inv(View())
    }

    constructor (config: Config)
      ensures Valid() && this.config == config && View() == Initial(config)
    {
      this.config := config;
      agents, processedItems, totalROI, vaultLog, flights, stranded := Crew(config), 0, 0.0, [], map[], {};
      new;
      InitialInv(config);
    }

    /** `route` up to its `await`; `None` is the thrown refusal. */
    method BeginRoute(call: nat, operation: string) returns (agent: Option<nat>)
      requires Valid() && call !in flights
      modifies this
      ensures Valid() && View() == Apply(config, old(View()), Begin(call, operation))
      ensures agent.Some? ==> call in flights && flights[call] == agent.value
      ensures agent.None? <==> |old(flights)| + |old(stranded)| == |agents|
    {
      ApplyKeepsInv(config, View(), Begin(call, operation));
      RefusedIffExhausted(View(), operation);
      agent := AssignAgent(operation);
      if agent.Some? {
        var i := agent.value;
        agents := agents[i := agents[i].(idle := false)];
        flights := flights[call := i];
      }
    }

    /** The rest of `route`, for the agent it took. */
    method FinishRoute(ghost call: nat, agent: nat, confidence: real, roi: real)
      requires Valid() && call in flights && flights[call] == agent
      modifies this
      ensures Valid() && View() == Apply(config, old(View()), Finish(call, confidence, roi))
    {
      ghost var before := View();
      if config.vaultEnabled && confidence >= config.confidenceThreshold {
        vaultLog := vaultLog + [Extraction(agent, confidence, roi)];
      }
      processedItems := processedItems + 1;
      totalROI := totalROI + roi;
      ReleaseAgent(agent);
      flights := flights - {call};
      assert View() == Finished(config, before, call, confidence, roi);
      FinishedKeepsInv(config, before, call, confidence, roi);
    }

    /** Idle again, with one more task completed. */
    method ReleaseAgent(agent: nat)
      requires agent < |agents|
      modifies this`agents
      ensures agents == old(agents)[agent := old(agents)[agent].(idle := true, tasks := old(agents)[agent].tasks + 1)]
    {
      agents := agents[agent := agents[agent].(idle := true)];
      agents := agents[agent := agents[agent].(tasks := agents[agent].tasks + 1)];
    }

    /** Two passes over the agents. */
    method AssignAgent(operation: string) returns (agent: Option<nat>)
      ensures agent == Assign(agents, operation)
    {
      var target := RoleFor(operation);
      var i := 0;
      while i < |agents|
        invariant 0 <= i <= |agents|
        invariant forall j :: 0 <= j < i ==> !(agents[j].idle && agents[j].role == target)
      {
        if agents[i].idle && agents[i].role == target { return Some(i); }
        i := i + 1;
      }
      i := 0;
      while i < |agents|
        invariant 0 <= i <= |agents|
        invariant forall j :: 0 <= j < i ==> !agents[j].idle
      {
        if agents[i].idle { return Some(i); }
        i := i + 1;
      }
      return None;
    }
  }
}
