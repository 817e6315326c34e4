/** The manual start of a two-phase experiment: while traffic has not been requested, the
    worker holds every stage from the pause stage on back (internal/engine/pipelines.go). */
module PauseGate {
  import opened Experiment
  import opened ExperimentOrder
  import opened ExperimentPipeline
  import opened Pipelines
  import opened Scheduler
  import opened Text

  datatype Decision = Unavailable | Initialized | Continue(positions: seq<nat>)

  predicate IsGate(def: Definition, pause: string, gate: nat) {
    gate < |def.stages| && def.stages[gate].id == pause && forall k :: 0 <= k < gate ==> def.stages[k].id != pause
  }

  predicate ReachedGate(stages: seq<RunStage>, gate: nat)
    requires gate <= |stages|
  {
    forall i :: 0 <= i < gate ==> stages[i].status == Succeeded
  }

  function Below(positions: seq<nat>, gate: nat): seq<nat> {
    if positions == [] then []
    else
      var rest := Below(positions[..|positions| - 1], gate);
      if positions[|positions| - 1] < gate then rest + [positions[|positions| - 1]] else rest
  }

  lemma {:induction false} BelowMeaning(positions: seq<nat>, gate: nat)
    ensures forall p :: p in Below(positions, gate) <==> p in positions && p < gate
  {
    if positions != [] {
      var n := |positions| - 1;
      assert positions == positions[..n] + [positions[n]];
      BelowMeaning(positions[..n], gate);
    }
  }

  /** What the reconciliation decides about the returned positions while traffic has not been
      requested: the pause stage is missing, everything before it has succeeded, or the
      positions before it may be started. */
  ghost predicate Decides(def: Definition, stages: seq<RunStage>, positions: seq<nat>, pause: string, decision: Decision)
    requires |stages| == |def.stages|
  {
    && (decision == Unavailable <==> forall g: nat :: !IsGate(def, pause, g))
    && forall g: nat :: IsGate(def, pause, g) ==>
         decision == if ReachedGate(stages, g) then Initialized else Continue(Below(positions, g))
  }

  /** The gate of the reconciliation loop. */
  method ApplyGate(def: Definition, stages: seq<RunStage>, positions: seq<nat>, pause: string) returns (decision: Decision)
    requires |stages| == |def.stages|
    ensures Decides(def, stages, positions, pause, decision)
  {
    var gate := 0;
    while gate < |def.stages| && def.stages[gate].id != pause
      invariant gate <= |def.stages| && forall k :: 0 <= k < gate ==> def.stages[k].id != pause
    {
      gate := gate + 1;
    }
    if gate == |def.stages| {
      return Unavailable;
    }
    assert IsGate(def, pause, gate);
    var ready := true;
    for i := 0 to gate
      invariant ready <==> forall k :: 0 <= k < i ==> stages[k].status == Succeeded
    {
      if stages[i].status != Succeeded {
        ready := false;
      }
    }
    if ready {
      return Initialized;
    }
    var allowed: seq<nat> := [];
    for k := 0 to |positions|
      invariant allowed == Below(positions[..k], gate)
    {
      assert positions[..k + 1][..k] == positions[..k];
      if positions[k] < gate {
        allowed := allowed + [positions[k]];
      }
    }
    assert positions[..|positions|] == positions;
    return Continue(allowed);
  }

  // ---- Runs behind a gate ----

  /** A start step of a paused run starts what the gate decision leaves of the positions that
      the scheduler returned, and nothing on any other decision. */
  ghost predicate GateAllows(def: Definition, pause: string, s: RunState, e: Event) {
    e.Start? && |s.stages| == |def.stages| ==>
      exists decision :: Decides(def, s.stages, Ready(def, s.stages), pause, decision)
                         && forall i :: i in e.ops ==> decision.Continue? && i in decision.positions
  }

  /** A run for which traffic has not been requested. */
  ghost predicate IsPausedRun(def: Definition, pause: string, states: seq<RunState>, events: seq<Event>) {
    IsRun(def, states, events) && forall k :: 0 <= k < |events| ==> GateAllows(def, pause, states[k], events[k])
  }

  predicate NothingBeyond(gate: nat, s: RunState) {
    forall i :: gate <= i < |s.stages| ==> !Started(s.stages[i])
  }

  /** Whatever is started lies before the gate, and the gate has not been reached. */
  lemma StartsBelow(def: Definition, pause: string, gate: nat, s: RunState, e: Event)
    requires IsGate(def, pause, gate) && |s.stages| == |def.stages| && GateAllows(def, pause, s, e) && e.Start?
    ensures forall i :: i in e.ops ==> i < gate && !ReachedGate(s.stages, gate)
  {
    var decision :| Decides(def, s.stages, Ready(def, s.stages), pause, decision)
                    && forall i :: i in e.ops ==> decision.Continue? && i in decision.positions;
    BelowMeaning(Ready(def, s.stages), gate);
  }

  /** While the run is paused, nothing from the pause stage on is started. */
  lemma {:induction false} GateHolds(def: Definition, pause: string, gate: nat, states: seq<RunState>, events: seq<Event>, k: nat)
    requires IsPausedRun(def, pause, states, events) && IsGate(def, pause, gate) && k <= |events|
    ensures |states[k].stages| == |def.stages| && NothingBeyond(gate, states[k])
  {
    if k > 0 {
      var s, s', e := states[k - 1], states[k], events[k - 1];
      GateHolds(def, pause, gate, states, events, k - 1);
      assert Next(def, s, s', e) && GateAllows(def, pause, s, e);
      if e.Start? {
        StartsBelow(def, pause, gate, s, e);
      }
    }
  }

  /** Without the pause stage a paused run starts nothing at all. */
  lemma {:induction false} MissingGateHolds(def: Definition, pause: string, states: seq<RunState>, events: seq<Event>, k: nat)
    requires IsPausedRun(def, pause, states, events) && (forall g: nat :: !IsGate(def, pause, g)) && k <= |events|
    ensures |states[k].stages| == |def.stages| && NothingBeyond(0, states[k])
  {
    if k > 0 {
      MissingGateHolds(def, pause, states, events, k - 1);
      assert Next(def, states[k - 1], states[k], events[k - 1]) && GateAllows(def, pause, states[k - 1], events[k - 1]);
    }
  }

  /** When the gate is reached the run is initialized: everything before the pause stage has
      succeeded and nothing is active, so it rests until traffic is requested. */
  lemma InitializedIsIdle(def: Definition, pause: string, gate: nat, states: seq<RunState>, events: seq<Event>, k: nat)
    requires IsPausedRun(def, pause, states, events) && IsGate(def, pause, gate) && k <= |events|
    requires gate <= |states[k].stages| && ReachedGate(states[k].stages, gate)
    ensures ActiveSet(states[k].stages) == {}
    ensures k < |events| && events[k].Start? ==> events[k].ops == map[]
  {
    GateHolds(def, pause, gate, states, events, k);
    if k < |events| && events[k].Start? {
      assert GateAllows(def, pause, states[k], events[k]);
      StartsBelow(def, pause, gate, states[k], events[k]);
      assert forall i :: i !in events[k].ops;
    }
  }

  /** The gate is always reached: an idle run that has not failed and has work left before
      the gate gets a stage that the gate lets through. */
  lemma GateIsReached(def: Definition, s: RunState, gate: nat)
    requires Reachable(def, s) && BackwardEdges(def.stages) && gate <= |s.stages| == |def.stages|
    requires ActiveSet(s.stages) == {} && NoFailure(s.stages) && !ReachedGate(s.stages, gate)
    ensures Below(Ready(def, s.stages), gate) != []
  {
    ReachableSafe(def, s);
    var i :| 0 <= i < gate && s.stages[i].status != Succeeded;
    var p := FirstUnfinished(s, i);
    assert p <= i;
    assert !Started(s.stages[p]) by {
      assert p !in ActiveSet(s.stages);
    }
    ReadyBehindSuccess(def, s, p);
    EarliestReady(def, s, gate, p);
  }

  /** With nothing active the scheduler returns the earliest ready stages. */
  lemma EarliestReady(def: Definition, s: RunState, gate: nat, p: nat)
    requires |s.stages| == |def.stages| && p < gate && p < |s.stages| && IsReady(def, s.stages, p) && ActiveSet(s.stages) == {}
    ensures Below(Ready(def, s.stages), gate) != []
  {
    ReadyFromMeaning(def, s.stages, 0, Limit(def));
    var positions := Ready(def, s.stages);
    BelowMeaning(positions, gate);
    if p !in positions {
      assert positions[0] in positions;
    }
  }

  // ---- Experiments ----

  /** The pause computed for a compiled experiment is one of its stages. */
  lemma PauseIsGate(registry: Registry, components: seq<Component>, r: Request, first: nat, def: Definition) returns (gate: nat)
    requires Installed(registry, components) && Compiled(registry, components, r, def) && IsLoad(components, first)
    ensures IsGate(def, CapabilityId(first), gate) && IsAt(registry, components, first, gate)
  {
    gate := EachComponentOnce(registry, components, r, def, first);
    CapabilityRuns(registry, components, r, def, first, gate);
  }

  /** Until traffic is requested, no load stage of a compiled experiment is started, unless its
      load components are split (ExperimentOrder.PauseBeforeEveryLoad). */
  lemma NoTrafficBeforeRequest(registry: Registry, components: seq<Component>, r: Request, first: nat, def: Definition,
                               states: seq<RunState>, events: seq<Event>, k: nat, j: nat, q: nat)
    requires Installed(registry, components) && Compiled(registry, components, r, def) && Capable(registry, components)
    requires FirstLoad(components, first) && !LoadsSplit(registry, components, first)
    requires IsPausedRun(def, CapabilityId(first), states, events) && k <= |events|
    requires IsLoad(components, j) && RunsComponent(components, def, j, q) && q < |states[k].stages|
    ensures !Started(states[k].stages[q])
  {
    var gate := PauseIsGate(registry, components, r, first, def);
    PauseBeforeEveryLoad(registry, components, first);
    CapabilityRuns(registry, components, r, def, j, q);
    assert gate <= q;
    GateHolds(def, CapabilityId(first), gate, states, events, k);
  }

  /** A paused experiment that is idle, has not failed and is not initialized is given a stage
      that the gate lets through, so initialization cannot get stuck. */
  lemma InitializationProgresses(registry: Registry, components: seq<Component>, r: Request, def: Definition, s: RunState, gate: nat)
    requires Installed(registry, components) && Compiled(registry, components, r, def)
    requires Reachable(def, s) && gate <= |s.stages| == |def.stages|
    requires ActiveSet(s.stages) == {} && NoFailure(s.stages) && !ReachedGate(s.stages, gate)
    ensures Below(Ready(def, s.stages), gate) != []
  {
    CompiledBackward(registry, components, r, def);
    GateIsReached(def, s, gate);
  }

  /** Compiled experiments run one stage at a time, in the order of their stages, and a run in
      which nothing fails is only ever blocked when every stage has succeeded. */
  lemma ExperimentRuns(registry: Registry, components: seq<Component>, r: Request, def: Definition, states: seq<RunState>, events: seq<Event>)
    requires Installed(registry, components) && Compiled(registry, components, r, def) && IsRun(def, states, events)
    ensures var last := states[|events|];
      && |last.stages| == |def.stages| && |ActiveSet(last.stages)| <= 1
      && (forall i: nat, j: nat :: j < i < |last.stages| && Started(last.stages[i]) ==> last.stages[j].status == Succeeded)
      && (NeverFails(events) ==> (Blocked(def, last) <==> AllSucceeded(last)))
  {
    var last := states[|events|];
    CompiledBackward(registry, components, r, def);
    LayoutDistinct(registry, components);
    assert Distinct(StageIds(def.stages));
    RunReaches(def, states, events);
    ReachableSafe(def, last);
    forall i: nat, j: nat | j < i < |last.stages| && Started(last.stages[i]) ensures last.stages[j].status == Succeeded {
      SequentialPrefix(def, last, i, j);
    }
    if NeverFails(events) {
      UnfailingRunFinishes(def, states, events);
    }
  }
}
