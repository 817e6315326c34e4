/** The stage scheduler of internal/engine/pipeline_scheduling.go, and the run it
    drives: a state machine whose steps start the returned stages, let an active
    operation change its status, or begin the termination of a failed run. */
module Scheduler {
  import opened Text
  import opened Pipelines

  function Limit(def: Definition): (limit: nat)
    ensures limit >= 1
  {
    if def.maxParallelStages < 1 then 1 else def.maxParallelStages
  }

  predicate Started(stage: RunStage) {
    stage.operationId != ""
  }

  predicate Active(stage: RunStage) {
    Started(stage) && !Terminal(stage.status)
  }

  /** Some stage named `id` has succeeded. */
  predicate Complete(stages: seq<RunStage>, id: string) {
    exists j :: 0 <= j < |stages| && stages[j].stageId == id && stages[j].status == Succeeded
  }

  function ActiveSet(stages: seq<RunStage>): set<nat> {
    set i | 0 <= i < |stages| && Active(stages[i])
  }

  /** All control dependencies and all artifact inputs of stage `i` are available. */
  predicate SourcesComplete(def: Definition, stages: seq<RunStage>, i: nat)
    requires i < |def.stages|
  {
    && (forall d :: d in def.stages[i].dependsOn ==> Complete(stages, d))
    && (forall b :: b in def.stages[i].bindings ==> Complete(stages, b.fromStage))
  }

  /** Without explicit parallelism a stage also waits for its predecessor. */
  predicate OrderComplete(def: Definition, stages: seq<RunStage>, i: nat)
    requires i < |stages|
  {
    def.maxParallelStages <= 1 && i > 0 ==> Complete(stages, stages[i - 1].stageId)
  }

  predicate IsReady(def: Definition, stages: seq<RunStage>, i: nat)
    requires |stages| <= |def.stages|
    requires i < |stages|
  {
    && !Started(stages[i])
    && stages[i].status == Pending
    && OrderComplete(def, stages, i)
    && SourcesComplete(def, stages, i)
  }

  /** The ready positions from `i` on, in stage order, cut off after `room` of them. */
  function ReadyFrom(def: Definition, stages: seq<RunStage>, i: nat, room: nat): seq<nat>
    requires |stages| <= |def.stages|
    requires i <= |stages|
    decreases |stages| - i
  {
    if i == |stages| || room == 0 then []
    else if IsReady(def, stages, i) then [i] + ReadyFrom(def, stages, i + 1, room - 1)
    else ReadyFrom(def, stages, i + 1, room)
  }

  /** Ready stages are picked in increasing order, at most `room` of them, and one is
      passed over only when the room is used up by earlier ones. */
  lemma {:induction false} ReadyFromMeaning(def: Definition, stages: seq<RunStage>, i: nat, room: nat)
    requires |stages| <= |def.stages|
    requires i <= |stages|
    ensures var positions := ReadyFrom(def, stages, i, room);
      && |positions| <= room
      && (forall p :: p in positions ==> i <= p < |stages| && IsReady(def, stages, p))
      && (forall k, l :: 0 <= k < l < |positions| ==> positions[k] < positions[l])
      && (forall p :: i <= p < |stages| && IsReady(def, stages, p) && p !in positions ==>
            |positions| == room && forall q :: q in positions ==> q < p)
    decreases |stages| - i
  {
    if i < |stages| && room > 0 {
      if IsReady(def, stages, i) {
        ReadyFromMeaning(def, stages, i + 1, room - 1);
        var rest := ReadyFrom(def, stages, i + 1, room - 1);
        assert forall k :: 0 <= k < |rest| ==> rest[k] in rest;
      } else {
        ReadyFromMeaning(def, stages, i + 1, room);
      }
    }
  }

  /** What the scheduler returns: the first ready stages that fit beside the active ones. */
  function Ready(def: Definition, stages: seq<RunStage>): (positions: seq<nat>)
    requires |stages| <= |def.stages|
    ensures forall p :: p in positions ==> p < |stages| && IsReady(def, stages, p)
  {
    var active := |ActiveSet(stages)|;
    var room := if active < Limit(def) then Limit(def) - active else 0;
    ReadyFromMeaning(def, stages, 0, room);
    ReadyFrom(def, stages, 0, room)
  }

  /** The number of stages returned is the room left by the active ones, unless fewer are ready. */
  lemma ReadyMeaning(def: Definition, stages: seq<RunStage>)
    requires |stages| <= |def.stages|
    ensures |Ready(def, stages)| + |ActiveSet(stages)| <= Limit(def) || Ready(def, stages) == []
    ensures Distinct(Ready(def, stages))
    ensures forall p :: 0 <= p < |stages| && IsReady(def, stages, p) && p !in Ready(def, stages) ==>
              |Ready(def, stages)| + |ActiveSet(stages)| >= Limit(def)
  {
    var active := |ActiveSet(stages)|;
    ReadyFromMeaning(def, stages, 0, if active < Limit(def) then Limit(def) - active else 0);
  }

  function ActivePrefix(stages: seq<RunStage>, n: nat): set<nat>
    requires n <= |stages|
  {
    set i | 0 <= i < n && Active(stages[i])
  }

  /** The first loop of readyPipelineStages: names that have succeeded, and how many stages are active. */
  method Survey(stages: seq<RunStage>) returns (complete: set<string>, active: nat)
    ensures forall id :: id in complete <==> Complete(stages, id)
    ensures active == |ActiveSet(stages)|
  {
    complete, active := {}, 0;
    for k := 0 to |stages|
      invariant forall id :: id in complete <==> Complete(stages[..k], id)
      invariant active == |ActivePrefix(stages, k)|
    {
      CompletePrefix(stages, k);
      if stages[k].status == Succeeded {
        complete := complete + {stages[k].stageId};
      }
      if Active(stages[k]) {
        active := active + 1;
        assert ActivePrefix(stages, k + 1) == ActivePrefix(stages, k) + {k};
      } else {
        assert ActivePrefix(stages, k + 1) == ActivePrefix(stages, k);
      }
    }
    assert stages[..|stages|] == stages;
    assert ActivePrefix(stages, |stages|) == ActiveSet(stages);
  }

  /** The inner loops of readyPipelineStages: the order, dependency and binding checks of one stage. */
  method SourcesAvailable(def: Definition, stages: seq<RunStage>, i: nat, complete: set<string>) returns (ready: bool)
    requires |stages| <= |def.stages| && i < |stages|
    requires forall id :: id in complete <==> Complete(stages, id)
    ensures ready <==> OrderComplete(def, stages, i) && SourcesComplete(def, stages, i)
  {
    ready := true;
    if def.maxParallelStages <= 1 && i > 0 && stages[i - 1].stageId !in complete {
      ready := false;
    }
    var dependencies, bindings := def.stages[i].dependsOn, def.stages[i].bindings;
    for d := 0 to |dependencies|
      invariant ready <==> OrderComplete(def, stages, i) && forall k :: 0 <= k < d ==> dependencies[k] in complete
    {
      if dependencies[d] !in complete {
        ready := false;
      }
    }
    for b := 0 to |bindings|
      invariant ready <==> && OrderComplete(def, stages, i)
                           && (forall k :: 0 <= k < |dependencies| ==> dependencies[k] in complete)
                           && (forall k :: 0 <= k < b ==> bindings[k].fromStage in complete)
    {
      if bindings[b].fromStage !in complete {
        ready := false;
      }
    }
  }

  /** internal/engine/pipeline_scheduling.go: readyPipelineStages. */
  method ReadyPipelineStages(def: Definition, stages: seq<RunStage>) returns (positions: seq<nat>)
    requires |stages| <= |def.stages|
    ensures positions == Ready(def, stages)
  {
    var limit := Limit(def);
    var complete, active := Survey(stages);
    positions := [];
    ghost var room := if active < limit then limit - active else 0;
    ghost var target := ReadyFrom(def, stages, 0, room);
    for i := 0 to |stages|
      invariant room == if active < limit then limit - active else 0
      invariant target == positions + ReadyFrom(def, stages, i, room)
    {
      if active >= limit {
        break;
      }
      if stages[i].operationId != "" || stages[i].status != Pending {
        continue;
      }
      var ready := SourcesAvailable(def, stages, i, complete);
      if ready {
        positions := positions + [i];
        active := active + 1;
        room := room - 1;
      }
    }
  }

  lemma CompletePrefix(stages: seq<RunStage>, k: nat)
    requires k < |stages|
    ensures forall id :: Complete(stages[..k + 1], id) <==>
              Complete(stages[..k], id) || (stages[k].stageId == id && stages[k].status == Succeeded)
  {
    forall id
      ensures Complete(stages[..k + 1], id) <==>
              Complete(stages[..k], id) || (stages[k].stageId == id && stages[k].status == Succeeded)
    {
      if Complete(stages[..k], id) {
        var j :| 0 <= j < k && stages[..k][j].stageId == id && stages[..k][j].status == Succeeded;
        assert stages[..k + 1][j] == stages[..k][j];
      }
      if stages[k].stageId == id && stages[k].status == Succeeded {
        assert stages[..k + 1][k] == stages[k];
      }
      if Complete(stages[..k + 1], id) {
        var j :| 0 <= j < k + 1 && stages[..k + 1][j].stageId == id && stages[..k + 1][j].status == Succeeded;
        assert j < k ==> stages[..k][j] == stages[..k + 1][j];
      }
    }
  }

  // ---- Runs ----

  /** A run as the worker sees it: its stages, and whether a terminal status was recorded. */
  datatype RunState = RunState(stages: seq<RunStage>, terminating: bool)

  /** The run stages created for a definition, all pending. */
  function NewRun(def: Definition): RunState {
    RunState(seq(|def.stages|, i requires 0 <= i < |def.stages| =>
                   RunStage(def.stages[i].id, def.stages[i].title, Pending, "")), false)
  }

  predicate NoFailure(stages: seq<RunStage>) {
    forall i :: 0 <= i < |stages| ==> stages[i].status != Failed && stages[i].status != Canceled
  }

  function AssignOperations(stages: seq<RunStage>, ops: map<nat, string>): (result: seq<RunStage>)
    ensures |result| == |stages|
  {
    seq(|stages|, i requires 0 <= i < |stages| =>
      if i in ops then stages[i].(operationId := ops[i], status := Queued) else stages[i])
  }

  /** Operation identifiers handed out by one start step are new and pairwise distinct. */
  predicate FreshOperations(stages: seq<RunStage>, ops: map<nat, string>) {
    && (forall i :: i in ops ==> ops[i] != "" && forall k :: 0 <= k < |stages| ==> stages[k].operationId != ops[i])
    && (forall i, j :: i in ops && j in ops && i != j ==> ops[i] != ops[j])
  }

  /** One reconciliation starts ready stages. It may start fewer than the scheduler
      returned: a paused run stops at its gate, and a failing start ends the loop. */
  predicate StartStep(def: Definition, s: RunState, s': RunState, ops: map<nat, string>)
    requires |s.stages| <= |def.stages|
  {
    && !s.terminating && NoFailure(s.stages)
    && (forall i :: i in ops ==> i in Ready(def, s.stages))
    && FreshOperations(s.stages, ops)
    && s' == s.(stages := AssignOperations(s.stages, ops))
  }

  /** An operation that is not terminal reports another status. */
  predicate SyncStep(s: RunState, s': RunState, i: nat, status: Status) {
    && i < |s.stages| && Active(s.stages[i]) && status != Pending
    && s' == s.(stages := s.stages[i := s.stages[i].(status := status)])
  }

  /** The run stops scheduling; a stage that could not be started is marked. */
  predicate TerminateStep(s: RunState, s': RunState, i: nat, status: Status) {
    && (status == Failed || status == Canceled)
    && s' == RunState(
               if i < |s.stages| && s.stages[i].status == Pending
               then s.stages[i := s.stages[i].(status := status)] else s.stages, true)
  }

  datatype Event = Start(ops: map<nat, string>) | Sync(i: nat, status: Status) | Terminate(i: nat, status: Status)

  predicate Next(def: Definition, s: RunState, s': RunState, e: Event) {
    && |s.stages| <= |def.stages|
    && match e
       case Start(ops) => StartStep(def, s, s', ops)
       case Sync(i, status) => SyncStep(s, s', i, status)
       case Terminate(i, status) => TerminateStep(s, s', i, status)
  }

  /** A finite run: the states visited and the events between them. */
  predicate IsRun(def: Definition, states: seq<RunState>, events: seq<Event>) {
    && |states| == |events| + 1
    && states[0] == NewRun(def)
    && forall k :: 0 <= k < |events| ==> Next(def, states[k], states[k + 1], events[k])
  }

  ghost predicate Reachable(def: Definition, s: RunState) {
    exists states, events :: IsRun(def, states, events) && s == states[|events|]
  }

  // ---- What every run keeps ----

  predicate Aligned(def: Definition, s: RunState) {
    && |s.stages| == |def.stages|
    && forall i :: 0 <= i < |def.stages| ==> s.stages[i].stageId == def.stages[i].id && s.stages[i].title == def.stages[i].title
  }

  /** A stage without an operation never reports progress; one with an operation is not pending. */
  predicate StatusMatchesOperation(s: RunState) {
    forall i :: 0 <= i < |s.stages| ==>
      if Started(s.stages[i]) then s.stages[i].status != Pending
      else s.stages[i].status in {Pending, Failed, Canceled}
  }

  predicate StartedAfterSources(def: Definition, s: RunState)
    requires |s.stages| == |def.stages|
  {
    forall i :: 0 <= i < |s.stages| && Started(s.stages[i]) ==>
      SourcesComplete(def, s.stages, i) && OrderComplete(def, s.stages, i)
  }

  predicate DistinctOperations(s: RunState) {
    forall i, j :: 0 <= i < j < |s.stages| && Started(s.stages[i]) ==> s.stages[i].operationId != s.stages[j].operationId
  }

  predicate Safe(def: Definition, s: RunState) {
    && Aligned(def, s)
    && StatusMatchesOperation(s)
    && |ActiveSet(s.stages)| <= Limit(def)
    && StartedAfterSources(def, s)
    && DistinctOperations(s)
  }

  /** Nothing a step does undoes a success, moves a stage or replaces an operation. */
  predicate Monotone(s: RunState, s': RunState) {
    && |s'.stages| == |s.stages|
    && forall i :: 0 <= i < |s.stages| ==>
         && s'.stages[i].stageId == s.stages[i].stageId
         && (Started(s.stages[i]) ==> s'.stages[i].operationId == s.stages[i].operationId)
         && (Terminal(s.stages[i].status) ==> s'.stages[i].status == s.stages[i].status)
  }

  lemma NextMonotone(def: Definition, s: RunState, s': RunState, e: Event)
    requires Next(def, s, s', e)
    ensures Monotone(s, s')
  {
    if e.Start? {
      forall i | 0 <= i < |s.stages| && i in e.ops
        ensures !Started(s.stages[i]) && s.stages[i].status == Pending
      {
        assert i in Ready(def, s.stages);
      }
    }
  }

  lemma CompleteMonotone(s: RunState, s': RunState, id: string)
    requires Monotone(s, s') && Complete(s.stages, id)
    ensures Complete(s'.stages, id)
  {
    var j :| 0 <= j < |s.stages| && s.stages[j].stageId == id && s.stages[j].status == Succeeded;
    assert s'.stages[j].stageId == id && s'.stages[j].status == Succeeded;
  }

  lemma SourcesMonotone(def: Definition, s: RunState, s': RunState, i: nat)
    requires Monotone(s, s') && |s.stages| == |def.stages| && i < |s.stages|
    requires SourcesComplete(def, s.stages, i) && OrderComplete(def, s.stages, i)
    ensures SourcesComplete(def, s'.stages, i) && OrderComplete(def, s'.stages, i)
  {
    forall id | Complete(s.stages, id) ensures Complete(s'.stages, id) {
      CompleteMonotone(s, s', id);
    }
  }

  /** Starting never exceeds the room the active stages leave. */
  lemma StartWithinLimit(def: Definition, s: RunState, s': RunState, ops: map<nat, string>)
    requires |s.stages| == |def.stages|
    requires StartStep(def, s, s', ops)
    requires |ActiveSet(s.stages)| <= Limit(def)
    ensures |ActiveSet(s'.stages)| <= Limit(def)
  {
    var before, after := ActiveSet(s.stages), ActiveSet(s'.stages);
    forall i | i in after ensures i in before + ops.Keys {
    }
    ElementsBound(Ready(def, s.stages), ops.Keys);
    ReadyMeaning(def, s.stages);
    SubsetSize(after, before + ops.Keys);
    assert |before + ops.Keys| <= |before| + |ops.Keys|;
  }

  lemma {:induction false} SubsetSize<T>(a: set<T>, b: set<T>)
    requires a <= b
    ensures |a| <= |b|
  {
    if a != {} {
      var x :| x in a;
      SubsetSize(a - {x}, b - {x});
    }
  }

  lemma SourcesPreserved(def: Definition, s: RunState, s': RunState, e: Event)
    requires Safe(def, s) && Next(def, s, s', e) && Monotone(s, s')
    ensures StartedAfterSources(def, s')
  {
    forall i | 0 <= i < |s'.stages| && Started(s'.stages[i])
      ensures SourcesComplete(def, s'.stages, i) && OrderComplete(def, s'.stages, i)
    {
      assert Started(s.stages[i]) || (e.Start? && i in Ready(def, s.stages));
      SourcesMonotone(def, s, s', i);
    }
  }

  lemma StartShape(def: Definition, s: RunState, s': RunState, ops: map<nat, string>)
    requires Safe(def, s) && StartStep(def, s, s', ops)
    ensures Aligned(def, s') && StatusMatchesOperation(s') && DistinctOperations(s')
  {
    forall i, j | 0 <= i < j < |s'.stages| && Started(s'.stages[i])
      ensures s'.stages[i].operationId != s'.stages[j].operationId
    {
      assert i !in ops ==> s'.stages[i] == s.stages[i];
      assert j !in ops ==> s'.stages[j] == s.stages[j];
    }
  }

  /** Every step keeps the limit, the source barrier and the identity of operations. */
  lemma NextSafe(def: Definition, s: RunState, s': RunState, e: Event)
    requires Safe(def, s) && Next(def, s, s', e)
    ensures Safe(def, s')
  {
    NextMonotone(def, s, s', e);
    SourcesPreserved(def, s, s', e);
    match e {
      case Start(ops) =>
        StartWithinLimit(def, s, s', ops);
        StartShape(def, s, s', ops);
      case Sync(i, status) =>
        StatusChangeShape(def, s, s', i, status);
      case Terminate(i, status) =>
        if s'.stages != s.stages {
          StatusChangeShape(def, s, s', i, status);
        }
    }
  }

  /** Changing one stage's status, without giving or taking an operation, keeps the shape. */
  lemma StatusChangeShape(def: Definition, s: RunState, s': RunState, i: nat, status: Status)
    requires Safe(def, s) && i < |s.stages|
    requires (Active(s.stages[i]) && status != Pending) || (!Started(s.stages[i]) && status in {Failed, Canceled})
    requires s'.stages == s.stages[i := s.stages[i].(status := status)]
    ensures Aligned(def, s') && StatusMatchesOperation(s') && DistinctOperations(s')
    ensures |ActiveSet(s'.stages)| <= Limit(def)
  {
    SubsetSize(ActiveSet(s'.stages), ActiveSet(s.stages));
  }

  lemma NewRunSafe(def: Definition)
    ensures Safe(def, NewRun(def))
  {
    assert ActiveSet(NewRun(def).stages) == {};
  }

  lemma {:induction false} RunSafe(def: Definition, states: seq<RunState>, events: seq<Event>, k: nat)
    requires IsRun(def, states, events) && k <= |events|
    ensures Safe(def, states[k])
  {
    if k == 0 {
      NewRunSafe(def);
    } else {
      RunSafe(def, states, events, k - 1);
      NextSafe(def, states[k - 1], states[k], events[k - 1]);
    }
  }

  /** Scheduler safety: the parallelism limit and the source barrier hold in every
      state a run can reach. */
  lemma ReachableSafe(def: Definition, s: RunState)
    requires Reachable(def, s)
    ensures Safe(def, s)
  {
    var states, events :| IsRun(def, states, events) && s == states[|events|];
    RunSafe(def, states, events, |events|);
  }

  lemma NewRunReachable(def: Definition)
    ensures Reachable(def, NewRun(def))
  {
    var states, events: seq<Event> := [NewRun(def)], [];
    assert IsRun(def, states, events) && states[|events|] == NewRun(def);
  }

  lemma NextReachable(def: Definition, s: RunState, s': RunState, e: Event)
    requires Reachable(def, s) && Next(def, s, s', e)
    ensures Reachable(def, s')
  {
    var states, events :| IsRun(def, states, events) && s == states[|events|];
    var states', events' := states + [s'], events + [e];
    assert IsRun(def, states', events') && states'[|events'|] == s';
  }

  lemma {:induction false} RunMonotone(def: Definition, states: seq<RunState>, events: seq<Event>, j: nat, k: nat)
    requires IsRun(def, states, events) && j <= k <= |events|
    ensures Monotone(states[j], states[k])
  {
    if j < k {
      RunMonotone(def, states, events, j, k - 1);
      NextMonotone(def, states[k - 1], states[k], events[k - 1]);
    }
  }

  /** Over a whole run: the step that gives stage `i` its operation finds every source
      already complete, and that operation is never replaced, so no stage starts twice. */
  lemma StartsOnceAfterSources(def: Definition, states: seq<RunState>, events: seq<Event>, i: nat, j: nat, k: nat)
    requires IsRun(def, states, events) && j < k <= |events| && i < |def.stages|
    requires |states[j].stages| == |states[j + 1].stages| == |states[k].stages| == |def.stages|
    requires !Started(states[j].stages[i]) && Started(states[j + 1].stages[i])
    ensures events[j].Start? && i in events[j].ops
    ensures SourcesComplete(def, states[j].stages, i)
    ensures states[k].stages[i].operationId == events[j].ops[i]
    ensures forall l :: j < l < |events| && events[l].Start? ==> i !in events[l].ops
  {
    assert Next(def, states[j], states[j + 1], events[j]);
    assert i in Ready(def, states[j].stages);
    RunMonotone(def, states, events, j + 1, k);
    forall l | j < l < |events| && events[l].Start?
      ensures i !in events[l].ops
    {
      RunMonotone(def, states, events, j + 1, l);
      assert Next(def, states[l], states[l + 1], events[l]);
      assert !IsReady(def, states[l].stages, i);
    }
  }

  // ---- Sequential pipelines ----

  /** Every started stage finds its predecessor succeeded. */
  ghost predicate InOrder(stages: seq<RunStage>) {
    forall i, j :: 0 <= j < i < |stages| && i == j + 1 && Started(stages[i]) ==> Started(stages[j]) && stages[j].status == Succeeded
  }

  lemma {:induction false} InOrderPrefix(stages: seq<RunStage>, i: nat, j: nat)
    requires InOrder(stages) && j < i < |stages| && Started(stages[i])
    ensures Started(stages[j]) && stages[j].status == Succeeded
  {
    if j < i - 1 {
      InOrderPrefix(stages, i - 1, j);
    }
  }

  /** Without explicit parallelism the started stages are a prefix, and all of it but
      the last stage has succeeded. */
  lemma SequentialPrefix(def: Definition, s: RunState, i: nat, j: nat)
    requires Reachable(def, s) && def.maxParallelStages <= 1
    requires Distinct(StageIds(def.stages))
    requires j < i < |s.stages| && Started(s.stages[i])
    ensures Started(s.stages[j]) && s.stages[j].status == Succeeded
  {
    ReachableSafe(def, s);
    SequentialInOrder(def, s);
    InOrderPrefix(s.stages, i, j);
  }

  lemma SequentialInOrder(def: Definition, s: RunState)
    requires Safe(def, s) && def.maxParallelStages <= 1 && Distinct(StageIds(def.stages))
    ensures InOrder(s.stages)
  {
    forall i, j | 0 <= j < i < |s.stages| && i == j + 1 && Started(s.stages[i])
      ensures Started(s.stages[j]) && s.stages[j].status == Succeeded
    {
      PredecessorSucceeded(def, s, i);
    }
  }

  lemma PredecessorSucceeded(def: Definition, s: RunState, i: nat)
    requires Safe(def, s) && def.maxParallelStages <= 1
    requires Distinct(StageIds(def.stages))
    requires 0 < i < |s.stages| && Started(s.stages[i])
    ensures Started(s.stages[i - 1]) && s.stages[i - 1].status == Succeeded
  {
    var id := s.stages[i - 1].stageId;
    assert OrderComplete(def, s.stages, i);
    var j :| 0 <= j < |s.stages| && s.stages[j].stageId == id && s.stages[j].status == Succeeded;
    SameStage(def, s, i - 1, j);
  }

  /** With distinct stage identifiers a run stage is determined by its name. */
  lemma SameStage(def: Definition, s: RunState, i: nat, j: nat)
    requires Aligned(def, s) && Distinct(StageIds(def.stages))
    requires i < |s.stages| && j < |s.stages| && s.stages[i].stageId == s.stages[j].stageId
    ensures i == j
  {
    var ids := StageIds(def.stages);
    assert ids[i] == ids[j];
  }

  /** With distinct identifiers, a complete dependency is that stage's own success. */
  lemma CompleteAt(def: Definition, s: RunState, j: nat)
    requires Aligned(def, s) && Distinct(StageIds(def.stages))
    requires j < |def.stages| && Complete(s.stages, def.stages[j].id)
    ensures s.stages[j].status == Succeeded
  {
    var k :| 0 <= k < |s.stages| && s.stages[k].stageId == def.stages[j].id && s.stages[k].status == Succeeded;
    SameStage(def, s, j, k);
  }

  // ---- Progress ----

  predicate AllSucceeded(s: RunState) {
    forall i :: 0 <= i < |s.stages| ==> s.stages[i].status == Succeeded
  }

  /** With backward edges, a pending stage behind succeeded ones is ready. */
  lemma ReadyBehindSuccess(def: Definition, s: RunState, p: nat)
    requires Aligned(def, s) && BackwardEdges(def.stages) && p < |s.stages|
    requires !Started(s.stages[p]) && s.stages[p].status == Pending
    requires forall j :: 0 <= j < p ==> s.stages[j].status == Succeeded
    ensures IsReady(def, s.stages, p)
  {
    forall id | DeclaredBefore(def.stages, p, id) ensures Complete(s.stages, id) {
      var j :| 0 <= j < p && j < |def.stages| && def.stages[j].id == id;
      assert s.stages[j].stageId == id && s.stages[j].status == Succeeded;
    }
    assert BackwardEdgesAt(def.stages, p);
  }

  /** No deadlock: with backward edges, an idle run that has not failed and is not
      finished gets at least one stage from the scheduler. */
  lemma Progress(def: Definition, s: RunState)
    requires Reachable(def, s) && BackwardEdges(def.stages)
    requires ActiveSet(s.stages) == {} && NoFailure(s.stages) && !AllSucceeded(s)
    ensures |s.stages| == |def.stages| && Ready(def, s.stages) != []
  {
    ReachableSafe(def, s);
    var i :| 0 <= i < |s.stages| && s.stages[i].status != Succeeded;
    var p := FirstUnfinished(s, i);
    assert !Started(s.stages[p]) by {
      assert p !in ActiveSet(s.stages);
    }
    ReadyBehindSuccess(def, s, p);
    ReadyMeaning(def, s.stages);
  }

  lemma {:induction false} FirstUnfinished(s: RunState, i: nat) returns (p: nat)
    requires i < |s.stages| && s.stages[i].status != Succeeded
    ensures p < |s.stages| && s.stages[p].status != Succeeded
    ensures forall j :: 0 <= j < p ==> s.stages[j].status == Succeeded
  {
    p := 0;
    while s.stages[p].status == Succeeded
      invariant p <= i
      invariant forall j :: 0 <= j < p ==> s.stages[j].status == Succeeded
      decreases i - p
    {
      p := p + 1;
    }
  }

  /** How much a run that never fails still has to do: two units per pending stage
      (start, finish) and one per active stage. */
  function Work(stages: seq<RunStage>): nat {
    if stages == [] then 0
    else Work(stages[..|stages| - 1]) + WorkOf(stages[|stages| - 1])
  }

  function WorkOf(stage: RunStage): nat {
    if stage.status == Pending then 2 else if Terminal(stage.status) then 0 else 1
  }

  /** Start events that start something and operations that end well. */
  predicate Advances(e: Event) {
    (e.Start? && e.ops.Keys != {}) || (e.Sync? && e.status == Succeeded)
  }

  /** Nothing stops the run and no operation fails or is canceled; other reports are free. */
  predicate NeverFails(events: seq<Event>) {
    forall k :: 0 <= k < |events| ==> !events[k].Terminate? && (events[k].Sync? ==> events[k].status != Failed && events[k].status != Canceled)
  }

  /** How many of the first `k` events advance the run. */
  function Advancing(events: seq<Event>, k: nat): nat
    requires k <= |events|
  {
    if k == 0 then 0 else Advancing(events, k - 1) + if Advances(events[k - 1]) then 1 else 0
  }

  lemma {:induction false} WorkMonotone(a: seq<RunStage>, b: seq<RunStage>)
    requires |a| == |b| && forall i :: 0 <= i < |a| ==> WorkOf(b[i]) <= WorkOf(a[i])
    ensures Work(b) <= Work(a)
    ensures (exists i :: 0 <= i < |a| && WorkOf(b[i]) < WorkOf(a[i])) ==> Work(b) < Work(a)
  {
    if a != [] {
      WorkMonotone(a[..|a| - 1], b[..|b| - 1]);
      if i :| 0 <= i < |a| && WorkOf(b[i]) < WorkOf(a[i]) {
        assert i < |a| - 1 ==> a[..|a| - 1][i] == a[i] && b[..|b| - 1][i] == b[i];
      }
    }
  }

  lemma {:induction false} WorkBound(stages: seq<RunStage>)
    ensures Work(stages) <= 2 * |stages|
  {
    if stages != [] {
      WorkBound(stages[..|stages| - 1]);
    }
  }

  lemma NextNeverAddsWork(def: Definition, s: RunState, s': RunState, e: Event)
    requires Next(def, s, s', e) && NeverFails([e])
    ensures Work(s'.stages) <= Work(s.stages)
    ensures Advances(e) ==> Work(s'.stages) < Work(s.stages)
  {
    assert [e][0] == e;
    if e.Start? {
      assert forall j :: j in e.ops ==> j in Ready(def, s.stages);
      if i :| i in e.ops {
        assert WorkOf(s'.stages[i]) < WorkOf(s.stages[i]);
      }
    } else {
      assert Advances(e) ==> WorkOf(s'.stages[e.i]) < WorkOf(s.stages[e.i]);
    }
    WorkMonotone(s.stages, s'.stages);
  }

  lemma {:induction false} AdvancingBounded(def: Definition, states: seq<RunState>, events: seq<Event>, k: nat)
    requires IsRun(def, states, events) && NeverFails(events) && k <= |events|
    ensures Advancing(events, k) + Work(states[k].stages) <= 2 * |def.stages|
  {
    if k == 0 {
      WorkBound(states[0].stages);
    } else {
      AdvancingBounded(def, states, events, k - 1);
      NextNeverAddsWork(def, states[k - 1], states[k], events[k - 1]);
    }
  }

  lemma {:induction false} NeverFailsNoFailure(def: Definition, states: seq<RunState>, events: seq<Event>, k: nat)
    requires IsRun(def, states, events) && NeverFails(events) && k <= |events|
    ensures NoFailure(states[k].stages)
  {
    if k > 0 {
      NeverFailsNoFailure(def, states, events, k - 1);
      assert Next(def, states[k - 1], states[k], events[k - 1]);
    }
  }

  /** Nothing is active and nothing can be started. */
  predicate Blocked(def: Definition, s: RunState)
    requires |s.stages| <= |def.stages|
  {
    ActiveSet(s.stages) == {} && Ready(def, s.stages) == []
  }

  lemma {:induction false} NothingReady(def: Definition, stages: seq<RunStage>, i: nat, room: nat)
    requires |stages| <= |def.stages| && i <= |stages| && forall p: nat :: p < |stages| ==> !IsReady(def, stages, p)
    ensures ReadyFrom(def, stages, i, room) == []
    decreases |stages| - i
  {
    if i < |stages| {
      NothingReady(def, stages, i + 1, room);
    }
  }

  lemma FinishedIsBlocked(def: Definition, s: RunState)
    requires |s.stages| <= |def.stages| && AllSucceeded(s)
    ensures Blocked(def, s)
  {
    assert ActiveSet(s.stages) == {};
    NothingReady(def, s.stages, 0, Limit(def));
  }

  lemma RunReaches(def: Definition, states: seq<RunState>, events: seq<Event>)
    requires IsRun(def, states, events)
    ensures Reachable(def, states[|events|])
  {
  }

  /** A run in which nothing fails advances at most twice per stage, whatever its operations
      report in between, and when it is blocked every stage has succeeded. */
  lemma UnfailingRunFinishes(def: Definition, states: seq<RunState>, events: seq<Event>)
    requires IsRun(def, states, events) && BackwardEdges(def.stages) && NeverFails(events)
    ensures Advancing(events, |events|) <= 2 * |def.stages|
    ensures |states[|events|].stages| == |def.stages|
    ensures Blocked(def, states[|events|]) <==> AllSucceeded(states[|events|])
  {
    var last := states[|events|];
    AdvancingBounded(def, states, events, |events|);
    NeverFailsNoFailure(def, states, events, |events|);
    RunReaches(def, states, events);
    ReachableSafe(def, last);
    if AllSucceeded(last) {
      FinishedIsBlocked(def, last);
    } else if ActiveSet(last.stages) == {} {
      Progress(def, last);
    }
  }

  // ---- The scheduler, told by the records alone ----

  predicate HasSucceeded(stages: seq<RunStage>, id: string) {
    exists j :: 0 <= j < |stages| && stages[j].stageId == id && stages[j].status == Succeeded
  }

  /** The stages with an operation that has not ended. */
  function UnderWay(stages: seq<RunStage>): set<nat> {
    set i: nat | i < |stages| && stages[i].operationId != "" && stages[i].status !in {Succeeded, Failed, Canceled}
  }

  /** Everything the stage waits for has succeeded: what it depends on, what it reads from and,
      if stages do not run side by side, the stage in front of it. */
  predicate SourcesSucceeded(def: Definition, stages: seq<RunStage>, i: nat)
    requires i < |stages| <= |def.stages|
  {
    && (forall d :: d in def.stages[i].dependsOn ==> HasSucceeded(stages, d))
    && (forall b :: b in def.stages[i].bindings ==> HasSucceeded(stages, b.fromStage))
    && (def.maxParallelStages <= 1 && i > 0 ==> HasSucceeded(stages, stages[i - 1].stageId))
  }

  predicate MayStart(def: Definition, stages: seq<RunStage>, i: nat)
    requires i < |stages| <= |def.stages|
  {
    stages[i].operationId == "" && stages[i].status == Pending && SourcesSucceeded(def, stages, i)
  }

  lemma SucceededMeaning(def: Definition, stages: seq<RunStage>, i: nat)
    requires i < |stages| <= |def.stages|
    ensures SourcesSucceeded(def, stages, i) <==> SourcesComplete(def, stages, i) && OrderComplete(def, stages, i)
    ensures MayStart(def, stages, i) <==> IsReady(def, stages, i)
  {
    forall id ensures HasSucceeded(stages, id) <==> Complete(stages, id) {
    }
  }

  lemma UnderWayMeaning(stages: seq<RunStage>)
    ensures UnderWay(stages) == ActiveSet(stages)
  {
  }

  /** The stages from `i` up to `p` that may start. */
  ghost function StartableBefore(def: Definition, stages: seq<RunStage>, i: nat, p: nat): set<nat>
    requires p <= |stages| <= |def.stages|
  {
    set q: nat | i <= q < p && MayStart(def, stages, q)
  }

  lemma StartableStep(def: Definition, stages: seq<RunStage>, i: nat, p: nat)
    requires i < p <= |stages| <= |def.stages|
    ensures |StartableBefore(def, stages, i, p)| == |StartableBefore(def, stages, i + 1, p)| + if MayStart(def, stages, i) then 1 else 0
  {
    assert StartableBefore(def, stages, i, p) == StartableBefore(def, stages, i + 1, p) + (if MayStart(def, stages, i) then {i} else {});
  }

  lemma {:induction false} PickedExactly(def: Definition, stages: seq<RunStage>, i: nat, room: nat, p: nat)
    requires i <= p < |stages| <= |def.stages|
    ensures p in ReadyFrom(def, stages, i, room) <==> MayStart(def, stages, p) && |StartableBefore(def, stages, i, p)| < room
    decreases p - i
  {
    SucceededMeaning(def, stages, i);
    ReadyFromMeaning(def, stages, i, room);
    if i == p {
      assert StartableBefore(def, stages, p, p) == {};
      ReadyFromMeaning(def, stages, i + 1, room);
    } else {
      StartableStep(def, stages, i, p);
      PickedExactly(def, stages, i + 1, if MayStart(def, stages, i) && room > 0 then room - 1 else room, p);
    }
  }

  /** The scheduler, all inputs: a stage is returned exactly if it may start and there is room
      for it beside the stages under way and the startable ones in front of it. */
  lemma ReadyExactly(def: Definition, stages: seq<RunStage>, p: nat)
    requires p < |stages| <= |def.stages|
    ensures p in Ready(def, stages) <==>
            && MayStart(def, stages, p)
            && |UnderWay(stages)| + |StartableBefore(def, stages, 0, p)| < if def.maxParallelStages < 1 then 1 else def.maxParallelStages
  {
    var active := |ActiveSet(stages)|;
    UnderWayMeaning(stages);
    PickedExactly(def, stages, 0, if active < Limit(def) then Limit(def) - active else 0, p);
  }

  /** Every state of every run: no more stages under way than the definition allows, and behind
      every stage that was started everything it waits for has succeeded. */
  lemma ReachableKeeps(def: Definition, s: RunState)
    requires Reachable(def, s)
    ensures |s.stages| == |def.stages| && |UnderWay(s.stages)| <= if def.maxParallelStages < 1 then 1 else def.maxParallelStages
    ensures forall i: nat :: i < |s.stages| && s.stages[i].operationId != "" ==> SourcesSucceeded(def, s.stages, i)
  {
    ReachableSafe(def, s);
    UnderWayMeaning(s.stages);
    forall i: nat | i < |s.stages| && s.stages[i].operationId != "" ensures SourcesSucceeded(def, s.stages, i) {
      SucceededMeaning(def, s.stages, i);
    }
  }
}
