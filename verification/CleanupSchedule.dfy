/** What a recreation schedules for cleanup: exactly what is outstanding, each operation
    once, later stages first. */
module CleanupSchedule {
  import opened Text
  import opened Pipelines
  import opened Scheduler
  import opened Planner
  import opened Recreation
  import opened Lifecycle

  // ---- What a recreation selects ----

  lemma {:induction false} SelectedConcat(a: seq<Target>, b: seq<Target>, cleanable: set<string>)
    ensures Selected(a + b, cleanable) == Selected(a, cleanable) + Selected(b, cleanable)
  {
    if b == [] {
      assert a + b == a;
    } else {
      var n := |b| - 1;
      assert (a + b)[..|a + b| - 1] == a + b[..n];
      SelectedConcat(a, b[..n], cleanable);
    }
  }

  lemma {:induction false} SelectedAll(targets: seq<Target>, cleanable: set<string>)
    requires forall t :: t in targets ==> t.operationId in cleanable
    ensures Selected(targets, cleanable) == targets
  {
    if targets != [] {
      var n := |targets| - 1;
      assert targets == targets[..n] + [targets[n]];
      SelectedAll(targets[..n], cleanable);
    }
  }

  predicate Falling(positions: seq<nat>) {
    forall a, b :: 0 <= a < b < |positions| ==> positions[a] > positions[b]
  }

  predicate Rising(positions: seq<nat>) {
    forall a, b :: 0 <= a < b < |positions| ==> positions[a] < positions[b]
  }

  predicate Removable(stage: RunStage, cleanable: set<string>) {
    Provisioned(stage) && stage.operationId in cleanable
  }

  /** The positions below `n` of the removals a recreation schedules, in scheduling order. */
  function RemovalPositions(stages: seq<RunStage>, cleanable: set<string>, n: nat): seq<nat>
    requires n <= |stages|
  {
    if n == 0 then []
    else (if Removable(stages[n - 1], cleanable) then [n - 1] else []) + RemovalPositions(stages, cleanable, n - 1)
  }

  lemma {:induction false} RemovalPositionsMeaning(stages: seq<RunStage>, cleanable: set<string>, n: nat)
    requires n <= |stages|
    ensures forall p: nat :: p in RemovalPositions(stages, cleanable, n) <==> p < n && Removable(stages[p], cleanable)
    ensures Falling(RemovalPositions(stages, cleanable, n))
  {
    if n > 0 {
      RemovalPositionsMeaning(stages, cleanable, n - 1);
      var rest := RemovalPositions(stages, cleanable, n - 1);
      assert forall k :: 0 <= k < |rest| ==> rest[k] in rest;
    }
  }

  predicate RemovesAt(stages: seq<RunStage>, target: Target, p: nat) {
    p < |stages| && target == RemovalOf(stages[p])
  }

  predicate RemovesAll(stages: seq<RunStage>, targets: seq<Target>, positions: seq<nat>) {
    |targets| == |positions| && forall k :: 0 <= k < |targets| ==> RemovesAt(stages, targets[k], positions[k])
  }

  lemma RemovesAllCons(stages: seq<RunStage>, targets: seq<Target>, positions: seq<nat>, p: nat)
    requires p < |stages| && RemovesAll(stages, targets, positions)
    ensures RemovesAll(stages, [RemovalOf(stages[p])] + targets, [p] + positions)
  {
  }

  lemma SelectedCons(target: Target, rest: seq<Target>, cleanable: set<string>)
    ensures Selected([target] + rest, cleanable) == (if target.operationId in cleanable then [target] else []) + Selected(rest, cleanable)
  {
    assert [target][..0] == [];
    SelectedConcat([target], rest, cleanable);
  }

  lemma {:induction false} RemovalsAt(stages: seq<RunStage>, cleanable: set<string>, n: nat)
    requires n <= |stages|
    ensures RemovesAll(stages, Selected(Removals(stages[..n]), cleanable), RemovalPositions(stages, cleanable, n))
  {
    if n > 0 {
      RemovalsStep(stages, n - 1);
      RemovalsAt(stages, cleanable, n - 1);
      var rest := Removals(stages[..n - 1]);
      if Provisioned(stages[n - 1]) {
        SelectedCons(RemovalOf(stages[n - 1]), rest, cleanable);
        RemovesAllCons(stages, Selected(rest, cleanable), RemovalPositions(stages, cleanable, n - 1), n - 1);
      } else {
        assert [] + rest == rest;
      }
    }
  }

  /** The positions below `n` of the cleanups a recreation resumes, in scheduling order. */
  function ResumedPositions(stages: seq<RunStage>, n: nat): seq<nat>
    requires n <= |stages|
  {
    if n == 0 then []
    else ResumedPositions(stages, n - 1) + if UnfinishedCleanup(stages[n - 1]) then [n - 1] else []
  }

  lemma {:induction false} ResumedPositionsMeaning(stages: seq<RunStage>, n: nat)
    requires n <= |stages|
    ensures forall p: nat :: p in ResumedPositions(stages, n) <==> p < n && UnfinishedCleanup(stages[p])
    ensures Rising(ResumedPositions(stages, n))
  {
    if n > 0 {
      ResumedPositionsMeaning(stages, n - 1);
      var rest := ResumedPositions(stages, n - 1);
      assert forall k :: 0 <= k < |rest| ==> rest[k] in rest;
    }
  }

  predicate ResumesAt(stages: seq<RunStage>, saved: seq<Stage>, target: Target, p: nat) {
    && p < |stages| && UnfinishedCleanup(stages[p])
    && target.stageId == stages[p].stageId && target.title == stages[p].title
    && SavedSource(saved, stages[p].stageId) == Some(target.operationId)
  }

  predicate ResumesAll(stages: seq<RunStage>, saved: seq<Stage>, targets: seq<Target>, positions: seq<nat>) {
    |targets| == |positions| && forall k :: 0 <= k < |targets| ==> ResumesAt(stages, saved, targets[k], positions[k])
  }

  predicate SourcesSaved(stages: seq<RunStage>, saved: seq<Stage>) {
    forall j :: 0 <= j < |stages| && UnfinishedCleanup(stages[j]) ==> SavedSource(saved, stages[j].stageId).Some?
  }

  lemma ResumedStep(stages: seq<RunStage>, saved: seq<Stage>, i: nat)
    requires i < |stages| && SourcesSaved(stages, saved) && Resumed(stages[..i], saved).Ok?
    ensures Resumed(stages[..i + 1], saved) ==
              Ok(Resumed(stages[..i], saved).value
                 + if UnfinishedCleanup(stages[i])
                   then [Target(stages[i].stageId, stages[i].title, SavedSource(saved, stages[i].stageId).value)] else [])
  {
    assert stages[..i + 1][..i] == stages[..i];
    var before := Resumed(stages[..i], saved).value;
    assert before + [] == before;
  }

  lemma {:induction false} ResumedAt(stages: seq<RunStage>, saved: seq<Stage>, n: nat)
    requires SourcesSaved(stages, saved) && n <= |stages|
    ensures Resumed(stages[..n], saved).Ok?
    ensures ResumesAll(stages, saved, Resumed(stages[..n], saved).value, ResumedPositions(stages, n))
  {
    if n > 0 {
      ResumedAt(stages, saved, n - 1);
      ResumedStep(stages, saved, n - 1);
    }
  }

  /** With distinct names the saved source of a stage is its own. */
  lemma {:induction false} SavedSourceAt(saved: seq<Stage>, i: nat)
    requires Distinct(StageIds(saved)) && i < |saved|
    requires saved[i].spec.sourceOperationId.Some? && SourceOf(saved[i]) != ""
    ensures SavedSource(saved, saved[i].id) == Some(SourceOf(saved[i]))
  {
    var n := |saved| - 1;
    if i < n {
      var ids := StageIds(saved);
      assert StageIds(saved[..n]) == ids[..n] && ids[i] != ids[n];
      SavedSourceAt(saved[..n], i);
    }
  }

  lemma SourceNotBlank(cleanable: set<string>, l: Life, cleanups: nat, j: nat)
    requires Records(cleanable, l, cleanups) && j < cleanups
    ensures SourceOf(l.def.stages[j]) != ""
  {
    assert IsCreated(l, SourceOf(l.def.stages[j]));
    var k :| 0 <= k < |l.created| && l.created[k].operationId == SourceOf(l.def.stages[j]);
    assert l.created[k].operationId in l.used;
  }

  /** In every lifecycle state the source of every unfinished cleanup is available. */
  lemma SourcesAvailableAgain(mode: Mode, cleanable: set<string>, l: Life, cleanups: nat, starts: seq<nat>, j: nat)
    requires Consistent(mode, cleanable, l, cleanups, starts)
    requires j < |l.run.stages| && UnfinishedCleanup(l.run.stages[j])
    ensures j < cleanups && l.run.stages[j].stageId == l.def.stages[j].id
    ensures SavedSource(l.def.stages, l.def.stages[j].id) == Some(SourceOf(l.def.stages[j]))
  {
    assert CleanupsFirst(l.def.stages, cleanups) && l.run.stages[j].stageId == l.def.stages[j].id;
    SourceNotBlank(cleanable, l, cleanups, j);
    SavedSourceAt(l.def.stages, j);
  }

  /** Something is live only after every cleanup has succeeded. */
  lemma LiveAfterCleanups(mode: Mode, cleanable: set<string>, l: Life, cleanups: nat, starts: seq<nat>, i: nat, j: nat)
    requires Consistent(mode, cleanable, l, cleanups, starts) && Live(l, i) && j < |l.run.stages|
    ensures !UnfinishedCleanup(l.run.stages[j])
  {
    assert l.run.stages[i].stageId == l.def.stages[i].id && l.run.stages[j].stageId == l.def.stages[j].id;
    if j < cleanups {
      ClusterBarrier(mode, l.def, cleanups, starts, l.run, i, j);
    }
  }

  /** Target `t` removes what stage `p` of the current run stands for: what it provisioned,
      or the source it failed to clean up. */
  predicate Removes(l: Life, t: Target, p: nat)
    requires |l.def.stages| == |l.run.stages|
  {
    && p < |l.run.stages|
    && if Provisioned(l.run.stages[p]) then t == RemovalOf(l.run.stages[p])
       else UnfinishedCleanup(l.run.stages[p])
            && t == Target(l.run.stages[p].stageId, l.run.stages[p].title, SourceOf(l.def.stages[p]))
  }

  predicate AllRemovable(stages: seq<RunStage>, cleanable: set<string>, positions: seq<nat>) {
    forall k :: 0 <= k < |positions| ==> positions[k] < |stages| && Removable(stages[positions[k]], cleanable)
  }

  predicate AllUnfinished(stages: seq<RunStage>, positions: seq<nat>) {
    forall k :: 0 <= k < |positions| ==> positions[k] < |stages| && UnfinishedCleanup(stages[positions[k]])
  }

  /** The targets of a recreation, with the stage each of them comes from: all of what is
      removable or unfinished, and either live stages only, last first, or unfinished
      cleanups only, in their order. */
  ghost predicate Scheduled(cleanable: set<string>, l: Life, targets: seq<Target>, positions: seq<nat>)
    requires |l.def.stages| == |l.run.stages|
  {
    && |targets| == |positions|
    && (forall k :: 0 <= k < |targets| ==> Removes(l, targets[k], positions[k]))
    && (forall p: nat :: p < |l.run.stages| && (Removable(l.run.stages[p], cleanable) || UnfinishedCleanup(l.run.stages[p])) ==> p in positions)
    && (|| (Falling(positions) && AllRemovable(l.run.stages, cleanable, positions))
        || (Rising(positions) && AllUnfinished(l.run.stages, positions)))
  }

  lemma {:induction false} NothingResumed(stages: seq<RunStage>, n: nat)
    requires n <= |stages| && forall i :: 0 <= i < |stages| ==> !UnfinishedCleanup(stages[i])
    ensures ResumedPositions(stages, n) == []
  {
    if n > 0 {
      NothingResumed(stages, n - 1);
    }
  }

  lemma {:induction false} RemovalsEmpty(stages: seq<RunStage>)
    requires forall i :: 0 <= i < |stages| ==> !Provisioned(stages[i])
    ensures Removals(stages) == []
  {
    if stages != [] {
      RemovalsEmpty(stages[..|stages| - 1]);
    }
  }

  /** No cleanup is unfinished: only live stages are scheduled. */
  lemma LiveSchedule(cleanable: set<string>, l: Life)
    requires |l.def.stages| == |l.run.stages|
    requires forall j :: 0 <= j < |l.run.stages| ==> !UnfinishedCleanup(l.run.stages[j])
    ensures CleanupTargets(l.run.stages, l.def.stages) == Ok(Removals(l.run.stages))
    ensures Scheduled(cleanable, l, Selected(Removals(l.run.stages), cleanable), RemovalPositions(l.run.stages, cleanable, |l.run.stages|))
  {
    var stages := l.run.stages;
    ResumedAt(stages, l.def.stages, |stages|);
    assert stages[..|stages|] == stages;
    NothingResumed(stages, |stages|);
    assert Removals(stages) + [] == Removals(stages);
    var targets, positions := Selected(Removals(stages), cleanable), RemovalPositions(stages, cleanable, |stages|);
    RemovalsAt(stages, cleanable, |stages|);
    RemovalPositionsMeaning(stages, cleanable, |stages|);
    forall k | 0 <= k < |positions| ensures Removes(l, targets[k], positions[k]) {
      assert positions[k] in positions && RemovesAt(stages, targets[k], positions[k]);
    }
    assert AllRemovable(stages, cleanable, positions) by {
      assert forall k :: 0 <= k < |positions| ==> positions[k] in positions;
    }
  }

  predicate SourceKnown(cleanable: set<string>, l: Life, j: nat)
    requires |l.def.stages| == |l.run.stages|
  {
    && j < |l.run.stages|
    && SavedSource(l.def.stages, l.run.stages[j].stageId) == Some(SourceOf(l.def.stages[j]))
    && SourceOf(l.def.stages[j]) in cleanable
  }

  lemma ResumesScheduled(cleanable: set<string>, l: Life, targets: seq<Target>, positions: seq<nat>)
    requires |l.def.stages| == |l.run.stages|
    requires forall i :: 0 <= i < |l.run.stages| ==> !Provisioned(l.run.stages[i])
    requires ResumesAll(l.run.stages, l.def.stages, targets, positions)
    requires forall p: nat :: p in positions <==> p < |l.run.stages| && UnfinishedCleanup(l.run.stages[p])
    requires Rising(positions) && forall k :: 0 <= k < |positions| ==> SourceKnown(cleanable, l, positions[k])
    ensures Scheduled(cleanable, l, targets, positions)
    ensures forall t :: t in targets ==> t.operationId in cleanable
  {
    forall k | 0 <= k < |targets| ensures Removes(l, targets[k], positions[k]) && targets[k].operationId in cleanable {
      assert ResumesAt(l.run.stages, l.def.stages, targets[k], positions[k]) && SourceKnown(cleanable, l, positions[k]);
    }
    assert forall k :: 0 <= k < |positions| ==> positions[k] in positions;
  }

  lemma OnlyResumed(stages: seq<RunStage>, saved: seq<Stage>)
    requires forall i :: 0 <= i < |stages| ==> !Provisioned(stages[i])
    ensures CleanupTargets(stages, saved) == Resumed(stages, saved)
  {
    RemovalsEmpty(stages);
    if Resumed(stages, saved).Ok? {
      assert [] + Resumed(stages, saved).value == Resumed(stages, saved).value;
    }
  }

  /** Nothing is live: exactly the unfinished cleanups are scheduled. */
  lemma UnfinishedSchedule(cleanable: set<string>, l: Life)
    requires |l.def.stages| == |l.run.stages|
    requires forall i :: 0 <= i < |l.run.stages| ==> !Provisioned(l.run.stages[i])
    requires forall j: nat :: j < |l.run.stages| && UnfinishedCleanup(l.run.stages[j]) ==> SourceKnown(cleanable, l, j)
    ensures CleanupTargets(l.run.stages, l.def.stages).Ok?
    ensures var targets := CleanupTargets(l.run.stages, l.def.stages).value;
      Selected(targets, cleanable) == targets && Scheduled(cleanable, l, targets, ResumedPositions(l.run.stages, |l.run.stages|))
  {
    var stages := l.run.stages;
    OnlyResumed(stages, l.def.stages);
    ResumedAt(stages, l.def.stages, |stages|);
    assert stages[..|stages|] == stages;
    ResumedPositionsMeaning(stages, |stages|);
    var targets, positions := Resumed(stages, l.def.stages).value, ResumedPositions(stages, |stages|);
    forall k | 0 <= k < |positions| ensures SourceKnown(cleanable, l, positions[k]) {
      assert positions[k] in positions;
    }
    ResumesScheduled(cleanable, l, targets, positions);
    SelectedAll(targets, cleanable);
  }

  /** The error path is unreachable, and the schedule is one of the two kinds. */
  lemma Schedule(mode: Mode, cleanable: set<string>, l: Life, cleanups: nat, starts: seq<nat>) returns (targets: seq<Target>, positions: seq<nat>)
    requires Consistent(mode, cleanable, l, cleanups, starts)
    ensures CleanupTargets(l.run.stages, l.def.stages).Ok?
    ensures targets == Selected(CleanupTargets(l.run.stages, l.def.stages).value, cleanable)
    ensures Scheduled(cleanable, l, targets, positions)
  {
    var stages := l.run.stages;
    if i: nat :| Live(l, i) {
      forall j | 0 <= j < |stages| ensures !UnfinishedCleanup(stages[j]) {
        LiveAfterCleanups(mode, cleanable, l, cleanups, starts, i, j);
      }
      LiveSchedule(cleanable, l);
      targets, positions := Selected(Removals(stages), cleanable), RemovalPositions(stages, cleanable, |stages|);
    } else {
      forall i: nat | i < |stages| ensures !Provisioned(stages[i]) {
        assert !Live(l, i);
      }
      forall j | 0 <= j < |stages| && UnfinishedCleanup(stages[j]) ensures SourceKnown(cleanable, l, j) {
        SourcesAvailableAgain(mode, cleanable, l, cleanups, starts, j);
      }
      UnfinishedSchedule(cleanable, l);
      targets, positions := CleanupTargets(stages, l.def.stages).value, ResumedPositions(stages, |stages|);
    }
  }

  // ---- Conservation at a recreation ----

  predicate Covers(targets: seq<Target>, op: string) {
    exists k :: 0 <= k < |targets| && targets[k].operationId == op
  }

  predicate DistinctTargets(targets: seq<Target>) {
    && (forall a, b :: 0 <= a < b < |targets| ==> targets[a].operationId != targets[b].operationId)
    && (forall a, b :: 0 <= a < b < |targets| ==> targets[a].stageId != targets[b].stageId)
    && (forall k :: 0 <= k < |targets| ==> IsCleanup(targets[k].stageId))
  }

  predicate ScheduledAt(cleanable: set<string>, l: Life, t: Target, p: nat)
    requires |l.def.stages| == |l.run.stages|
  {
    Removes(l, t, p) && (Removable(l.run.stages[p], cleanable) || UnfinishedCleanup(l.run.stages[p]))
  }

  lemma ScheduledEach(cleanable: set<string>, l: Life, targets: seq<Target>, positions: seq<nat>, k: nat)
    requires |l.def.stages| == |l.run.stages| && Scheduled(cleanable, l, targets, positions) && k < |targets|
    ensures ScheduledAt(cleanable, l, targets[k], positions[k])
  {
    assert Removes(l, targets[k], positions[k]);
  }

  /** Every target is outstanding... */
  lemma TargetOutstanding(cleanable: set<string>, l: Life, cleanups: nat, t: Target, p: nat)
    requires Records(cleanable, l, cleanups) && CleanupsFirst(l.def.stages, cleanups) && Aligned(l.def, l.run)
    requires ScheduledAt(cleanable, l, t, p)
    ensures Outstanding(l, cleanable, t.operationId)
  {
    assert l.run.stages[p].stageId == l.def.stages[p].id;
    if Removable(l.run.stages[p], cleanable) {
      assert Live(l, p);
      var k :| 0 <= k < |l.created| && l.created[k] == Item(l.run.stages[p].operationId, l.attempt, p);
      assert l.created[k].operationId == t.operationId;
    } else {
      assert p < cleanups;
    }
  }

  /** ...and everything outstanding is a target. */
  lemma OutstandingCovered(cleanable: set<string>, l: Life, cleanups: nat, targets: seq<Target>, positions: seq<nat>, op: string)
    requires Records(cleanable, l, cleanups) && CleanupsFirst(l.def.stages, cleanups) && Aligned(l.def, l.run)
    requires Scheduled(cleanable, l, targets, positions) && Outstanding(l, cleanable, op)
    ensures Covers(targets, op)
  {
    assert Accounted(l, cleanups, op);
    var p: nat;
    if j :| 0 <= j < cleanups && SourceOf(l.def.stages[j]) == op {
      assert UnfinishedCleanup(l.run.stages[j]) by {
        assert l.run.stages[j].stageId == l.def.stages[j].id;
      }
      p := j;
    } else {
      var i: nat :| i < |l.run.stages| && Live(l, i) && l.run.stages[i].operationId == op;
      assert Removable(l.run.stages[i], cleanable);
      p := i;
    }
    var a :| 0 <= a < |positions| && positions[a] == p;
    assert Removes(l, targets[a], p);
    assert targets[a].operationId == op;
  }

  lemma TwoTargets(cleanable: set<string>, l: Life, cleanups: nat, t: Target, p: nat, u: Target, q: nat)
    requires Records(cleanable, l, cleanups) && CleanupsFirst(l.def.stages, cleanups) && Aligned(l.def, l.run)
    requires DistinctOperations(l.run) && Distinct(StageIds(l.def.stages))
    requires ScheduledAt(cleanable, l, t, p) && ScheduledAt(cleanable, l, u, q) && p != q
    requires Provisioned(l.run.stages[p]) == Provisioned(l.run.stages[q])
    ensures t.operationId != u.operationId && t.stageId != u.stageId && IsCleanup(t.stageId)
  {
    var ids := StageIds(l.def.stages);
    assert ids[p] != ids[q];
    assert l.run.stages[p].stageId == ids[p] && l.run.stages[q].stageId == ids[q];
    if Provisioned(l.run.stages[p]) {
      assert t.stageId[|CLEANUP|..] == ids[p] && u.stageId[|CLEANUP|..] == ids[q];
    } else {
      assert p < cleanups && q < cleanups;
    }
  }

  lemma TargetsDistinct(cleanable: set<string>, l: Life, cleanups: nat, targets: seq<Target>, positions: seq<nat>)
    requires Records(cleanable, l, cleanups) && CleanupsFirst(l.def.stages, cleanups) && Aligned(l.def, l.run)
    requires DistinctOperations(l.run) && Distinct(StageIds(l.def.stages))
    requires Scheduled(cleanable, l, targets, positions)
    ensures DistinctTargets(targets)
  {
    forall a, b | 0 <= a < b < |targets|
      ensures targets[a].operationId != targets[b].operationId && targets[a].stageId != targets[b].stageId
    {
      ScheduledEach(cleanable, l, targets, positions, a);
      ScheduledEach(cleanable, l, targets, positions, b);
      TwoTargets(cleanable, l, cleanups, targets[a], positions[a], targets[b], positions[b]);
    }
    forall k | 0 <= k < |targets| ensures IsCleanup(targets[k].stageId) {
      ScheduledEach(cleanable, l, targets, positions, k);
    }
  }

  /** Conservation: in every consistent state a recreation would find its targets, and the
      ones with something to clean up are exactly the operations that were started, can be
      cleaned up and have not been; each is targeted once, under its own stage name. */
  lemma RecreationTargetsExact(mode: Mode, cleanable: set<string>, l: Life, cleanups: nat, starts: seq<nat>)
    requires Consistent(mode, cleanable, l, cleanups, starts)
    ensures CleanupTargets(l.run.stages, l.def.stages).Ok?
    ensures var targets := Selected(CleanupTargets(l.run.stages, l.def.stages).value, cleanable);
      && DistinctTargets(targets)
      && forall op :: Covers(targets, op) <==> Outstanding(l, cleanable, op)
  {
    ReachableSafe(l.def, l.run);
    var targets, positions := Schedule(mode, cleanable, l, cleanups, starts);
    TargetsDistinct(cleanable, l, cleanups, targets, positions);
    forall op | Outstanding(l, cleanable, op) ensures Covers(targets, op) {
      OutstandingCovered(cleanable, l, cleanups, targets, positions, op);
    }
    forall k | 0 <= k < |targets| ensures Outstanding(l, cleanable, targets[k].operationId) {
      ScheduledEach(cleanable, l, targets, positions, k);
      TargetOutstanding(cleanable, l, cleanups, targets[k], positions[k]);
    }
  }

  /** The schedule removes later stages of the run that created them first. */
  lemma ScheduledReversed(cleanable: set<string>, l: Life, cleanups: nat, targets: seq<Target>, positions: seq<nat>, a: nat, b: nat, x: Item, y: Item)
    requires Records(cleanable, l, cleanups) && CleanupsFirst(l.def.stages, cleanups) && Aligned(l.def, l.run)
    requires Scheduled(cleanable, l, targets, positions) && a < b < |targets|
    requires x in l.created && x.operationId == targets[a].operationId
    requires y in l.created && y.operationId == targets[b].operationId
    ensures x.position > y.position
  {
    var p, q := positions[a], positions[b];
    assert Removes(l, targets[a], p) && Removes(l, targets[b], q);
    if Falling(positions) && AllRemovable(l.run.stages, cleanable, positions) {
      LivePosition(cleanable, l, cleanups, p, x);
      LivePosition(cleanable, l, cleanups, q, y);
    } else {
      assert l.run.stages[p].stageId == l.def.stages[p].id && l.run.stages[q].stageId == l.def.stages[q].id;
      assert p < q < cleanups;
      assert RecordOf(l, p, x) && RecordOf(l, q, y);
    }
  }
}
