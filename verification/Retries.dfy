/** Whole lives of a cluster: any interleaving of run steps and recreations. */
module Retries {
  import opened Text
  import opened Pipelines
  import opened Scheduler
  import opened Planner
  import opened MultiCluster
  import opened Recreation
  import opened Lifecycle
  import opened CleanupSchedule

  // ---- The rebuilt pipeline ----

  predicate SameName(a: seq<Stage>, i: nat, b: seq<Stage>, j: nat) {
    i < |a| && j < |b| && a[i].id == b[j].id
  }

  /** From position `from` on, the names of `a` are those of `b` from position `to` on. */
  ghost predicate CarriesOver(a: seq<Stage>, from: nat, b: seq<Stage>, to: nat) {
    && from <= |a| && to <= |b| && |a| - from == |b| - to
    && forall i: nat, j: nat :: from <= i < |a| && j - to == i - from ==> SameName(a, i, b, j)
  }

  lemma CarriesOverTransitive(a: seq<Stage>, from: nat, b: seq<Stage>, via: nat, c: seq<Stage>, to: nat)
    requires CarriesOver(a, from, b, via) && CarriesOver(b, via, c, to)
    ensures CarriesOver(a, from, c, to)
  {
    forall i: nat, j: nat | from <= i < |a| && j - to == i - from ensures SameName(a, i, c, j) {
      var k := i - from + via;
      assert SameName(a, i, b, k) && SameName(b, k, c, j);
    }
  }

  lemma ConcatCarriesOver(front: seq<Stage>, back: seq<Stage>)
    ensures CarriesOver(back, 0, front + back, |front|)
  {
    forall i: nat, j: nat | i < |back| && j - |front| == i ensures SameName(back, i, front + back, j) {
    }
  }

  /** The rebuilt stages before planning. */
  function Joined(targets: seq<Target>, provision: seq<Stage>): seq<Stage> {
    CleanupStages(targets) + provision
  }

  lemma RebuiltShape(mode: Mode, targets: seq<Target>, provision: seq<Stage>, result: Output)
    ensures SameShape(Joined(targets, provision), Rebuilt(mode, targets, provision, result).stages)
  {
  }

  lemma ShapeCarriesOver(a: seq<Stage>, b: seq<Stage>, from: nat)
    requires SameIds(a, b) && from <= |a|
    ensures CarriesOver(a, from, b, from)
  {
    forall i: nat, j: nat | from <= i < |a| && j - from == i - from ensures SameName(a, i, b, j) {
    }
  }

  /** Provisioning stages are no cleanups... */
  lemma ProvisionKept(mode: Mode, kept: seq<Stage>, provision: seq<Stage>)
    requires Rebuilds(mode, kept, provision) && AllKept(kept)
    ensures forall i :: 0 <= i < |provision| ==> !IsCleanup(provision[i].id)
  {
    assert "platform"[0] == 'p' && CLEANUP[0] == 'c';
  }

  lemma ProvisioningKept(stages: seq<Stage>)
    ensures AllKept(Provisioning(stages))
  {
    var kept := Provisioning(stages);
    ProvisioningMeaning(stages);
    KeptMeaning(stages);
    forall i | 0 <= i < |kept| ensures Keeps(kept[i]) {
      assert kept[i] in kept;
    }
  }

  /** ...and have distinct names. */
  lemma ProvisionDistinct(mode: Mode, kept: seq<Stage>, provision: seq<Stage>)
    requires Rebuilds(mode, kept, provision) && Distinct(StageIds(kept))
    ensures Distinct(StageIds(provision))
  {
    var ids := StageIds(kept);
    forall i, j | 0 <= i < j < |provision| ensures provision[i].id != provision[j].id {
      if j < |kept| {
        assert ids[i] != ids[j];
      } else {
        assert Named(kept, kept[i].id);
      }
    }
  }

  lemma RebuiltNames(targets: seq<Target>, provision: seq<Stage>, stages: seq<Stage>)
    requires DistinctTargets(targets) && Distinct(StageIds(provision))
    requires forall i :: 0 <= i < |provision| ==> !IsCleanup(provision[i].id)
    requires CarriesOver(provision, 0, stages, |targets|)
    requires forall j :: 0 <= j < |targets| ==> j < |stages| && stages[j].id == targets[j].stageId
    ensures CleanupsFirst(stages, |targets|)
    ensures Distinct(StageIds(stages))
  {
    var n := |targets|;
    forall k: nat | n <= k < |stages| ensures !IsCleanup(stages[k].id) {
      assert SameName(provision, k - n, stages, k);
    }
    var ids := StageIds(provision);
    forall i: nat, j: nat | i < j < |stages| ensures stages[i].id != stages[j].id {
      if n <= i {
        var a, b := i - n, j - n;
        assert SameName(provision, a, stages, i) && SameName(provision, b, stages, j);
        assert ids[a] != ids[b];
      } else if n <= j {
        assert SameName(provision, j - n, stages, j);
      }
    }
  }

  function Shifted(starts: seq<nat>, from: nat, to: nat): (shifted: seq<nat>)
    requires forall m :: 0 <= m < |starts| ==> starts[m] >= from
    ensures |shifted| == |starts|
    ensures forall m :: 0 <= m < |starts| ==> shifted[m] == starts[m] - from + to
  {
    seq(|starts|, m requires 0 <= m < |starts| => starts[m] - from + to)
  }

  lemma ShiftedBlock(starts: seq<nat>, cleanups: nat, starts': seq<nat>, cleanups': nat, m: nat, i: nat, j: nat)
    requires |starts'| == |starts| && forall k :: 0 <= k < |starts| ==> starts'[k] - cleanups' == starts[k] - cleanups
    requires Block(starts', m, j) && j - cleanups' == i - cleanups
    ensures Block(starts, m, i)
  {
    assert starts'[m - 1] - cleanups' == starts[m - 1] - cleanups && starts'[m] - cleanups' == starts[m] - cleanups;
  }

  lemma LayoutStarts(stages: seq<Stage>, members: nat, cleanups: nat, starts: seq<nat>)
    requires Layout(stages, members, cleanups, starts)
    ensures forall m :: 0 <= m < |starts| ==> cleanups <= starts[m] < |stages|
  {
    assert forall m :: 0 < m < |starts| ==> starts[0] < starts[m];
    assert forall m :: 0 <= m < members ==> starts[m] < starts[members];
  }

  /** The layout survives a change of the number of cleanups in front. */
  lemma LayoutShift(stages: seq<Stage>, members: nat, cleanups: nat, starts: seq<nat>, stages': seq<Stage>, cleanups': nat, starts': seq<nat>)
    requires Layout(stages, members, cleanups, starts) && Distinct(StageIds(stages'))
    requires CleanupsFirst(stages', cleanups') && CarriesOver(stages, cleanups, stages', cleanups')
    requires |starts'| == |starts| && forall m :: 0 <= m < |starts| ==> starts'[m] - cleanups' == starts[m] - cleanups
    ensures Layout(stages', members, cleanups', starts')
  {
    LayoutStarts(stages, members, cleanups, starts);
    assert Increasing(starts');
    assert SameName(stages, starts[members], stages', starts'[members]);
    forall m: nat, j: nat | Block(starts', m, j) && j < |stages'| ensures HasPrefix(stages'[j].id, MemberPrefix(m)) {
      assert starts'[m - 1] - cleanups' == starts[m - 1] - cleanups;
      var i := j - cleanups' + cleanups;
      ShiftedBlock(starts, cleanups, starts', cleanups', m, i, j);
      assert SameName(stages, i, stages', j);
    }
    forall m: nat | 1 <= m <= members ensures HeadIsMachines(stages', starts', m) {
      assert HeadIsMachines(stages, starts, m);
      assert SameName(stages, starts[m - 1], stages', starts'[m - 1]);
    }
  }

  /** No stage of a multi-cluster pipeline has the name of a single-cluster stage. */
  lemma MultiNames(stages: seq<Stage>, members: nat, cleanups: nat, starts: seq<nat>, i: nat)
    requires Layout(stages, members, cleanups, starts) && i < |stages|
    ensures stages[i].id == MESH || HasPrefix(stages[i].id, "c")
  {
    if cleanups <= i < starts[members] {
      var m := BlockExists(starts, members, i);
      assert HasPrefix(stages[i].id, MemberPrefix(m));
      assert MemberPrefix(m)[0] == 'c';
    }
  }

  lemma NoPhase(id: string)
    requires id == MESH || HasPrefix(id, "c")
    ensures id !in PHASES && id != PRUNE
  {
    assert id == MESH || id[0] == 'c';
  }

  /** A multi-cluster recreation keeps the provisioning stages in place. */
  lemma MultiKept(stages: seq<Stage>, members: nat, cleanups: nat, starts: seq<nat>)
    requires Layout(stages, members, cleanups, starts)
    ensures Provisioning(stages) == Kept(stages)
    ensures forall i :: 0 <= i < |stages| ==> stages[i].id != PRUNE
  {
    forall i | 0 <= i < |stages| ensures stages[i].id !in PHASES && stages[i].id != PRUNE {
      MultiNames(stages, members, cleanups, starts, i);
      NoPhase(stages[i].id);
    }
    ProvisioningInOrder(stages);
  }

  lemma MultiProvisioning(stages: seq<Stage>, members: nat, cleanups: nat, starts: seq<nat>)
    requires Layout(stages, members, cleanups, starts) && CleanupsFirst(stages, cleanups)
    ensures CarriesOver(stages, cleanups, Provisioning(stages), 0)
  {
    MultiKept(stages, members, cleanups, starts);
    KeptBehind(stages, cleanups);
    forall i: nat, j: nat | cleanups <= i < |stages| && j == i - cleanups ensures SameName(stages, i, Provisioning(stages), j) {
      assert stages[cleanups + j] == stages[i];
    }
  }

  lemma ShiftedDeclared(a: seq<Stage>, i: nat, b: seq<Stage>, to: nat, j: nat, d: string)
    requires CarriesOver(a, 0, b, to) && j == i + to && DeclaredBefore(a, i, d)
    ensures DeclaredBefore(b, j, d)
  {
    var k: nat :| k < i && k < |a| && a[k].id == d;
    assert SameName(a, k, b, k + to);
  }

  lemma JoinedBackward(targets: seq<Target>, provision: seq<Stage>)
    requires BackwardEdges(provision)
    ensures BackwardEdges(Joined(targets, provision))
  {
    var joined, n := Joined(targets, provision), |targets|;
    ConcatCarriesOver(CleanupStages(targets), provision);
    forall j: nat | j < |joined| ensures BackwardEdgesAt(joined, j) {
      if n <= j {
        var i := j - n;
        assert joined[j] == provision[i] && BackwardEdgesAt(provision, i);
        forall d | DeclaredBefore(provision, i, d) ensures DeclaredBefore(joined, j, d) {
          ShiftedDeclared(provision, i, joined, n, j, d);
        }
      } else {
        assert joined[j] == CleanupStage(targets[j]);
      }
    }
  }

  lemma JoinedNames(mode: Mode, stages: seq<Stage>, targets: seq<Target>, provision: seq<Stage>)
    requires Rebuilds(mode, Provisioning(stages), provision) && DistinctTargets(targets)
    ensures CleanupsFirst(Joined(targets, provision), |targets|) && Distinct(StageIds(Joined(targets, provision)))
  {
    ProvisioningMeaning(stages);
    ProvisioningKept(stages);
    ProvisionKept(mode, Provisioning(stages), provision);
    ProvisionDistinct(mode, Provisioning(stages), provision);
    ConcatCarriesOver(CleanupStages(targets), provision);
    RebuiltNames(targets, provision, Joined(targets, provision));
  }

  lemma RebuildsCarriesOver(members: nat, kept: seq<Stage>, provision: seq<Stage>)
    requires Rebuilds(Multi(members), kept, provision)
    ensures CarriesOver(kept, 0, provision, 0)
  {
  }

  /** The stages of a multi-cluster recreation before planning have the planner's layout. */
  lemma JoinedLayout(stages: seq<Stage>, members: nat, cleanups: nat, starts: seq<nat>, targets: seq<Target>, provision: seq<Stage>)
    returns (starts': seq<nat>)
    requires Layout(stages, members, cleanups, starts) && CleanupsFirst(stages, cleanups)
    requires Rebuilds(Multi(members), Provisioning(stages), provision) && DistinctTargets(targets)
    ensures Layout(Joined(targets, provision), members, |targets|, starts')
  {
    var joined := Joined(targets, provision);
    JoinedNames(Multi(members), stages, targets, provision);
    MultiProvisioning(stages, members, cleanups, starts);
    RebuildsCarriesOver(members, Provisioning(stages), provision);
    ConcatCarriesOver(CleanupStages(targets), provision);
    CarriesOverTransitive(stages, cleanups, Provisioning(stages), 0, provision, 0);
    CarriesOverTransitive(stages, cleanups, provision, 0, joined, |targets|);
    LayoutStarts(stages, members, cleanups, starts);
    starts' := Shifted(starts, cleanups, |targets|);
    LayoutShift(stages, members, cleanups, starts, joined, |targets|, starts');
  }

  lemma LayoutShape(a: seq<Stage>, b: seq<Stage>, members: nat, cleanups: nat, starts: seq<nat>)
    requires SameIds(a, b) && Layout(a, members, cleanups, starts) && CleanupsFirst(a, cleanups)
    ensures Layout(b, members, cleanups, starts) && CleanupsFirst(b, cleanups) && Distinct(StageIds(b))
  {
    LayoutStarts(a, members, cleanups, starts);
    ShapeCarriesOver(a, b, cleanups);
    assert StageIds(a) == StageIds(b);
    LayoutShift(a, members, cleanups, starts, b, cleanups, starts);
  }

  lemma PlannedShape(def: Definition, members: int)
    ensures SameShape(def.stages, Planned(def, members).stages)
  {
  }

  /** Planning turns the layout into a cluster pipeline. */
  lemma PlannedPipeline(plain: Definition, members: nat, cleanups: nat, starts: seq<nat>)
    requires Layout(plain.stages, members, cleanups, starts) && CleanupsFirst(plain.stages, cleanups) && BackwardEdges(plain.stages)
    ensures ClusterPipeline(Multi(members), Planned(plain, members), cleanups, starts)
    ensures BackwardEdges(Planned(plain, members).stages)
  {
    PlannedEdgesBackward(plain, members, cleanups, starts);
    PlannerIdempotent(plain, members);
    PlannedShape(plain, members);
    LayoutShape(plain.stages, Planned(plain, members).stages, members, cleanups, starts);
  }

  lemma RebuiltMulti(members: nat, def: Definition, cleanups: nat, starts: seq<nat>, targets: seq<Target>, provision: seq<Stage>, result: Output)
    returns (starts': seq<nat>)
    requires ClusterPipeline(Multi(members), def, cleanups, starts)
    requires Rebuilds(Multi(members), Provisioning(def.stages), provision) && DistinctTargets(targets)
    ensures ClusterPipeline(Multi(members), Rebuilt(Multi(members), targets, provision, result), |targets|, starts')
    ensures BackwardEdges(Rebuilt(Multi(members), targets, provision, result).stages)
  {
    starts' := JoinedLayout(def.stages, members, cleanups, starts, targets, provision);
    JoinedNames(Multi(members), def.stages, targets, provision);
    JoinedBackward(targets, provision);
    PlannedPipeline(Definition(0, Joined(targets, provision), result), members, |targets|, starts');
  }

  /** A recreation produces a cluster pipeline again. */
  lemma RebuiltPipeline(mode: Mode, def: Definition, cleanups: nat, starts: seq<nat>, targets: seq<Target>, provision: seq<Stage>, result: Output)
    returns (starts': seq<nat>)
    requires ClusterPipeline(mode, def, cleanups, starts)
    requires Rebuilds(mode, Provisioning(def.stages), provision) && DistinctTargets(targets)
    ensures ClusterPipeline(mode, Rebuilt(mode, targets, provision, result), |targets|, starts')
    ensures BackwardEdges(Rebuilt(mode, targets, provision, result).stages)
  {
    match mode {
      case Single =>
        JoinedNames(mode, def.stages, targets, provision);
        JoinedBackward(targets, provision);
        starts' := [];
      case Multi(members) =>
        starts' := RebuiltMulti(members, def, cleanups, starts, targets, provision, result);
    }
  }

  // ---- A recreation keeps the lifecycle consistent ----

  predicate CleansUp(stages: seq<Stage>, targets: seq<Target>) {
    && |targets| <= |stages|
    && forall j :: 0 <= j < |targets| ==> stages[j].spec.sourceOperationId == Some(targets[j].operationId)
  }

  lemma RebuiltCleansUp(mode: Mode, targets: seq<Target>, provision: seq<Stage>, result: Output)
    ensures CleansUp(Rebuilt(mode, targets, provision, result).stages, targets)
  {
    var joined := Joined(targets, provision);
    RebuiltShape(mode, targets, provision, result);
    assert forall j :: 0 <= j < |targets| ==> joined[j] == CleanupStage(targets[j]);
  }

  lemma RecreatedRecords(cleanable: set<string>, l: Life, cleanups: nat, l': Life, targets: seq<Target>, positions: seq<nat>)
    requires Records(cleanable, l, cleanups) && CleanupsFirst(l.def.stages, cleanups) && Aligned(l.def, l.run)
    requires Scheduled(cleanable, l, targets, positions) && DistinctTargets(targets)
    requires forall op :: Covers(targets, op) <==> Outstanding(l, cleanable, op)
    requires l' == l.(attempt := l.attempt + 1, def := l'.def, run := NewRun(l'.def)) && CleansUp(l'.def.stages, targets)
    ensures Records(cleanable, l', |targets|)
  {
    assert forall op :: IsCreated(l', op) <==> IsCreated(l, op);
    assert forall i: nat :: !Live(l', i);
    forall j | 0 <= j < |targets|
      ensures IsCreated(l', SourceOf(l'.def.stages[j])) && SourceOf(l'.def.stages[j]) in cleanable && SourceOf(l'.def.stages[j]) !in l.cleaned
    {
      assert Covers(targets, targets[j].operationId);
      assert Outstanding(l, cleanable, targets[j].operationId);
    }
    RecreatedLost(cleanable, l, l', targets);
    RecreatedReversed(cleanable, l, cleanups, l', targets, positions);
    RecreatedAttempts(cleanable, l, cleanups, l', targets);
  }

  lemma RecreatedLost(cleanable: set<string>, l: Life, l': Life, targets: seq<Target>)
    requires |l'.def.stages| == |l'.run.stages| && CleansUp(l'.def.stages, targets)
    requires l'.created == l.created && l'.cleaned == l.cleaned
    requires forall op :: Outstanding(l, cleanable, op) ==> Covers(targets, op)
    ensures NothingLost(l', cleanable, |targets|)
  {
    forall op | Outstanding(l', cleanable, op) ensures Accounted(l', |targets|, op) {
      assert IsCreated(l, op) && Outstanding(l, cleanable, op);
      var k :| 0 <= k < |targets| && targets[k].operationId == op;
      assert SourceOf(l'.def.stages[k]) == op;
    }
  }

  lemma RecreatedReversed(cleanable: set<string>, l: Life, cleanups: nat, l': Life, targets: seq<Target>, positions: seq<nat>)
    requires Records(cleanable, l, cleanups) && CleanupsFirst(l.def.stages, cleanups) && Aligned(l.def, l.run)
    requires Scheduled(cleanable, l, targets, positions)
    requires l'.created == l.created && CleansUp(l'.def.stages, targets)
    ensures CleanupsReversed(l', |targets|)
  {
    forall a, b, x, y | 0 <= a < b < |targets| && RecordOf(l', a, x) && RecordOf(l', b, y) ensures x.position > y.position {
      ScheduledReversed(cleanable, l, cleanups, targets, positions, a, b, x, y);
    }
  }

  lemma RecreatedAttempts(cleanable: set<string>, l: Life, cleanups: nat, l': Life, targets: seq<Target>)
    requires Records(cleanable, l, cleanups)
    requires l'.created == l.created && l'.cleaned == l.cleaned && l'.attempt == l.attempt + 1 && CleansUp(l'.def.stages, targets)
    ensures Attempts(l', |targets|) && CleanedInOrder(l', cleanable)
  {
    assert forall x, y :: CleanedFirst(l', x, y) ==> CleanedFirst(l, x, y);
  }

  lemma RecreateConsistent(mode: Mode, cleanable: set<string>, l: Life, l': Life, cleanups: nat, starts: seq<nat>, provision: seq<Stage>)
    returns (cleanups': nat, starts': seq<nat>)
    requires Consistent(mode, cleanable, l, cleanups, starts) && RecreateStep(mode, cleanable, l, l', provision)
    ensures Consistent(mode, cleanable, l', cleanups', starts')
  {
    RecreationTargetsExact(mode, cleanable, l, cleanups, starts);
    var targets, positions := Schedule(mode, cleanable, l, cleanups, starts);
    cleanups' := |targets|;
    starts' := RebuiltPipeline(mode, l.def, cleanups, starts, targets, provision, l.def.result);
    RebuiltCleansUp(mode, targets, provision, l.def.result);
    RecreatedRecords(cleanable, l, cleanups, l', targets, positions);
    NewLifeConsistent(mode, cleanable, l', cleanups', starts');
  }

  lemma NewLifeConsistent(mode: Mode, cleanable: set<string>, l: Life, cleanups: nat, starts: seq<nat>)
    requires ClusterPipeline(mode, l.def, cleanups, starts) && BackwardEdges(l.def.stages)
    requires l.run == NewRun(l.def) && Records(cleanable, l, cleanups)
    ensures Consistent(mode, cleanable, l, cleanups, starts)
  {
    NewRunReachable(l.def);
  }

  // ---- Whole lives ----

  datatype LifeEvent = Ran(event: Event) | Recreated(provision: seq<Stage>)

  predicate LifeStep(mode: Mode, cleanable: set<string>, l: Life, l': Life, e: LifeEvent) {
    match e
    case Ran(event) => RunStep(l, l', event)
    case Recreated(provision) => RecreateStep(mode, cleanable, l, l', provision)
  }

  /** A cluster that has just been created. */
  ghost predicate NewLife(mode: Mode, l: Life) {
    && (exists starts :: ClusterPipeline(mode, l.def, 0, starts)) && BackwardEdges(l.def.stages)
    && l == Life(l.def, NewRun(l.def), 0, [], [], {})
  }

  ghost predicate IsLife(mode: Mode, cleanable: set<string>, lives: seq<Life>, events: seq<LifeEvent>) {
    && |lives| == |events| + 1
    && NewLife(mode, lives[0])
    && forall k: nat :: k < |events| ==> LifeStepAt(mode, cleanable, lives, events, k)
  }

  predicate LifeStepAt(mode: Mode, cleanable: set<string>, lives: seq<Life>, events: seq<LifeEvent>, k: nat)
    requires k < |events| && |lives| == |events| + 1
  {
    LifeStep(mode, cleanable, lives[k], lives[k + 1], events[k])
  }

  ghost predicate ConsistentLife(mode: Mode, cleanable: set<string>, l: Life) {
    exists cleanups, starts :: Consistent(mode, cleanable, l, cleanups, starts)
  }

  lemma NewLifeStartsConsistent(mode: Mode, cleanable: set<string>, l: Life)
    requires NewLife(mode, l)
    ensures ConsistentLife(mode, cleanable, l)
  {
    var starts :| ClusterPipeline(mode, l.def, 0, starts);
    assert forall i: nat :: !Live(l, i);
    NewLifeConsistent(mode, cleanable, l, 0, starts);
  }

  lemma LifeStepConsistent(mode: Mode, cleanable: set<string>, l: Life, l': Life, e: LifeEvent)
    requires ConsistentLife(mode, cleanable, l) && LifeStep(mode, cleanable, l, l', e)
    ensures ConsistentLife(mode, cleanable, l')
  {
    var cleanups, starts :| Consistent(mode, cleanable, l, cleanups, starts);
    match e {
      case Ran(event) => RunStepConsistent(mode, cleanable, l, l', cleanups, starts, event);
      case Recreated(provision) => var _, _ := RecreateConsistent(mode, cleanable, l, l', cleanups, starts, provision);
    }
  }

  /** Every state of every life is consistent. */
  lemma LifeConsistent(mode: Mode, cleanable: set<string>, lives: seq<Life>, events: seq<LifeEvent>, k: nat)
    requires IsLife(mode, cleanable, lives, events) && k <= |events|
    ensures ConsistentLife(mode, cleanable, lives[k])
  {
    var consistent := l => ConsistentLife(mode, cleanable, l);
    var step := (l, l', e) => LifeStep(mode, cleanable, l, l', e);
    forall l, l', e | consistent(l) && step(l, l', e) ensures consistent(l') {
      LifeStepConsistent(mode, cleanable, l, l', e);
    }
    NewLifeStartsConsistent(mode, cleanable, lives[0]);
    forall j | 0 <= j < |events| ensures step(lives[j], lives[j + 1], events[j]) {
      assert LifeStepAt(mode, cleanable, lives, events, j);
    }
    InvariantHolds(lives, events, consistent, step, k);
  }

  /** Conservation over every life, however many recreations it holds: the cleanup targets
      of the last run can always be computed, they are exactly the operations that were
      started, can be cleaned up and have not been, each once and under its own stage name,
      and no operation is ever cleaned up twice or without having been started. */
  lemma LifecycleConservation(mode: Mode, cleanable: set<string>, lives: seq<Life>, events: seq<LifeEvent>, k: nat)
    requires IsLife(mode, cleanable, lives, events) && k <= |events|
    ensures CleanupTargets(lives[k].run.stages, lives[k].def.stages).Ok?
    ensures var targets := Selected(CleanupTargets(lives[k].run.stages, lives[k].def.stages).value, cleanable);
      && DistinctTargets(targets)
      && forall op :: Covers(targets, op) <==> Outstanding(lives[k], cleanable, op)
    ensures Distinct(lives[k].cleaned)
    ensures forall op :: op in lives[k].cleaned ==> IsCreated(lives[k], op) && op in cleanable
  {
    LifeConsistent(mode, cleanable, lives, events, k);
    var cleanups, starts :| Consistent(mode, cleanable, lives[k], cleanups, starts);
    RecreationTargetsExact(mode, cleanable, lives[k], cleanups, starts);
  }

  /** An attempt provisions on a clean slate: once it has started anything, everything that
      earlier attempts created has been cleaned up. */
  lemma CleanSlate(mode: Mode, cleanable: set<string>, lives: seq<Life>, events: seq<LifeEvent>, k: nat, i: nat, x: Item)
    requires IsLife(mode, cleanable, lives, events) && k <= |events|
    requires Live(lives[k], i) && x in lives[k].created && x.attempt < lives[k].attempt && x.operationId in cleanable
    ensures x.operationId in lives[k].cleaned
  {
    LifeConsistent(mode, cleanable, lives, events, k);
    var cleanups, starts :| Consistent(mode, cleanable, lives[k], cleanups, starts);
    var l := lives[k];
    if x.operationId !in l.cleaned {
      var j := SourceOfOlder(cleanable, l, cleanups, x);
      LiveAfterCleanups(mode, cleanable, l, cleanups, starts, i, j);
    }
  }

  /** What an earlier attempt left outstanding is the source of a cleanup stage. */
  lemma SourceOfOlder(cleanable: set<string>, l: Life, cleanups: nat, x: Item) returns (j: nat)
    requires Records(cleanable, l, cleanups) && x in l.created && x.attempt < l.attempt
    requires x.operationId in cleanable && x.operationId !in l.cleaned
    ensures j < cleanups && SourceOf(l.def.stages[j]) == x.operationId
  {
    CreatedRecord(l, x);
    assert Accounted(l, cleanups, x.operationId);
    if p: nat :| p < |l.run.stages| && Live(l, p) && l.run.stages[p].operationId == x.operationId {
      LivePosition(cleanable, l, cleanups, p, x);
      assert false;
    }
    j :| 0 <= j < cleanups && SourceOf(l.def.stages[j]) == x.operationId;
  }

  lemma CreatedStays(mode: Mode, cleanable: set<string>, l: Life, l': Life, e: LifeEvent, x: Item)
    requires LifeStep(mode, cleanable, l, l', e) && x in l.created
    ensures x in l'.created
  {
  }

  lemma CreatedForGood(mode: Mode, cleanable: set<string>, lives: seq<Life>, events: seq<LifeEvent>, k: nat, n: nat, x: Item)
    requires IsLife(mode, cleanable, lives, events) && k <= n <= |events| && x in lives[k].created
    ensures x in lives[n].created
  {
    var recorded := (l: Life) => x in l.created;
    var step := (l, l', e) => LifeStep(mode, cleanable, l, l', e);
    forall l, l', e | recorded(l) && step(l, l', e) ensures recorded(l') {
      CreatedStays(mode, cleanable, l, l', e, x);
    }
    var later, after := lives[k..], events[k..];
    forall j | 0 <= j < |after| ensures step(later[j], later[j + 1], after[j]) {
      assert LifeStepAt(mode, cleanable, lives, events, k + j);
    }
    InvariantHolds(later, after, recorded, step, n - k);
  }

  /** Stage `i` takes an artifact from stage `j` or waits for it. */
  predicate DependsDirectly(stages: seq<Stage>, i: nat, j: nat)
    requires i < |stages| && j < |stages|
  {
    stages[j].id in stages[i].dependsOn || exists b :: b in stages[i].bindings && b.fromStage == stages[j].id
  }

  lemma DependencyIsEarlier(stages: seq<Stage>, i: nat, j: nat)
    requires i < |stages| && j < |stages| && BackwardEdges(stages) && Distinct(StageIds(stages))
    requires DependsDirectly(stages, i, j)
    ensures j < i
  {
    assert BackwardEdgesAt(stages, i);
    assert DeclaredBefore(stages, i, stages[j].id);
    var k :| 0 <= k < i && stages[k].id == stages[j].id;
    assert StageIds(stages)[k] == StageIds(stages)[j];
  }

  /** Every operation is cleaned up before the ones it depended on, whenever that happens. */
  lemma CleanedBeforeDependencies(mode: Mode, cleanable: set<string>, lives: seq<Life>, events: seq<LifeEvent>, k: nat, n: nat, i: nat, j: nat)
    requires IsLife(mode, cleanable, lives, events) && k <= n <= |events|
    requires |lives[k].run.stages| == |lives[k].def.stages| && Live(lives[k], i) && Live(lives[k], j)
    requires DependsDirectly(lives[k].def.stages, i, j)
    requires lives[k].run.stages[i].operationId in cleanable
    requires lives[k].run.stages[j].operationId in lives[n].cleaned
    ensures lives[k].run.stages[i].operationId in lives[n].cleaned
  {
    var l := lives[k];
    LifeConsistent(mode, cleanable, lives, events, k);
    var cleanups, starts :| Consistent(mode, cleanable, lives[k], cleanups, starts);
    DependencyIsEarlier(l.def.stages, i, j);
    var x, y := Item(l.run.stages[i].operationId, l.attempt, i), Item(l.run.stages[j].operationId, l.attempt, j);
    assert x in l.created && y in l.created;
    CreatedForGood(mode, cleanable, lives, events, k, n, x);
    CreatedForGood(mode, cleanable, lives, events, k, n, y);
    LifeConsistent(mode, cleanable, lives, events, n);
    assert CleanedFirst(lives[n], x, y);
  }

  // ---- Creation order ----

  predicate CreatedBefore(l: Life, a: string, b: string) {
    exists i, j :: 0 <= i < j < |l.created| && l.created[i].operationId == a && l.created[j].operationId == b
  }

  /** Each target was created before the targets scheduled ahead of it. */
  predicate ReverseCreation(l: Life, targets: seq<Target>) {
    forall a, b :: 0 <= a < b < |targets| ==> CreatedBefore(l, targets[b].operationId, targets[a].operationId)
  }

  predicate OutstandingAt(l: Life, cleanable: set<string>, i: nat) {
    i < |l.created| && Outstanding(l, cleanable, l.created[i].operationId)
  }

  /** What is outstanding was created in the order of its stages. */
  ghost predicate CreatedInStageOrder(l: Life, cleanable: set<string>) {
    forall i: nat, j: nat :: OutstandingAt(l, cleanable, i) && OutstandingAt(l, cleanable, j) ==>
      (l.created[i].position < l.created[j].position ==> i < j)
  }

  lemma CreatedOnce(cleanable: set<string>, l: Life, i: nat, j: nat)
    requires HistoryConsistent(l, cleanable) && i < |l.created| && j < |l.created|
    requires l.created[i].operationId == l.created[j].operationId
    ensures i == j
  {
  }

  lemma TargetRecord(cleanable: set<string>, l: Life, targets: seq<Target>, k: nat) returns (i: nat)
    requires forall op :: Covers(targets, op) <==> Outstanding(l, cleanable, op)
    requires k < |targets|
    ensures OutstandingAt(l, cleanable, i) && l.created[i].operationId == targets[k].operationId
  {
    assert Covers(targets, targets[k].operationId);
    i :| 0 <= i < |l.created| && l.created[i].operationId == targets[k].operationId;
  }

  /** The schedule is the reverse of creation if what is outstanding was created in stage order... */
  lemma StageOrderGivesReverse(cleanable: set<string>, l: Life, cleanups: nat, targets: seq<Target>, positions: seq<nat>)
    requires Records(cleanable, l, cleanups) && CleanupsFirst(l.def.stages, cleanups) && Aligned(l.def, l.run)
    requires Scheduled(cleanable, l, targets, positions)
    requires forall op :: Covers(targets, op) <==> Outstanding(l, cleanable, op)
    requires CreatedInStageOrder(l, cleanable)
    ensures ReverseCreation(l, targets)
  {
    forall a, b | 0 <= a < b < |targets| ensures CreatedBefore(l, targets[b].operationId, targets[a].operationId) {
      var i := TargetRecord(cleanable, l, targets, b);
      var j := TargetRecord(cleanable, l, targets, a);
      ScheduledReversed(cleanable, l, cleanups, targets, positions, a, b, l.created[j], l.created[i]);
    }
  }

  lemma TargetOf(cleanable: set<string>, l: Life, targets: seq<Target>, i: nat) returns (k: nat)
    requires forall op :: Covers(targets, op) <==> Outstanding(l, cleanable, op)
    requires OutstandingAt(l, cleanable, i)
    ensures k < |targets| && l.created[i].operationId == targets[k].operationId
  {
    var op := l.created[i].operationId;
    assert Covers(targets, op);
    k :| 0 <= k < |targets| && targets[k].operationId == op;
  }

  lemma CreatedBeforeAt(cleanable: set<string>, l: Life, i: nat, j: nat)
    requires HistoryConsistent(l, cleanable) && i < |l.created| && j < |l.created|
    requires CreatedBefore(l, l.created[i].operationId, l.created[j].operationId)
    ensures i < j
  {
    var x, y :| 0 <= x < y < |l.created| && l.created[x].operationId == l.created[i].operationId && l.created[y].operationId == l.created[j].operationId;
    CreatedOnce(cleanable, l, x, i);
    CreatedOnce(cleanable, l, y, j);
  }

  /** ...and only then. */
  lemma ReverseGivesStageOrder(cleanable: set<string>, l: Life, cleanups: nat, targets: seq<Target>, positions: seq<nat>)
    requires Records(cleanable, l, cleanups) && CleanupsFirst(l.def.stages, cleanups) && Aligned(l.def, l.run)
    requires Scheduled(cleanable, l, targets, positions)
    requires forall op :: Covers(targets, op) <==> Outstanding(l, cleanable, op)
    requires ReverseCreation(l, targets)
    ensures CreatedInStageOrder(l, cleanable)
  {
    forall i: nat, j: nat | OutstandingAt(l, cleanable, i) && OutstandingAt(l, cleanable, j) && l.created[i].position < l.created[j].position
      ensures i < j
    {
      var b := TargetOf(cleanable, l, targets, i);
      var a := TargetOf(cleanable, l, targets, j);
      if b < a {
        ScheduledReversed(cleanable, l, cleanups, targets, positions, b, a, l.created[i], l.created[j]);
      }
      EarlierTarget(cleanable, l, targets, i, j, b, a);
    }
  }

  lemma EarlierTarget(cleanable: set<string>, l: Life, targets: seq<Target>, i: nat, j: nat, b: nat, a: nat)
    requires HistoryConsistent(l, cleanable) && ReverseCreation(l, targets)
    requires i < |l.created| && j < |l.created| && l.created[i].position < l.created[j].position
    requires a <= b < |targets| && targets[b].operationId == l.created[i].operationId && targets[a].operationId == l.created[j].operationId
    ensures i < j
  {
    if a < b {
      CreatedBeforeAt(cleanable, l, i, j);
    } else {
      CreatedOnce(cleanable, l, i, j);
    }
  }

  /** The comment in clusterRecreationCleanupTargets promises reverse creation order. It
      holds exactly when the outstanding operations were created in the order of their stages. */
  lemma ReverseCreationOrder(mode: Mode, cleanable: set<string>, l: Life)
    requires ConsistentLife(mode, cleanable, l)
    ensures CleanupTargets(l.run.stages, l.def.stages).Ok?
    ensures ReverseCreation(l, Selected(CleanupTargets(l.run.stages, l.def.stages).value, cleanable))
            <==> CreatedInStageOrder(l, cleanable)
  {
    var cleanups, starts :| Consistent(mode, cleanable, l, cleanups, starts);
    RecreationTargetsExact(mode, cleanable, l, cleanups, starts);
    var targets, positions := Schedule(mode, cleanable, l, cleanups, starts);
    if CreatedInStageOrder(l, cleanable) {
      StageOrderGivesReverse(cleanable, l, cleanups, targets, positions);
    }
    if ReverseCreation(l, targets) {
      ReverseGivesStageOrder(cleanable, l, cleanups, targets, positions);
    }
  }

  // ---- Sequential clusters are cleaned up in reverse creation order ----

  lemma OutstandingIsOlder(l: Life, l': Life, cleanable: set<string>, i: nat)
    requires |l.created| <= |l'.created| && l'.created[..|l.created|] == l.created && l'.cleaned == l.cleaned
    requires i < |l.created| && OutstandingAt(l', cleanable, i)
    ensures l'.created[i] == l.created[i] && OutstandingAt(l, cleanable, i)
  {
    assert l'.created[i] == l.created[i] && l.created[i] in l.created;
    CreatedRecord(l, l.created[i]);
  }

  lemma StartsAfterCleanup(cleanable: set<string>, l: Life, l': Life, cleanups: nat, starts: seq<nat>, ops: map<nat, string>, p: nat, c: nat)
    requires Consistent(Single, cleanable, l, cleanups, starts) && RunStep(l, l', Start(ops))
    requires p in ops && p < |l.def.stages| && IsProvisioning(l.def.stages[p].id) && c < cleanups
    ensures SourceOf(l.def.stages[c]) in l.cleaned
  {
    NextReachable(l.def, l.run, l'.run, Start(ops));
    assert HasStarted(l'.run, p);
    ClusterBarrier(Single, l.def, cleanups, starts, l'.run, p, c);
    assert c !in ops ==> l'.run.stages[c] == l.run.stages[c];
  }

  lemma StartsAfterLive(cleanable: set<string>, l: Life, l': Life, cleanups: nat, starts: seq<nat>, ops: map<nat, string>, p: nat, q: nat)
    requires Consistent(Single, cleanable, l, cleanups, starts) && RunStep(l, l', Start(ops))
    requires p in ops && p < |l.def.stages| && Live(l, q)
    ensures q < p
  {
    NextReachable(l.def, l.run, l'.run, Start(ops));
    LiveAfterStart(Single, cleanable, l, l', cleanups, starts, ops, q);
    assert l'.run.stages[p].status == Queued;
    if q > p {
      SequentialPrefix(l.def, l'.run, q, p);
    }
  }

  /** A sequential run starts a provisioning stage behind everything that is outstanding. */
  lemma StartsBehind(cleanable: set<string>, l: Life, l': Life, cleanups: nat, starts: seq<nat>, ops: map<nat, string>, p: nat, y: Item)
    requires Consistent(Single, cleanable, l, cleanups, starts) && RunStep(l, l', Start(ops))
    requires p in ops && p < |l.def.stages| && IsProvisioning(l.def.stages[p].id)
    requires y in l.created && Outstanding(l, cleanable, y.operationId)
    ensures y.position < p
  {
    assert Accounted(l, cleanups, y.operationId);
    if c: nat :| c < cleanups && SourceOf(l.def.stages[c]) == y.operationId {
      StartsAfterCleanup(cleanable, l, l', cleanups, starts, ops, p, c);
      assert false;
    }
    var q: nat :| q < |l.run.stages| && Live(l, q) && l.run.stages[q].operationId == y.operationId;
    LivePosition(cleanable, l, cleanups, q, y);
    StartsAfterLive(cleanable, l, l', cleanups, starts, ops, p, q);
  }

  lemma AppendedInStageOrder(l: Life, l': Life, cleanable: set<string>, items: seq<Item>, i: nat, j: nat)
    requires CreatedInStageOrder(l, cleanable) && l'.created == l.created + items && l'.cleaned == l.cleaned
    requires forall a, b :: 0 <= a < b < |items| ==> items[a].position < items[b].position
    requires forall x, y :: x in items && y in l.created && Outstanding(l, cleanable, y.operationId) ==> y.position < x.position
    requires OutstandingAt(l', cleanable, i) && OutstandingAt(l', cleanable, j) && l'.created[i].position < l'.created[j].position
    ensures i < j
  {
    var n := |l.created|;
    if i < n {
      if j < n {
        OutstandingIsOlder(l, l', cleanable, i);
        OutstandingIsOlder(l, l', cleanable, j);
      }
    } else if j < n {
      OutstandingIsOlder(l, l', cleanable, j);
    } else {
      assert l'.created[i] == items[i - n] && l'.created[j] == items[j - n];
    }
  }

  lemma StartStageOrder(cleanable: set<string>, l: Life, l': Life, cleanups: nat, starts: seq<nat>, ops: map<nat, string>)
    requires Consistent(Single, cleanable, l, cleanups, starts) && RunStep(l, l', Start(ops))
    requires CreatedInStageOrder(l, cleanable)
    ensures CreatedInStageOrder(l', cleanable)
  {
    var items := StartedItems(l.def, ops, l.attempt, |l.def.stages|);
    StartedItemsMeaning(l.def, ops, l.attempt, |l.def.stages|);
    forall x, y | x in items && y in l.created && Outstanding(l, cleanable, y.operationId) ensures y.position < x.position {
      StartsBehind(cleanable, l, l', cleanups, starts, ops, x.position, y);
    }
    forall i: nat, j: nat | OutstandingAt(l', cleanable, i) && OutstandingAt(l', cleanable, j) && l'.created[i].position < l'.created[j].position
      ensures i < j
    {
      AppendedInStageOrder(l, l', cleanable, items, i, j);
    }
  }

  lemma SequentialStep(cleanable: set<string>, l: Life, l': Life, e: LifeEvent)
    requires ConsistentLife(Single, cleanable, l) && CreatedInStageOrder(l, cleanable) && LifeStep(Single, cleanable, l, l', e)
    ensures ConsistentLife(Single, cleanable, l') && CreatedInStageOrder(l', cleanable)
  {
    LifeStepConsistent(Single, cleanable, l, l', e);
    if e.Ran? && e.event.Start? {
      var cleanups, starts :| Consistent(Single, cleanable, l, cleanups, starts);
      StartStageOrder(cleanable, l, l', cleanups, starts, e.event.ops);
    } else {
      assert l'.created == l.created && l.cleaned <= l'.cleaned;
      FewerOutstanding(cleanable, l, l');
    }
  }

  lemma FewerOutstanding(cleanable: set<string>, l: Life, l': Life)
    requires CreatedInStageOrder(l, cleanable) && l'.created == l.created && l.cleaned <= l'.cleaned
    ensures CreatedInStageOrder(l', cleanable)
  {
    forall i: nat | OutstandingAt(l', cleanable, i) ensures OutstandingAt(l, cleanable, i) {
      assert IsCreated(l, l.created[i].operationId);
    }
  }

  /** In every life of a single cluster the cleanup order is the reverse of creation. */
  lemma SequentialReverseCreation(cleanable: set<string>, lives: seq<Life>, events: seq<LifeEvent>, k: nat)
    requires IsLife(Single, cleanable, lives, events) && k <= |events|
    ensures CleanupTargets(lives[k].run.stages, lives[k].def.stages).Ok?
    ensures ReverseCreation(lives[k], Selected(CleanupTargets(lives[k].run.stages, lives[k].def.stages).value, cleanable))
  {
    var ordered := l => ConsistentLife(Single, cleanable, l) && CreatedInStageOrder(l, cleanable);
    var step := (l, l', e) => LifeStep(Single, cleanable, l, l', e);
    forall l, l', e | ordered(l) && step(l, l', e) ensures ordered(l') {
      SequentialStep(cleanable, l, l', e);
    }
    NewLifeStartsConsistent(Single, cleanable, lives[0]);
    forall j | 0 <= j < |events| ensures step(lives[j], lives[j + 1], events[j]) {
      assert LifeStepAt(Single, cleanable, lives, events, j);
    }
    InvariantHolds(lives, events, ordered, step, k);
    ReverseCreationOrder(Single, cleanable, lives[k]);
  }
}
