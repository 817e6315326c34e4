/** Lives that begin with createMultiCluster: what every run in them guarantees, and one in
    which stages are created out of stage order. */
module CreatedLives {
  import opened Text
  import opened Pipelines
  import opened Scheduler
  import opened Planner
  import opened MultiCluster
  import opened Creation
  import opened Recreation
  import opened Lifecycle
  import opened Retries

  /** The pipeline createMultiCluster saves. */
  function CreatedPipeline(members: seq<Member>, pluginId: string, spec: Spec): Definition {
    Planned(Created(members, pluginId, spec), |members|)
  }

  function NewbornLife(def: Definition): Life {
    Life(def, NewRun(def), 0, [], [], {})
  }

  /** What createMultiCluster builds begins a life. */
  lemma CreatedIsNewLife(members: seq<Member>, pluginId: string, spec: Spec)
    requires AllPrepared(members) && |members| >= 1
    ensures NewLife(Multi(|members|), NewbornLife(CreatedPipeline(members, pluginId, spec)))
    ensures ClusterPipeline(Multi(|members|), CreatedPipeline(members, pluginId, spec), 0, Starts(|members|))
  {
    var plain := Created(members, pluginId, spec);
    CreatedPhased(members, pluginId, spec);
    PhasedLayout(plain.stages, |members|);
    CreatedBackward(members, pluginId, spec);
    forall i: nat | i < |plain.stages| ensures !IsCleanup(plain.stages[i].id) {
      if i < 5 * |members| {
        var m, k := Locate(i, |members|);
        MemberIsNotCleanup(PhaseId(m, k), m + 1);
      }
    }
    PlannedPipeline(plain, |members|, 0, Starts(|members|));
  }

  /** In every state of every life of a multi-cluster environment, however many recreations
      came before, the current run has the guarantees of its planned pipeline: all of its
      cleanups before any provisioning, clones one after the other, at most as many members
      in flight as there are lanes, the mesh last. */
  lemma LifeRunGuarantees(members: nat, cleanable: set<string>, lives: seq<Life>, events: seq<LifeEvent>, k: nat)
    returns (cleanups: nat, starts: seq<nat>)
    requires IsLife(Multi(members), cleanable, lives, events) && k <= |events|
    ensures ClusterPipeline(Multi(members), lives[k].def, cleanups, starts)
    ensures 1 <= lives[k].def.maxParallelStages <= 4 && starts != []
    ensures Guaranteed(lives[k].def.maxParallelStages, cleanups, starts, lives[k].run)
  {
    LifeConsistent(Multi(members), cleanable, lives, events, k);
    cleanups, starts :| Consistent(Multi(members), cleanable, lives[k], cleanups, starts);
    PlannedRunGuarantees(lives[k].def, members, cleanups, starts, lives[k].run);
  }

  /** ...and it cannot deadlock, in either mode. */
  lemma LifeProgress(mode: Mode, cleanable: set<string>, lives: seq<Life>, events: seq<LifeEvent>, k: nat)
    requires IsLife(mode, cleanable, lives, events) && k <= |events|
    requires ActiveSet(lives[k].run.stages) == {} && NoFailure(lives[k].run.stages) && !AllSucceeded(lives[k].run)
    ensures |lives[k].run.stages| == |lives[k].def.stages| && Ready(lives[k].def, lives[k].run.stages) != []
  {
    LifeConsistent(mode, cleanable, lives, events, k);
    var cleanups, starts :| Consistent(mode, cleanable, lives[k], cleanups, starts);
    Progress(lives[k].def, lives[k].run);
  }

  // ---- Runs, written down by their operations ----

  /** The run whose stages have these operations, with these statuses. */
  function RunWith(def: Definition, ops: map<nat, string>, statuses: map<nat, Status>, terminating: bool): (s: RunState)
    ensures |s.stages| == |def.stages|
  {
    RunState(seq(|def.stages|, i requires 0 <= i < |def.stages| =>
      RunStage(def.stages[i].id, def.stages[i].title,
               if i in statuses then statuses[i] else Pending, if i in ops then ops[i] else "")), terminating)
  }

  predicate WellFormed(def: Definition, ops: map<nat, string>, statuses: map<nat, Status>) {
    && ops.Keys == statuses.Keys && (forall i :: i in ops ==> i < |def.stages| && ops[i] != "")
    && forall i :: i in statuses ==> statuses[i] != Pending
  }

  function AllQueued(ops: map<nat, string>): map<nat, Status> {
    map i | i in ops :: Queued
  }

  /** `more` gives other stages other operations, each its own. */
  predicate NewOperations(ops: map<nat, string>, more: map<nat, string>) {
    && (forall i, j :: i in more && j in ops ==> i != j && more[i] != ops[j])
    && (forall i, j :: i in more && j in more && i != j ==> more[i] != more[j])
  }

  predicate NothingFailed(statuses: map<nat, Status>) {
    forall i :: i in statuses ==> statuses[i] != Failed && statuses[i] != Canceled
  }

  /** `more` may be started: ready stages, new operations. */
  predicate Startable(def: Definition, ops: map<nat, string>, statuses: map<nat, Status>, more: map<nat, string>) {
    && WellFormed(def, ops, statuses) && WellFormed(def, more, AllQueued(more))
    && NothingFailed(statuses) && NewOperations(ops, more)
    && (forall i :: i in more ==> i in Ready(def, RunWith(def, ops, statuses, false).stages))
  }

  lemma StartWith(def: Definition, ops: map<nat, string>, statuses: map<nat, Status>, more: map<nat, string>)
    requires Startable(def, ops, statuses, more)
    ensures Next(def, RunWith(def, ops, statuses, false), RunWith(def, ops + more, statuses + AllQueued(more), false), Start(more))
  {
    var s, s' := RunWith(def, ops, statuses, false), RunWith(def, ops + more, statuses + AllQueued(more), false);
    assert AssignOperations(s.stages, more) == s'.stages;
  }

  lemma SyncWith(def: Definition, ops: map<nat, string>, statuses: map<nat, Status>, i: nat, status: Status)
    requires WellFormed(def, ops, statuses) && i in ops && !Terminal(statuses[i]) && status != Pending
    ensures Next(def, RunWith(def, ops, statuses, false), RunWith(def, ops, statuses[i := status], false), Sync(i, status))
  {
    var s, s' := RunWith(def, ops, statuses, false), RunWith(def, ops, statuses[i := status], false);
    assert s.stages[i := s.stages[i].(status := status)] == s'.stages;
  }

  lemma {:induction false} PickedFrom(def: Definition, stages: seq<RunStage>, from: nat, i: nat, room: nat, others: set<nat>)
    requires |stages| == |def.stages| && from <= i < |stages| && IsReady(def, stages, i) && |others| < room
    requires forall q: nat :: from <= q < i && IsReady(def, stages, q) ==> q in others
    ensures i in ReadyFrom(def, stages, from, room)
    decreases i - from
  {
    if from < i {
      if IsReady(def, stages, from) {
        PickedFrom(def, stages, from + 1, i, room - 1, others - {from});
      } else {
        PickedFrom(def, stages, from + 1, i, room, others);
      }
    }
  }

  /** A ready stage is picked if there is room for it beside the active stages and the ready
      ones in front of it. */
  lemma Picked(def: Definition, stages: seq<RunStage>, i: nat, others: set<nat>)
    requires |stages| == |def.stages| && i < |stages| && IsReady(def, stages, i)
    requires |others| + |ActiveSet(stages)| < Limit(def)
    requires forall q: nat :: q < i && IsReady(def, stages, q) ==> q in others
    ensures i in Ready(def, stages)
  {
    PickedFrom(def, stages, 0, i, Limit(def) - |ActiveSet(stages)|, others);
  }

  // ---- The second member's machines ----

  /** What a stage of one member wants is what that member wants. */
  lemma {:induction false} WantedByOwner(stages: seq<Stage>, i: nat, members: nat, parallelism: nat, m: nat, d: string)
    requires i < |stages| && parallelism >= 1 && HasPrefix(stages[i].id, MemberPrefix(m))
    requires d in MembersWant(stages, i, members, parallelism)
    ensures d in MemberWants(stages, i, m, parallelism)
  {
    if d in MemberWants(stages, i, members, parallelism) {
      MemberUnique(stages[i].id, m, members);
    } else {
      WantedByOwner(stages, i, members - 1, parallelism, m, d);
    }
  }

  /** In front of the second member there are only stages of the first. */
  lemma FirstMemberInFront(stages: seq<Stage>, members: nat, j: nat)
    requires Phased(stages, members) && members >= 2 && j < 5
    ensures j < |stages| && !HasPrefix(stages[j].id, MemberPrefix(2)) && !IsCleanup(stages[j].id)
  {
    assert stages[Position(0, j)].id == PhaseId(0, j);
    MemberIsNotCleanup(PhaseId(0, j), 1);
    if HasPrefix(PhaseId(0, j), MemberPrefix(2)) {
      MemberUnique(PhaseId(0, j), 1, 2);
    }
  }

  lemma NothingInFront(stages: seq<Stage>, members: nat)
    requires Phased(stages, members) && members >= 2
    ensures |stages| > 5 && LastBefore(stages, 5, MemberPrefix(2)) == "" && LastBefore(stages, 5, CLEANUP) == ""
  {
    forall j: nat | j < 5 ensures !HasPrefix(stages[j].id, MemberPrefix(2)) && !IsCleanup(stages[j].id) {
      FirstMemberInFront(stages, members, j);
    }
    LastSkips(stages, 0, 5, MemberPrefix(2));
    LastSkips(stages, 0, 5, CLEANUP);
  }

  /** With two lanes, the machines of the second member only wait for those of the first. */
  lemma SecondMachinesWant(stages: seq<Stage>, members: nat, d: string)
    requires Phased(stages, members) && members >= 2
    requires d in Wants(stages, 5, members, Parallelism(stages, members))
    ensures d == "" || d == MachinesId(1)
  {
    assert stages[Position(1, 0)].id == PhaseId(1, 0) == MachinesId(2);
    MemberIsNotCleanup(MachinesId(2), 2);
    WantedByOwner(stages, 5, members, Parallelism(stages, members), 2, d);
    NothingInFront(stages, members);
  }

  lemma SecondMachinesBindings(members: seq<Member>, pluginId: string, spec: Spec, b: Binding)
    requires AllPrepared(members) && |members| >= 2 && |Created(members, pluginId, spec).stages| > 5
    requires b in Created(members, pluginId, spec).stages[5].bindings
    ensures b.fromStage == MachinesId(1)
  {
    var source := members[1].stages;
    CreatedMemberStage(members, pluginId, spec, 1, 0);
    assert Prepared(source) && BackwardEdgesAt(source, 0);
    var bindings := source[0].bindings;
    assert |bindings| == 0 || DeclaredBefore(source, 0, bindings[0].fromStage);
    assert IsLaterMachines(PhaseId(1, 0), |members|) by {
      assert PhaseId(1, 0) == MachinesId(2);
    }
    assert PrefixedBindings(2, bindings) == [];
  }

  // ---- A life in which stages are created out of order ----

  predicate Chained(def: Definition, q: nat) {
    1 <= q < |def.stages| && def.stages[q - 1].id in def.stages[q].dependsOn
  }

  predicate WaitsOnlyFor(stage: Stage, id: string) {
    (forall d :: d in stage.dependsOn ==> d == id) && (forall b :: b in stage.bindings ==> b.fromStage == id)
  }

  /** Two lanes: stages 0 to 4 are chained, and stage 5 only waits for stage 0. */
  predicate TwoLanes(def: Definition) {
    && |def.stages| > 5 && def.maxParallelStages >= 2 && BackwardEdges(def.stages) && Distinct(StageIds(def.stages))
    && (forall q: nat :: 1 <= q <= 4 ==> Chained(def, q))
    && WaitsOnlyFor(def.stages[5], def.stages[0].id)
    && (forall i: nat :: i <= 5 ==> IsProvisioning(def.stages[i].id))
  }

  lemma CreatedChain(members: seq<Member>, pluginId: string, spec: Spec, q: nat)
    requires AllPrepared(members) && |members| >= 2 && 1 <= q <= 4
    ensures Chained(CreatedPipeline(members, pluginId, spec), q)
  {
    var plain := Created(members, pluginId, spec).stages;
    var starts := Starts(|members|);
    CreatedPhased(members, pluginId, spec);
    PhasedLayout(plain, |members|);
    assert Block(starts, 1, q) && q > Head(starts, 1);
    MemberChain(plain, |members|, 0, starts, 1, q);
  }

  lemma CreatedSecondClone(members: seq<Member>, pluginId: string, spec: Spec)
    requires AllPrepared(members) && |members| >= 2
    ensures var def := CreatedPipeline(members, pluginId, spec);
      |def.stages| > 5 && WaitsOnlyFor(def.stages[5], def.stages[0].id)
  {
    var plain, def := Created(members, pluginId, spec).stages, CreatedPipeline(members, pluginId, spec);
    CreatedPhased(members, pluginId, spec);
    assert plain[Position(0, 0)].id == PhaseId(0, 0) == MachinesId(1);
    CreatedMemberStage(members, pluginId, spec, 1, 0);
    AddAllMembers(plain[5].dependsOn, Wants(plain, 5, |members|, Parallelism(plain, |members|)));
    forall d | d in def.stages[5].dependsOn ensures d == MachinesId(1) {
      SecondMachinesWant(plain, |members|, d);
    }
    forall b | b in def.stages[5].bindings ensures b.fromStage == MachinesId(1) {
      SecondMachinesBindings(members, pluginId, spec, b);
    }
  }

  lemma ClusterProvisions(members: nat, def: Definition, starts: seq<nat>)
    requires ClusterPipeline(Multi(members), def, 0, starts)
    ensures forall i: nat :: i < |def.stages| ==> IsProvisioning(def.stages[i].id)
  {
    MultiKept(def.stages, members, 0, starts);
  }

  /** Every created pipeline with at least two members has two lanes. */
  lemma CreatedTwoLanes(members: seq<Member>, pluginId: string, spec: Spec)
    requires AllPrepared(members) && |members| >= 2
    ensures TwoLanes(CreatedPipeline(members, pluginId, spec))
  {
    var def := CreatedPipeline(members, pluginId, spec);
    CreatedSecondClone(members, pluginId, spec);
    CreatedIsNewLife(members, pluginId, spec);
    ClusterProvisions(|members|, def, Starts(|members|));
    forall q: nat | 1 <= q <= 4 ensures Chained(def, q) {
      CreatedChain(members, pluginId, spec, q);
    }
  }

  /** A stage is not ready before the one it is chained to has succeeded. */
  lemma ChainedNotReady(def: Definition, s: RunState, q: nat)
    requires Aligned(def, s) && Distinct(StageIds(def.stages)) && Chained(def, q) && s.stages[q - 1].status != Succeeded
    ensures !IsReady(def, s.stages, q)
  {
    if Complete(s.stages, def.stages[q - 1].id) {
      CompleteAt(def, s, q - 1);
    }
  }

  lemma SecondCloneReady(def: Definition, s: RunState)
    requires Aligned(def, s) && |s.stages| > 5 && def.maxParallelStages >= 2 && WaitsOnlyFor(def.stages[5], def.stages[0].id)
    requires s.stages[0].status == Succeeded && !Started(s.stages[5]) && s.stages[5].status == Pending
    ensures IsReady(def, s.stages, 5)
  {
    assert s.stages[0].stageId == def.stages[0].id;
    assert Complete(s.stages, def.stages[0].id);
  }

  /** Operation identifiers for the four stages that are started. */
  datatype Names = Names(a: string, b: string, c: string, d: string)

  predicate DistinctNames(n: Names) {
    && n.a != "" && n.b != "" && n.c != "" && n.d != ""
    && n.a != n.b && n.a != n.c && n.a != n.d && n.b != n.c && n.b != n.d && n.c != n.d
  }

  function FirstOps(n: Names): map<nat, string> { map[0 := n.a] }
  function PairOps(n: Names): map<nat, string> { map[1 := n.b, 5 := n.c] }
  function ThirdOps(n: Names): map<nat, string> { map[2 := n.d] }
  function SoFar(n: Names): map<nat, string> { map[0 := n.a, 1 := n.b, 5 := n.c] }
  function AllOps(n: Names): map<nat, string> { map[0 := n.a, 1 := n.b, 2 := n.d, 5 := n.c] }

  /** What the started stages report, state by state. */
  const FIRST_QUEUED: map<nat, Status> := map[0 := Queued]
  const CLONED: map<nat, Status> := map[0 := Succeeded]
  const PAIR_QUEUED: map<nat, Status> := map[0 := Succeeded, 1 := Queued, 5 := Queued]
  const OVERLAPPING: map<nat, Status> := map[0 := Succeeded, 1 := Succeeded, 5 := Queued]
  const THIRD_QUEUED: map<nat, Status> := map[0 := Succeeded, 1 := Succeeded, 2 := Queued, 5 := Queued]
  const SECOND_CLONED: map<nat, Status> := map[0 := Succeeded, 1 := Succeeded, 2 := Queued, 5 := Succeeded]
  const ENDED: map<nat, Status> := map[0 := Succeeded, 1 := Succeeded, 2 := Failed, 5 := Succeeded]

  lemma FirstFormed(def: Definition, n: Names)
    requires |def.stages| > 5 && DistinctNames(n)
    ensures WellFormed(def, map[], map[]) && WellFormed(def, FirstOps(n), FIRST_QUEUED) && WellFormed(def, FirstOps(n), CLONED)
    ensures WellFormed(def, FirstOps(n), AllQueued(FirstOps(n)))
  {
  }

  lemma PairFormed(def: Definition, n: Names)
    requires |def.stages| > 5 && DistinctNames(n)
    ensures WellFormed(def, PairOps(n), AllQueued(PairOps(n))) && WellFormed(def, SoFar(n), PAIR_QUEUED) && WellFormed(def, SoFar(n), OVERLAPPING)
  {
  }

  lemma ThirdFormed(def: Definition, n: Names)
    requires |def.stages| > 5 && DistinctNames(n)
    ensures WellFormed(def, ThirdOps(n), AllQueued(ThirdOps(n)))
    ensures WellFormed(def, AllOps(n), THIRD_QUEUED) && WellFormed(def, AllOps(n), SECOND_CLONED)
  {
  }

  lemma PairIsNew(n: Names)
    requires DistinctNames(n)
    ensures NewOperations(FirstOps(n), PairOps(n)) && NothingFailed(CLONED)
  {
  }

  lemma ThirdIsNew(n: Names)
    requires DistinctNames(n)
    ensures NewOperations(SoFar(n), ThirdOps(n)) && NothingFailed(OVERLAPPING)
  {
  }

  lemma ActiveWith(def: Definition, ops: map<nat, string>, statuses: map<nat, Status>)
    requires WellFormed(def, ops, statuses)
    ensures ActiveSet(RunWith(def, ops, statuses, false).stages) == set i | i in statuses && !Terminal(statuses[i])
  {
  }

  lemma AlignedWith(def: Definition, ops: map<nat, string>, statuses: map<nat, Status>)
    ensures Aligned(def, RunWith(def, ops, statuses, false))
  {
  }

  /** The first clone starts... */
  lemma FirstCloneReady(def: Definition, n: Names)
    requires TwoLanes(def) && DistinctNames(n)
    ensures Startable(def, map[], map[], FirstOps(n))
  {
    var s := RunWith(def, map[], map[], false);
    AlignedWith(def, map[], map[]);
    assert ActiveSet(s.stages) == {};
    ReadyBehindSuccess(def, s, 0);
    Picked(def, s.stages, 0, {});
  }

  lemma PairPicked(def: Definition, s: RunState)
    requires TwoLanes(def) && Aligned(def, s) && ActiveSet(s.stages) == {}
    requires s.stages[0].status == Succeeded && Started(s.stages[0])
    requires forall i :: 1 <= i < |s.stages| ==> !Started(s.stages[i]) && s.stages[i].status == Pending
    ensures 1 in Ready(def, s.stages) && 5 in Ready(def, s.stages)
  {
    ReadyBehindSuccess(def, s, 1);
    SecondCloneReady(def, s);
    forall q: nat | 2 <= q <= 4 ensures !IsReady(def, s.stages, q) {
      assert Chained(def, q);
      ChainedNotReady(def, s, q);
    }
    Picked(def, s.stages, 1, {});
    Picked(def, s.stages, 5, {1});
  }

  lemma ClonedReady(def: Definition, n: Names)
    requires TwoLanes(def) && DistinctNames(n)
    ensures 1 in Ready(def, RunWith(def, FirstOps(n), CLONED, false).stages) && 5 in Ready(def, RunWith(def, FirstOps(n), CLONED, false).stages)
  {
    FirstFormed(def, n);
    AlignedWith(def, FirstOps(n), CLONED);
    ActiveWith(def, FirstOps(n), CLONED);
    PairPicked(def, RunWith(def, FirstOps(n), CLONED, false));
  }

  /** ...and when it is done, the first member's Kubernetes and the second clone start together. */
  lemma PairReady(def: Definition, n: Names)
    requires |def.stages| > 5 && DistinctNames(n)
    requires 1 in Ready(def, RunWith(def, FirstOps(n), CLONED, false).stages) && 5 in Ready(def, RunWith(def, FirstOps(n), CLONED, false).stages)
    ensures Startable(def, FirstOps(n), CLONED, PairOps(n))
  {
    FirstFormed(def, n);
    PairFormed(def, n);
    PairIsNew(n);
  }

  lemma ThirdPicked(def: Definition, s: RunState)
    requires TwoLanes(def) && Aligned(def, s) && ActiveSet(s.stages) == {5}
    requires s.stages[0].status == Succeeded && Started(s.stages[0]) && s.stages[1].status == Succeeded && Started(s.stages[1])
    requires !Started(s.stages[2]) && s.stages[2].status == Pending
    ensures 2 in Ready(def, s.stages)
  {
    ReadyBehindSuccess(def, s, 2);
    Picked(def, s.stages, 2, {});
  }

  lemma OverlappingReady(def: Definition, n: Names)
    requires TwoLanes(def) && DistinctNames(n)
    ensures 2 in Ready(def, RunWith(def, SoFar(n), OVERLAPPING, false).stages)
  {
    PairFormed(def, n);
    AlignedWith(def, SoFar(n), OVERLAPPING);
    ActiveWith(def, SoFar(n), OVERLAPPING);
    ThirdPicked(def, RunWith(def, SoFar(n), OVERLAPPING, false));
  }

  /** The first member's storage starts while the second clone still runs. */
  lemma ThirdReady(def: Definition, n: Names)
    requires |def.stages| > 5 && DistinctNames(n) && 2 in Ready(def, RunWith(def, SoFar(n), OVERLAPPING, false).stages)
    ensures Startable(def, SoFar(n), OVERLAPPING, ThirdOps(n))
  {
    PairFormed(def, n);
    ThirdFormed(def, n);
    ThirdIsNew(n);
  }

  /** Some life of the environment leads from `first` to `l`. */
  ghost predicate Leads(mode: Mode, cleanable: set<string>, first: Life, l: Life) {
    exists lives, events :: IsLife(mode, cleanable, lives, events) && lives[0] == first && lives[|events|] == l
  }

  lemma LeadsStart(mode: Mode, cleanable: set<string>, first: Life)
    requires NewLife(mode, first)
    ensures Leads(mode, cleanable, first, first)
  {
    var lives, events: seq<LifeEvent> := [first], [];
    assert IsLife(mode, cleanable, lives, events) && lives[|events|] == first;
  }

  lemma LeadsStep(mode: Mode, cleanable: set<string>, first: Life, l: Life, l': Life, e: LifeEvent)
    requires Leads(mode, cleanable, first, l) && LifeStep(mode, cleanable, l, l', e)
    ensures Leads(mode, cleanable, first, l')
  {
    var lives, events :| IsLife(mode, cleanable, lives, events) && lives[0] == first && lives[|events|] == l;
    var step := (l, l', e) => LifeStep(mode, cleanable, l, l', e);
    forall j | 0 <= j < |events| ensures step(lives[j], lives[j + 1], events[j]) {
      assert LifeStepAt(mode, cleanable, lives, events, j);
    }
    StepsExtend(lives, events, step, l', e);
    var longer, more := lives + [l'], events + [e];
    forall k: nat | k < |more| ensures LifeStepAt(mode, cleanable, longer, more, k) {
      assert step(longer[k], longer[k + 1], more[k]);
    }
    assert longer[0] == first && longer[|more|] == l';
    assert IsLife(mode, cleanable, longer, more);
  }

  /** The first attempt, with nothing cleaned up. */
  function FirstAttempt(def: Definition, run: RunState, created: seq<Item>, used: set<string>): Life {
    Life(def, run, 0, created, [], used)
  }

  /** The states `leads` holds of are closed under steps of a life. */
  ghost predicate ClosedUnder(mode: Mode, cleanable: set<string>, leads: Life -> bool) {
    forall l, l', e :: leads(l) && LifeStep(mode, cleanable, l, l', e) ==> leads(l')
  }

  lemma LeadsOn(mode: Mode, cleanable: set<string>, leads: Life -> bool, l: Life, l': Life, e: LifeEvent)
    requires ClosedUnder(mode, cleanable, leads) && leads(l) && LifeStep(mode, cleanable, l, l', e)
    ensures leads(l')
  {
  }

  function AttemptWith(def: Definition, ops: map<nat, string>, statuses: map<nat, Status>, created: seq<Item>): Life {
    FirstAttempt(def, RunWith(def, ops, statuses, false), created, ops.Values)
  }

  function ItemsOf(def: Definition, more: map<nat, string>): seq<Item> {
    StartedItems(def, more, 0, |def.stages|)
  }

  /** `ops'` and `statuses'` are those after `more` was started. */
  predicate Merged(ops: map<nat, string>, statuses: map<nat, Status>, more: map<nat, string>, ops': map<nat, string>, statuses': map<nat, Status>) {
    ops' == ops + more && statuses' == statuses + AllQueued(more) && ops'.Values == ops.Values + more.Values
  }

  lemma StartLife(def: Definition, ops: map<nat, string>, statuses: map<nat, Status>, created: seq<Item>, more: map<nat, string>,
                  ops': map<nat, string>, statuses': map<nat, Status>)
    requires Startable(def, ops, statuses, more) && Merged(ops, statuses, more, ops', statuses')
    ensures RunStep(AttemptWith(def, ops, statuses, created), AttemptWith(def, ops', statuses', created + ItemsOf(def, more)), Start(more))
  {
    StartWith(def, ops, statuses, more);
    forall i | i in more ensures more[i] !in ops.Values {
    }
  }

  lemma StartLeads(mode: Mode, cleanable: set<string>, leads: Life -> bool, def: Definition, ops: map<nat, string>, statuses: map<nat, Status>,
                   created: seq<Item>, more: map<nat, string>, ops': map<nat, string>, statuses': map<nat, Status>)
    requires ClosedUnder(mode, cleanable, leads) && leads(AttemptWith(def, ops, statuses, created))
    requires Startable(def, ops, statuses, more) && Merged(ops, statuses, more, ops', statuses')
    ensures leads(AttemptWith(def, ops', statuses', created + ItemsOf(def, more)))
  {
    StartLife(def, ops, statuses, created, more, ops', statuses');
    LeadsOn(mode, cleanable, leads, AttemptWith(def, ops, statuses, created), AttemptWith(def, ops', statuses', created + ItemsOf(def, more)), Ran(Start(more)));
  }

  lemma SyncLeads(mode: Mode, cleanable: set<string>, leads: Life -> bool, def: Definition, ops: map<nat, string>, statuses: map<nat, Status>,
                  created: seq<Item>, i: nat, status: Status, statuses': map<nat, Status>)
    requires ClosedUnder(mode, cleanable, leads) && leads(AttemptWith(def, ops, statuses, created))
    requires WellFormed(def, ops, statuses) && i in ops && !Terminal(statuses[i]) && status != Pending && statuses' == statuses[i := status]
    requires IsProvisioning(def.stages[i].id)
    ensures leads(AttemptWith(def, ops, statuses', created))
  {
    SyncWith(def, ops, statuses, i, status);
    LeadsOn(mode, cleanable, leads, AttemptWith(def, ops, statuses, created), AttemptWith(def, ops, statuses', created), Ran(Sync(i, status)));
  }

  lemma FirstMerged(n: Names)
    ensures Merged(map[], map[], FirstOps(n), FirstOps(n), FIRST_QUEUED) && FIRST_QUEUED[0 := Succeeded] == CLONED
  {
  }

  lemma PairMerged(n: Names)
    ensures Merged(FirstOps(n), CLONED, PairOps(n), SoFar(n), PAIR_QUEUED) && PAIR_QUEUED[1 := Succeeded] == OVERLAPPING
  {
    assert PairOps(n)[1] == n.b && PairOps(n)[5] == n.c && FirstOps(n)[0] == n.a;
    assert SoFar(n)[0] == n.a && SoFar(n)[1] == n.b && SoFar(n)[5] == n.c;
    assert FirstOps(n).Values == {n.a} && PairOps(n).Values == {n.b, n.c};
    assert SoFar(n).Values == {n.a, n.b, n.c};
  }

  lemma ThirdMerged(n: Names)
    ensures Merged(SoFar(n), OVERLAPPING, ThirdOps(n), AllOps(n), THIRD_QUEUED)
    ensures THIRD_QUEUED[5 := Succeeded] == SECOND_CLONED && SECOND_CLONED[2 := Failed] == ENDED
  {
    assert SoFar(n)[0] == n.a && SoFar(n)[1] == n.b && SoFar(n)[5] == n.c && ThirdOps(n)[2] == n.d;
    assert AllOps(n)[0] == n.a && AllOps(n)[1] == n.b && AllOps(n)[5] == n.c && AllOps(n)[2] == n.d;
    assert SoFar(n).Values == {n.a, n.b, n.c} && ThirdOps(n).Values == {n.d};
    assert AllOps(n).Values == {n.a, n.b, n.c, n.d};
  }

  /** The items that the first two starts create. */
  function EarlyItems(def: Definition, n: Names): seq<Item> {
    ItemsOf(def, FirstOps(n)) + ItemsOf(def, PairOps(n))
  }

  predicate Provisions(def: Definition) {
    |def.stages| > 5 && forall i :: 0 <= i <= 5 ==> IsProvisioning(def.stages[i].id)
  }

  lemma FirstCloneDone(mode: Mode, cleanable: set<string>, leads: Life -> bool, def: Definition, n: Names)
    requires ClosedUnder(mode, cleanable, leads) && leads(AttemptWith(def, map[], map[], []))
    requires Provisions(def) && DistinctNames(n) && Startable(def, map[], map[], FirstOps(n))
    ensures leads(AttemptWith(def, FirstOps(n), CLONED, ItemsOf(def, FirstOps(n))))
  {
    FirstMerged(n);
    FirstFormed(def, n);
    StartLeads(mode, cleanable, leads, def, map[], map[], [], FirstOps(n), FirstOps(n), FIRST_QUEUED);
    assert [] + ItemsOf(def, FirstOps(n)) == ItemsOf(def, FirstOps(n));
    SyncLeads(mode, cleanable, leads, def, FirstOps(n), FIRST_QUEUED, ItemsOf(def, FirstOps(n)), 0, Succeeded, CLONED);
  }

  lemma PairStarted(mode: Mode, cleanable: set<string>, leads: Life -> bool, def: Definition, n: Names)
    requires ClosedUnder(mode, cleanable, leads) && leads(AttemptWith(def, FirstOps(n), CLONED, ItemsOf(def, FirstOps(n))))
    requires Startable(def, FirstOps(n), CLONED, PairOps(n))
    ensures leads(AttemptWith(def, SoFar(n), PAIR_QUEUED, EarlyItems(def, n)))
  {
    PairMerged(n);
    StartLeads(mode, cleanable, leads, def, FirstOps(n), CLONED, ItemsOf(def, FirstOps(n)), PairOps(n), SoFar(n), PAIR_QUEUED);
  }

  lemma MembersOverlap(mode: Mode, cleanable: set<string>, leads: Life -> bool, def: Definition, n: Names)
    requires ClosedUnder(mode, cleanable, leads) && leads(AttemptWith(def, SoFar(n), PAIR_QUEUED, EarlyItems(def, n)))
    requires Provisions(def) && DistinctNames(n)
    ensures leads(AttemptWith(def, SoFar(n), OVERLAPPING, EarlyItems(def, n)))
  {
    PairMerged(n);
    PairFormed(def, n);
    SyncLeads(mode, cleanable, leads, def, SoFar(n), PAIR_QUEUED, EarlyItems(def, n), 1, Succeeded, OVERLAPPING);
  }

  lemma ThirdStarted(mode: Mode, cleanable: set<string>, leads: Life -> bool, def: Definition, n: Names)
    requires ClosedUnder(mode, cleanable, leads) && leads(AttemptWith(def, SoFar(n), OVERLAPPING, EarlyItems(def, n)))
    requires Startable(def, SoFar(n), OVERLAPPING, ThirdOps(n))
    ensures leads(AttemptWith(def, AllOps(n), THIRD_QUEUED, EarlyItems(def, n) + ItemsOf(def, ThirdOps(n))))
  {
    ThirdMerged(n);
    StartLeads(mode, cleanable, leads, def, SoFar(n), OVERLAPPING, EarlyItems(def, n), ThirdOps(n), AllOps(n), THIRD_QUEUED);
  }

  lemma SecondCloneDone(mode: Mode, cleanable: set<string>, leads: Life -> bool, def: Definition, n: Names, items: seq<Item>)
    requires ClosedUnder(mode, cleanable, leads) && leads(AttemptWith(def, AllOps(n), THIRD_QUEUED, items))
    requires Provisions(def) && DistinctNames(n)
    ensures leads(AttemptWith(def, AllOps(n), SECOND_CLONED, items))
  {
    ThirdMerged(n);
    ThirdFormed(def, n);
    SyncLeads(mode, cleanable, leads, def, AllOps(n), THIRD_QUEUED, items, 5, Succeeded, SECOND_CLONED);
  }

  lemma AllEnded(mode: Mode, cleanable: set<string>, leads: Life -> bool, def: Definition, n: Names, items: seq<Item>)
    requires ClosedUnder(mode, cleanable, leads) && leads(AttemptWith(def, AllOps(n), SECOND_CLONED, items))
    requires Provisions(def) && DistinctNames(n)
    ensures leads(AttemptWith(def, AllOps(n), ENDED, items))
  {
    ThirdMerged(n);
    ThirdFormed(def, n);
    SyncLeads(mode, cleanable, leads, def, AllOps(n), SECOND_CLONED, items, 2, Failed, ENDED);
  }

  lemma StepsAreClosed(mode: Mode, cleanable: set<string>, first: Life, leads: Life -> bool)
    requires forall l :: leads(l) <==> Leads(mode, cleanable, first, l)
    ensures ClosedUnder(mode, cleanable, leads)
  {
    forall l, l', e | leads(l) && LifeStep(mode, cleanable, l, l', e) ensures leads(l') {
      LeadsStep(mode, cleanable, first, l, l', e);
    }
  }

  /** The state in which everything that was started has ended, one stage without success. */
  function OutOfOrder(def: Definition, n: Names): Life {
    AttemptWith(def, AllOps(n), ENDED, EarlyItems(def, n) + ItemsOf(def, ThirdOps(n))).(run := RunWith(def, AllOps(n), ENDED, true))
  }

  lemma LeadsOutOfOrder(mode: Mode, cleanable: set<string>, leads: Life -> bool, def: Definition, n: Names)
    requires TwoLanes(def) && DistinctNames(n) && ClosedUnder(mode, cleanable, leads) && leads(NewbornLife(def))
    ensures leads(AttemptWith(def, AllOps(n), ENDED, EarlyItems(def, n) + ItemsOf(def, ThirdOps(n))))
  {
    assert RunWith(def, map[], map[], false).stages == NewRun(def).stages;
    assert AttemptWith(def, map[], map[], []) == NewbornLife(def);
    FirstCloneReady(def, n);
    FirstCloneDone(mode, cleanable, leads, def, n);
    ClonedReady(def, n);
    PairReady(def, n);
    PairStarted(mode, cleanable, leads, def, n);
    MembersOverlap(mode, cleanable, leads, def, n);
    OverlappingReady(def, n);
    ThirdReady(def, n);
    ThirdStarted(mode, cleanable, leads, def, n);
    SecondCloneDone(mode, cleanable, leads, def, n, EarlyItems(def, n) + ItemsOf(def, ThirdOps(n)));
    AllEnded(mode, cleanable, leads, def, n, EarlyItems(def, n) + ItemsOf(def, ThirdOps(n)));
  }

  /** The run then stops for good. */
  lemma RunStops(mode: Mode, cleanable: set<string>, leads: Life -> bool, def: Definition, n: Names)
    requires ClosedUnder(mode, cleanable, leads)
    requires leads(AttemptWith(def, AllOps(n), ENDED, EarlyItems(def, n) + ItemsOf(def, ThirdOps(n))))
    ensures leads(OutOfOrder(def, n))
  {
    var l := AttemptWith(def, AllOps(n), ENDED, EarlyItems(def, n) + ItemsOf(def, ThirdOps(n)));
    assert l.run.stages == OutOfOrder(def, n).run.stages;
    LeadsOn(mode, cleanable, leads, l, OutOfOrder(def, n), Ran(Terminate(|def.stages|, Failed)));
  }

  /** Something of a later stage was created before something of an earlier one. */
  lemma NotInStageOrder(l: Life, cleanable: set<string>, early: seq<Item>, late: seq<Item>, x: Item, y: Item)
    requires l.created == early + late && x in early && y in late && y.position < x.position && l.cleaned == []
    requires x.operationId in cleanable && y.operationId in cleanable
    ensures !CreatedInStageOrder(l, cleanable)
  {
    var j :| 0 <= j < |early| && early[j] == x;
    var k :| 0 <= k < |late| && late[k] == y;
    var i := |early| + k;
    assert l.created[j] == x && l.created[i] == y;
    assert OutstandingAt(l, cleanable, i) && OutstandingAt(l, cleanable, j);
  }

  lemma CreatedOutOfOrder(def: Definition, n: Names, cleanable: set<string>)
    requires TwoLanes(def) && n.c in cleanable && n.d in cleanable
    ensures !CreatedInStageOrder(OutOfOrder(def, n), cleanable)
  {
    StartedItemsMeaning(def, PairOps(n), 0, |def.stages|);
    StartedItemsMeaning(def, ThirdOps(n), 0, |def.stages|);
    var x, y := Item(n.c, 0, 5), Item(n.d, 0, 2);
    assert x in ItemsOf(def, PairOps(n)) && y in ItemsOf(def, ThirdOps(n));
    NotInStageOrder(OutOfOrder(def, n), cleanable, EarlyItems(def, n), ItemsOf(def, ThirdOps(n)), x, y);
  }

  lemma NothingActive(def: Definition, n: Names)
    requires |def.stages| > 5
    ensures ActiveSet(OutOfOrder(def, n).run.stages) == {}
  {
    var stages := OutOfOrder(def, n).run.stages;
    forall i: nat | i < |stages| ensures !Active(stages[i]) {
      assert i in AllOps(n) <==> i in ENDED;
    }
  }

  /** Stripping keeps edges backward when there is nothing to strip off. */
  lemma KeptBackward(stages: seq<Stage>)
    requires AllKept(stages) && BackwardEdges(stages)
    ensures BackwardEdges(Kept(stages))
  {
    KeptPointwise(stages);
    var kept := Kept(stages);
    forall i: nat | i < |kept| ensures BackwardEdgesAt(kept, i) {
      StrippedTwice(stages[i].dependsOn);
      assert BackwardEdgesAt(stages, i);
      forall d | DeclaredBefore(stages, i, d) ensures DeclaredBefore(kept, i, d) {
        var j :| 0 <= j < i && j < |stages| && stages[j].id == d;
        assert kept[j].id == d;
      }
    }
  }

  /** A stopped first attempt can be recreated as it is. */
  lemma MayRecreate(members: nat, cleanable: set<string>, l: Life, starts: seq<nat>)
    requires ConsistentLife(Multi(members), cleanable, l) && ClusterPipeline(Multi(members), l.def, 0, starts) && BackwardEdges(l.def.stages)
    requires ActiveSet(l.run.stages) == {} && l.run.terminating
    ensures exists l' :: RecreateStep(Multi(members), cleanable, l, l', Provisioning(l.def.stages))
  {
    var kept := Provisioning(l.def.stages);
    MultiKept(l.def.stages, members, 0, starts);
    KeptBackward(l.def.stages);
    assert Rebuilds(Multi(members), kept, kept);
    ReverseCreationOrder(Multi(members), cleanable, l);
    var targets := CleanupTargets(l.run.stages, l.def.stages);
    var def := Rebuilt(Multi(members), Selected(targets.value, cleanable), kept, l.def.result);
    var l' := l.(attempt := l.attempt + 1, def := def, run := NewRun(def));
    assert RecreateStep(Multi(members), cleanable, l, l', kept);
  }

  /** Every environment of two or more clusters has a life that ends with nothing active and
      can be recreated, and whose cleanup is not in reverse creation order: the first member's
      Kubernetes starts together with the second member's machines, and its storage after
      them, but the second member's machines are removed first. */
  lemma ParallelLifeIsNotReversed(members: seq<Member>, pluginId: string, spec: Spec, cleanable: set<string>, n: Names)
    returns (lives: seq<Life>, events: seq<LifeEvent>)
    requires AllPrepared(members) && |members| >= 2 && DistinctNames(n) && n.c in cleanable && n.d in cleanable
    ensures IsLife(Multi(|members|), cleanable, lives, events)
    ensures lives[0] == NewbornLife(CreatedPipeline(members, pluginId, spec)) && lives[|events|] == OutOfOrder(lives[0].def, n)
    ensures var last := lives[|events|];
      && (exists l' :: RecreateStep(Multi(|members|), cleanable, last, l', Provisioning(last.def.stages)))
      && CleanupTargets(last.run.stages, last.def.stages).Ok?
      && !ReverseCreation(last, Selected(CleanupTargets(last.run.stages, last.def.stages).value, cleanable))
  {
    var mode, def := Multi(|members|), CreatedPipeline(members, pluginId, spec);
    CreatedTwoLanes(members, pluginId, spec);
    CreatedIsNewLife(members, pluginId, spec);
    lives, events := LifeOutOfOrder(mode, cleanable, def, n);
    LifeConsistent(mode, cleanable, lives, events, |events|);
    CreatedOutOfOrder(def, n, cleanable);
    ReverseCreationOrder(mode, cleanable, OutOfOrder(def, n));
    NothingActive(def, n);
    MayRecreate(|members|, cleanable, OutOfOrder(def, n), Starts(|members|));
  }

  lemma LifeOutOfOrder(mode: Mode, cleanable: set<string>, def: Definition, n: Names) returns (lives: seq<Life>, events: seq<LifeEvent>)
    requires TwoLanes(def) && DistinctNames(n) && NewLife(mode, NewbornLife(def))
    ensures IsLife(mode, cleanable, lives, events) && lives[0] == NewbornLife(def) && lives[|events|] == OutOfOrder(def, n)
  {
    var first := NewbornLife(def);
    var leads := l => Leads(mode, cleanable, first, l);
    LeadsStart(mode, cleanable, first);
    StepsAreClosed(mode, cleanable, first, leads);
    LeadsOutOfOrder(mode, cleanable, leads, def, n);
    RunStops(mode, cleanable, leads, def, n);
    lives, events :| IsLife(mode, cleanable, lives, events) && lives[0] == first && lives[|events|] == OutOfOrder(def, n);
  }
}
