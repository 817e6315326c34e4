/** The lanes of a created pipeline are used: some run of it has as many active stages as the
    planner allows. */
module Lanes {
  import opened Text
  import opened Pipelines
  import opened Scheduler
  import opened Planner
  import opened MultiCluster
  import opened Creation
  import opened Recreation
  import opened Lifecycle
  import opened Retries
  import opened CreatedLives

  // ---- What the first stages of a member wait for ----

  /** Nothing but `id` is waited for, beside what is empty. */
  predicate OnlyWaitsFor(def: Definition, i: nat, id: string) {
    i < |def.stages| && WaitsOnlyFor(def.stages[i], id)
  }

  lemma OthersInFront(stages: seq<Stage>, members: nat, m: nat, j: nat)
    requires Phased(stages, members) && m < members && j < Position(m, 0)
    ensures j < |stages| && !HasPrefix(stages[j].id, MemberPrefix(m + 1)) && !IsCleanup(stages[j].id)
  {
    var n, l := Locate(j, m);
    assert stages[Position(n, l)].id == PhaseId(n, l);
    MemberIsNotCleanup(PhaseId(n, l), n + 1);
    if HasPrefix(PhaseId(n, l), MemberPrefix(m + 1)) {
      MemberUnique(PhaseId(n, l), n + 1, m + 1);
    }
  }

  lemma NoneInFront(stages: seq<Stage>, members: nat, m: nat, d: string)
    requires Phased(stages, members) && m < members
    ensures !IsLast(stages, Position(m, 0), "c" + Decimal(m + 1) + "-", d) && !IsLast(stages, Position(m, 0), "cleanup-", d)
  {
    forall j: nat | j < Position(m, 0) ensures j < |stages| && !HasPrefix(stages[j].id, MemberPrefix(m + 1)) && !IsCleanup(stages[j].id) {
      OthersInFront(stages, members, m, j);
    }
  }

  lemma PhaseOwner(stages: seq<Stage>, members: nat, m: nat, k: nat, n: nat)
    requires Phased(stages, members) && m < members && k < 5 && "c" + Decimal(n) + "-" <= stages[Position(m, k)].id
    ensures n == m + 1
  {
    MemberUnique(PhaseId(m, k), m + 1, n);
  }

  /** A stage of a member waits for what it waits for as a stage of that member. */
  lemma OwnWaits(stages: seq<Stage>, members: nat, m: nat, k: nat, lanes: nat, d: string)
    requires Phased(stages, members) && m < members && k < 5 && Waits(stages, Position(m, k), members, lanes, d)
    ensures WaitsAsMember(stages, Position(m, k), m + 1, lanes, d)
  {
    var i := Position(m, k);
    assert stages[i].id == PhaseId(m, k);
    MemberIsNotCleanup(PhaseId(m, k), m + 1);
    var n: nat :| 1 <= n <= members && WaitsAsMember(stages, i, n, lanes, d);
    PhaseOwner(stages, members, m, k, n);
  }

  /** The machines of a member that has a lane of its own wait for those of the one before. */
  lemma HeadWaits(stages: seq<Stage>, members: nat, m: nat, lanes: nat, d: string)
    requires Phased(stages, members) && m < members && m < lanes && Waits(stages, Position(m, 0), members, lanes, d)
    ensures m > 0 && d == PhaseId(m - 1, 0)
  {
    OwnWaits(stages, members, m, 0, lanes, d);
    NoneInFront(stages, members, m, d);
    assert m > 0 ==> PhaseId(m - 1, 0) == "c" + Decimal(m) + "-machines";
  }

  lemma SecondIsNotMachines(m: nat)
    ensures PhaseId(m, 1) != "c" + Decimal(m + 1) + "-machines"
  {
    assert PhaseId(m, 1)[|MemberPrefix(m + 1)|] == 'k';
    assert PhaseId(m, 0) == "c" + Decimal(m + 1) + "-machines" && PhaseId(m, 0)[|MemberPrefix(m + 1)|] == 'm';
  }

  /** The Kubernetes stage of a member waits for its machines. */
  lemma SecondWaits(stages: seq<Stage>, members: nat, m: nat, lanes: nat, d: string)
    requires Phased(stages, members) && m < members && Waits(stages, Position(m, 1), members, lanes, d)
    ensures d == PhaseId(m, 0)
  {
    OwnWaits(stages, members, m, 1, lanes, d);
    SecondIsNotMachines(m);
    assert stages[Position(m, 1)].id == PhaseId(m, 1) && stages[Position(m, 0)].id == PhaseId(m, 0);
    PreviousIsMachines(stages, Position(m, 0), "c" + Decimal(m + 1) + "-", d);
  }

  lemma PreviousIsMachines(stages: seq<Stage>, i: nat, prefix: string, d: string)
    requires i < |stages| && prefix <= stages[i].id && IsLast(stages, i + 1, prefix, d)
    ensures d == stages[i].id
  {
  }

  // ---- Pipelines with free lanes ----

  /** The machines of a member wait for nothing but those of members in front of it. */
  predicate HeadFree(def: Definition, m: nat) {
    && 5 * m < |def.stages|
    && (forall d :: d in def.stages[5 * m].dependsOn ==> m > 0 && d == def.stages[5 * (m - 1)].id)
    && (forall b :: b in def.stages[5 * m].bindings ==> m > 0 && b.fromStage == def.stages[0].id)
  }

  /** The stages behind them are chained, and the first of these reads nothing else. */
  predicate BlockChained(def: Definition, m: nat) {
    && 5 * m + 4 < |def.stages| && WaitsOnlyFor(def.stages[5 * m + 1], def.stages[5 * m].id)
    && (forall k: nat :: 2 <= k <= 4 ==> Chained(def, Position(m, k)))
  }

  predicate FreeLanes(def: Definition) {
    && def.maxParallelStages >= 1 && Distinct(StageIds(def.stages))
    && forall m: nat :: m < def.maxParallelStages ==> HeadFree(def, m) && BlockChained(def, m)
  }

  lemma HeadDependencies(def: Definition, members: nat, m: nat, d: string)
    requires Phased(def.stages, members) && m < members && m < Planned(def, members).maxParallelStages
    requires def.stages[Position(m, 0)].dependsOn == [] && d in Planned(def, members).stages[Position(m, 0)].dependsOn
    ensures m > 0 && d == PhaseId(m - 1, 0)
  {
    PlannedMeaning(def, members, Position(m, 0), d);
    HeadWaits(def.stages, members, m, Planned(def, members).maxParallelStages, d);
  }

  /** As it is created, the stage waits for nothing and reads at most the key of member 1. */
  predicate ReadsKeyOnly(stage: Stage, m: nat) {
    stage.dependsOn == [] && forall b :: b in stage.bindings ==> m > 0 && b.fromStage == "c1-machines"
  }

  lemma HeadReadsKey(m: nat, name: string, source: seq<Stage>, stage: Stage)
    requires Prepared(source) && MadeFrom(name, m, 0, source[0], stage)
    ensures ReadsKeyOnly(stage, m)
  {
    MachinesReadNothing(source);
  }

  lemma CreatedHeadReads(members: seq<Member>, pluginId: string, spec: Spec, m: nat)
    requires AllPrepared(members) && m < |members|
    ensures Position(m, 0) < |Created(members, pluginId, spec).stages|
    ensures ReadsKeyOnly(Created(members, pluginId, spec).stages[Position(m, 0)], m)
  {
    CreatedStageMeaning(members, pluginId, spec, m, 0);
    HeadReadsKey(m, members[m].name, members[m].stages, Created(members, pluginId, spec).stages[Position(m, 0)]);
  }

  lemma HeadFreePlanned(def: Definition, members: nat, m: nat)
    requires Phased(def.stages, members) && m < members && m < Planned(def, members).maxParallelStages
    requires ReadsKeyOnly(def.stages[Position(m, 0)], m)
    ensures HeadFree(Planned(def, members), m)
  {
    var i, planned := Position(m, 0), Planned(def, members);
    HeadNames(def.stages, members, m);
    forall d | d in planned.stages[i].dependsOn ensures m > 0 && d == PhaseId(m - 1, 0) {
      HeadDependencies(def, members, m, d);
    }
  }

  lemma HeadNames(stages: seq<Stage>, members: nat, m: nat)
    requires Phased(stages, members) && m < members
    ensures 5 * m < |stages| && stages[0].id == "c1-machines"
    ensures m > 0 ==> stages[5 * (m - 1)].id == PhaseId(m - 1, 0)
  {
    FirstMachines();
    assert stages[Position(0, 0)].id == PhaseId(0, 0);
    assert m > 0 ==> stages[Position(m - 1, 0)].id == PhaseId(m - 1, 0);
  }

  lemma CreatedHeadFree(members: seq<Member>, pluginId: string, spec: Spec, m: nat)
    requires AllPrepared(members) && m < |members| && m < CreatedPipeline(members, pluginId, spec).maxParallelStages
    ensures HeadFree(CreatedPipeline(members, pluginId, spec), m)
  {
    CreatedPhased(members, pluginId, spec);
    CreatedHeadReads(members, pluginId, spec, m);
    HeadFreePlanned(Created(members, pluginId, spec), |members|, m);
  }

  lemma CreatedNames(members: seq<Member>, pluginId: string, spec: Spec, m: nat)
    requires AllPrepared(members) && m < |members|
    ensures |CreatedPipeline(members, pluginId, spec).stages| == 5 * |members| + 1
    ensures forall k: nat :: k < 5 ==> CreatedPipeline(members, pluginId, spec).stages[Position(m, k)].id == PhaseId(m, k)
    ensures m > 0 ==> CreatedPipeline(members, pluginId, spec).stages[Position(m - 1, 0)].id == PhaseId(m - 1, 0)
    ensures CreatedPipeline(members, pluginId, spec).stages[0].id == "c1-machines"
  {
    var plain := Created(members, pluginId, spec);
    CreatedPhased(members, pluginId, spec);
    assert plain.stages[Position(0, 0)].id == PhaseId(0, 0);
    FirstMachines();
  }

  lemma SecondReadsFirst(stages: seq<Stage>, b: Binding)
    requires Prepared(stages) && b in stages[1].bindings
    ensures b.fromStage == "machines"
  {
    assert BackwardEdgesAt(stages, 1);
    var j :| 0 <= j < 1 && stages[j].id == b.fromStage;
  }

  /** As it is created, the stage waits for nothing and reads only from this one. */
  predicate ReadsOnly(stage: Stage, id: string) {
    stage.dependsOn == [] && forall b :: b in stage.bindings ==> b.fromStage == id
  }

  lemma SecondReadsOwn(m: nat, name: string, source: seq<Stage>, stage: Stage)
    requires Prepared(source) && MadeFrom(name, m, 1, source[1], stage)
    ensures ReadsOnly(stage, PhaseId(m, 0))
  {
    assert PhaseId(m, 0) == "c" + Decimal(m + 1) + "-" + "machines";
    forall b | b in stage.bindings ensures b.fromStage == PhaseId(m, 0) {
      var x :| 0 <= x < |stage.bindings| && stage.bindings[x] == b;
      SecondReadsFirst(source, source[1].bindings[x]);
    }
  }

  lemma SecondReads(members: seq<Member>, pluginId: string, spec: Spec, m: nat)
    requires AllPrepared(members) && m < |members|
    ensures Position(m, 1) < |Created(members, pluginId, spec).stages|
    ensures ReadsOnly(Created(members, pluginId, spec).stages[Position(m, 1)], PhaseId(m, 0))
  {
    CreatedStageMeaning(members, pluginId, spec, m, 1);
    SecondReadsOwn(m, members[m].name, members[m].stages, Created(members, pluginId, spec).stages[Position(m, 1)]);
  }

  lemma SecondPlanned(def: Definition, members: nat, m: nat)
    requires Phased(def.stages, members) && m < members && ReadsOnly(def.stages[Position(m, 1)], PhaseId(m, 0))
    ensures OnlyWaitsFor(Planned(def, members), Position(m, 1), PhaseId(m, 0))
  {
    var i, planned := Position(m, 1), Planned(def, members);
    forall d | d in planned.stages[i].dependsOn ensures d == PhaseId(m, 0) {
      PlannedMeaning(def, members, i, d);
      SecondWaits(def.stages, members, m, planned.maxParallelStages, d);
    }
  }

  lemma CreatedSecond(members: seq<Member>, pluginId: string, spec: Spec, m: nat)
    requires AllPrepared(members) && m < |members|
    ensures OnlyWaitsFor(CreatedPipeline(members, pluginId, spec), Position(m, 1), PhaseId(m, 0))
  {
    CreatedPhased(members, pluginId, spec);
    SecondReads(members, pluginId, spec, m);
    SecondPlanned(Created(members, pluginId, spec), |members|, m);
  }

  lemma PhaseInBlock(members: nat, m: nat, k: nat)
    requires m < members && 1 <= k < 5
    ensures Block(Starts(members), m + 1, Position(m, k)) && Position(m, k) > Head(Starts(members), m + 1)
  {
  }

  lemma PhasedChained(def: Definition, members: nat, m: nat, k: nat)
    requires Phased(def.stages, members) && m < members && 1 <= k < 5
    ensures Chained(Planned(def, members), Position(m, k))
  {
    PhasedLayout(def.stages, members);
    PhaseInBlock(members, m, k);
    MemberChain(def.stages, members, 0, Starts(members), m + 1, Position(m, k));
  }

  lemma CreatedBlockChained(members: seq<Member>, pluginId: string, spec: Spec, m: nat)
    requires AllPrepared(members) && m < |members|
    ensures BlockChained(CreatedPipeline(members, pluginId, spec), m)
  {
    CreatedNames(members, pluginId, spec, m);
    CreatedSecond(members, pluginId, spec, m);
    CreatedPhased(members, pluginId, spec);
    forall k: nat | 2 <= k <= 4 ensures Chained(CreatedPipeline(members, pluginId, spec), Position(m, k)) {
      PhasedChained(Created(members, pluginId, spec), |members|, m, k);
    }
  }

  lemma CreatedFreeLanes(members: seq<Member>, pluginId: string, spec: Spec)
    requires AllPrepared(members) && |members| >= 1
    ensures FreeLanes(CreatedPipeline(members, pluginId, spec))
  {
    var plain, def := Created(members, pluginId, spec), CreatedPipeline(members, pluginId, spec);
    CreatedPhased(members, pluginId, spec);
    PhasedDistinct(plain.stages, |members|);
    assert StageIds(def.stages) == StageIds(plain.stages);
    forall m: nat | m < def.maxParallelStages ensures HeadFree(def, m) && BlockChained(def, m) {
      CreatedHeadFree(members, pluginId, spec, m);
      CreatedBlockChained(members, pluginId, spec, m);
    }
  }

  // ---- A run that fills the lanes ----

  predicate InProgress(i: nat) {
    i % 5 < 2
  }

  /** The first `j` members have their machines, and their Kubernetes stages are under way. */
  function Ops(j: nat): map<nat, string> {
    map i: nat | i < 5 * j && InProgress(i) :: Decimal(i)
  }

  function Statuses(j: nat): map<nat, Status> {
    map i: nat | i < 5 * j && InProgress(i) :: if i % 5 == 0 then Succeeded else Queued
  }

  function LaneState(def: Definition, j: nat): RunState {
    RunWith(def, Ops(j), Statuses(j), false)
  }

  function OneOp(i: nat): map<nat, string> {
    map[i := Decimal(i)]
  }

  lemma OpsFormed(def: Definition, j: nat)
    requires 5 * j <= |def.stages|
    ensures WellFormed(def, Ops(j), Statuses(j)) && NothingFailed(Statuses(j))
  {
  }

  /** One more stage gets an operation named after its position. */
  lemma OneStarts(def: Definition, ops: map<nat, string>, statuses: map<nat, Status>, i: nat)
    requires WellFormed(def, ops, statuses) && NothingFailed(statuses) && i < |def.stages| && i !in ops
    requires forall k :: k in ops ==> ops[k] == Decimal(k)
    requires i in Ready(def, RunWith(def, ops, statuses, false).stages)
    ensures WellFormed(def, ops[i := Decimal(i)], statuses[i := Queued])
    ensures Next(def, RunWith(def, ops, statuses, false), RunWith(def, ops[i := Decimal(i)], statuses[i := Queued], false), Start(OneOp(i)))
  {
    forall k | k in ops ensures ops[k] != Decimal(i) {
      NamesDiffer(k, i);
    }
    NewIsFormed(def, ops, statuses, i);
    assert NewOperations(ops, OneOp(i)) && WellFormed(def, OneOp(i), AllQueued(OneOp(i)));
    StartWith(def, ops, statuses, OneOp(i));
  }

  lemma NamesDiffer(i: nat, j: nat)
    requires i != j
    ensures Decimal(i) != Decimal(j)
  {
    if Decimal(i) == Decimal(j) {
      DecimalInjective(i, j);
    }
  }

  lemma NewIsFormed(def: Definition, ops: map<nat, string>, statuses: map<nat, Status>, i: nat)
    requires WellFormed(def, ops, statuses) && i < |def.stages|
    ensures WellFormed(def, ops[i := Decimal(i)], statuses[i := Queued])
    ensures ops + OneOp(i) == ops[i := Decimal(i)] && statuses + AllQueued(OneOp(i)) == statuses[i := Queued]
  {
  }

  lemma ActiveSecond(j: nat, i: nat)
    ensures i in Statuses(j) && !Terminal(Statuses(j)[i]) <==> i < 5 * j && i % 5 == 1
  {
  }

  /** The Kubernetes stages of the first `j` members. */
  function Seconds(j: nat): set<nat> {
    set m: nat | m < j :: Position(m, 1)
  }

  lemma {:induction false} SecondsCount(j: nat)
    ensures |Seconds(j)| == j
  {
    if j > 0 {
      SecondsCount(j - 1);
      assert Seconds(j) == Seconds(j - 1) + {Position(j - 1, 1)};
    }
  }

  lemma LaneActive(def: Definition, j: nat)
    requires 5 * j <= |def.stages|
    ensures ActiveSet(LaneState(def, j).stages) == Seconds(j) && |ActiveSet(LaneState(def, j).stages)| == j
  {
    OpsFormed(def, j);
    ActiveWith(def, Ops(j), Statuses(j));
    SecondsCount(j);
    forall i: nat ensures i in Statuses(j) && !Terminal(Statuses(j)[i]) <==> i in Seconds(j) {
      ActiveSecond(j, i);
      if i < 5 * j && i % 5 == 1 {
        assert i == Position(i / 5, 1);
      }
    }
  }

  // ---- One member more ----

  lemma NotReadyBehind(def: Definition, s: RunState, j: nat, q: nat)
    requires FreeLanes(def) && Aligned(def, s) && j <= def.maxParallelStages && q < 5 * j && q < |s.stages|
    requires InProgress(q) ==> Started(s.stages[q])
    requires !InProgress(q) ==> s.stages[q - 1].status != Succeeded
    ensures !IsReady(def, s.stages, q)
  {
    if !InProgress(q) {
      assert BlockChained(def, q / 5);
      assert q == Position(q / 5, q % 5);
      ChainedNotReady(def, s, q);
    }
  }

  /** The stages of the first members: those under way have operations, and behind each of the
      others is one that has not succeeded. */
  predicate LanesFull(s: RunState, j: nat) {
    forall q: nat :: q < 5 * j && q < |s.stages| ==>
      (InProgress(q) ==> Started(s.stages[q])) && (!InProgress(q) ==> s.stages[q - 1].status != Succeeded)
  }

  lemma InProgressBehind(q: nat)
    ensures !InProgress(q) ==> q >= 2 && (InProgress(q - 1) ==> (q - 1) % 5 == 1)
  {
  }

  lemma BehindWaiting(j: nat, q: nat)
    requires q < 5 * j && !InProgress(q)
    ensures q >= 2 && (q - 1 in Statuses(j) ==> Statuses(j)[q - 1] == Queued)
  {
    InProgressBehind(q);
  }

  lemma FullWith(def: Definition, ops: map<nat, string>, statuses: map<nat, Status>, j: nat)
    requires forall q: nat :: q < 5 * j && InProgress(q) ==> q in ops && ops[q] != ""
    requires forall q: nat :: q < 5 * j && !InProgress(q) ==> q >= 2 && (q - 1 in statuses ==> statuses[q - 1] != Succeeded)
    ensures LanesFull(RunWith(def, ops, statuses, false), j)
  {
  }

  lemma LaneStateFull(def: Definition, j: nat)
    requires 5 * j < |def.stages|
    ensures LanesFull(LaneState(def, j), j) && LanesFull(Cloned(def, j), j)
  {
    var statuses := Statuses(j)[5 * j := Succeeded];
    forall q: nat | q < 5 * j && !InProgress(q)
      ensures q >= 2 && (q - 1 in Statuses(j) ==> Statuses(j)[q - 1] != Succeeded) && (q - 1 in statuses ==> statuses[q - 1] != Succeeded)
    {
      BehindWaiting(j, q);
    }
    FullWith(def, Ops(j), Statuses(j), j);
    FullWith(def, Ops(j)[5 * j := Decimal(5 * j)], statuses, j);
  }

  lemma HeadsDone(j: nat)
    requires j > 0
    ensures 0 in Statuses(j) && Statuses(j)[0] == Succeeded && 5 * (j - 1) in Statuses(j) && Statuses(j)[5 * (j - 1)] == Succeeded
  {
    assert InProgress(0) && InProgress(5 * (j - 1)) && 5 * (j - 1) % 5 == 0;
  }

  /** What the run looks like at the next member's machines. */
  lemma AtNextMachines(def: Definition, j: nat)
    requires 5 * j < |def.stages|
    ensures var s := LaneState(def, j);
      && !Started(s.stages[5 * j]) && s.stages[5 * j].status == Pending
      && (j > 0 ==> s.stages[0].status == Succeeded && s.stages[5 * (j - 1)].status == Succeeded)
  {
    if j > 0 {
      HeadsDone(j);
    }
  }

  lemma OnlyNextReady(def: Definition, s: RunState, j: nat, i: nat)
    requires FreeLanes(def) && Aligned(def, s) && j < def.maxParallelStages && LanesFull(s, j)
    requires 5 * j <= i <= 5 * j + 1 && i < |s.stages| && IsReady(def, s.stages, i) && |ActiveSet(s.stages)| == j
    requires i == 5 * j + 1 ==> Started(s.stages[5 * j])
    ensures i in Ready(def, s.stages)
  {
    forall q: nat | q < i ensures !IsReady(def, s.stages, q) {
      if q < 5 * j {
        NotReadyBehind(def, s, j, q);
      }
    }
    Picked(def, s.stages, i, {});
  }

  /** The machines of the next member can start... */
  lemma NextMachinesReady(def: Definition, j: nat)
    requires FreeLanes(def) && j < def.maxParallelStages
    ensures 5 * j < |def.stages| && 5 * j in Ready(def, LaneState(def, j).stages)
  {
    var s, i := LaneState(def, j), 5 * j;
    assert HeadFree(def, j);
    AlignedWith(def, Ops(j), Statuses(j));
    LaneActive(def, j);
    LaneStateFull(def, j);
    AtNextMachines(def, j);
    HeadReady(def, s, j);
    OnlyNextReady(def, s, j, i);
  }

  lemma HeadReady(def: Definition, s: RunState, j: nat)
    requires FreeLanes(def) && Aligned(def, s) && j < def.maxParallelStages && 5 * j < |s.stages|
    requires !Started(s.stages[5 * j]) && s.stages[5 * j].status == Pending
    requires j > 0 ==> s.stages[0].status == Succeeded && s.stages[5 * (j - 1)].status == Succeeded
    ensures IsReady(def, s.stages, 5 * j)
  {
    assert HeadFree(def, j);
    if j > 0 {
      assert s.stages[0].stageId == def.stages[0].id && s.stages[5 * (j - 1)].stageId == def.stages[5 * (j - 1)].id;
      assert Complete(s.stages, def.stages[0].id) && Complete(s.stages, def.stages[5 * (j - 1)].id);
    }
  }

  /** ...and behind them its Kubernetes stage. */
  function Cloned(def: Definition, j: nat): RunState {
    RunWith(def, Ops(j)[5 * j := Decimal(5 * j)], Statuses(j)[5 * j := Succeeded], false)
  }

  lemma NextSecondReady(def: Definition, j: nat)
    requires FreeLanes(def) && j < def.maxParallelStages
    ensures 5 * j + 1 < |def.stages| && 5 * j + 1 in Ready(def, Cloned(def, j).stages)
  {
    var s, i := Cloned(def, j), 5 * j + 1;
    assert BlockChained(def, j);
    AlignedWith(def, Ops(j)[5 * j := Decimal(5 * j)], Statuses(j)[5 * j := Succeeded]);
    ClonedActive(def, j);
    LaneStateFull(def, j);
    SecondReady(def, s, j);
    OnlyNextReady(def, s, j, i);
  }

  lemma ClonedActive(def: Definition, j: nat)
    requires 5 * j < |def.stages|
    ensures |ActiveSet(Cloned(def, j).stages)| == j
  {
    LaneActive(def, j);
    assert ActiveSet(Cloned(def, j).stages) == ActiveSet(LaneState(def, j).stages);
  }

  lemma SecondReady(def: Definition, s: RunState, j: nat)
    requires FreeLanes(def) && Aligned(def, s) && j < def.maxParallelStages && 5 * j + 1 < |s.stages|
    requires !Started(s.stages[5 * j + 1]) && s.stages[5 * j + 1].status == Pending && s.stages[5 * j].status == Succeeded
    ensures IsReady(def, s.stages, 5 * j + 1)
  {
    assert BlockChained(def, j);
    assert s.stages[5 * j].stageId == def.stages[5 * j].id;
    assert Complete(s.stages, def.stages[5 * j].id);
  }

  lemma InProgressGrows(j: nat, i: nat)
    ensures i < 5 * (j + 1) && InProgress(i) <==> (i < 5 * j && InProgress(i)) || i == 5 * j || i == 5 * j + 1
    ensures i == 5 * j ==> i % 5 == 0
    ensures i == 5 * j + 1 ==> i % 5 == 1
  {
  }

  lemma MapsGrow(j: nat)
    ensures Ops(j)[5 * j := Decimal(5 * j)][5 * j + 1 := Decimal(5 * j + 1)] == Ops(j + 1)
    ensures Statuses(j)[5 * j := Succeeded][5 * j + 1 := Queued] == Statuses(j + 1)
  {
    var ops, statuses := Ops(j)[5 * j := Decimal(5 * j)][5 * j + 1 := Decimal(5 * j + 1)], Statuses(j)[5 * j := Succeeded][5 * j + 1 := Queued];
    forall i: nat
      ensures i in ops <==> i in Ops(j + 1)
      ensures i in statuses <==> i in Statuses(j + 1)
      ensures i in statuses ==> ops[i] == Ops(j + 1)[i] && statuses[i] == Statuses(j + 1)[i]
    {
      InProgressGrows(j, i);
    }
  }

  lemma MachinesStarted(def: Definition, j: nat)
    requires FreeLanes(def) && j < def.maxParallelStages && Reachable(def, LaneState(def, j))
    ensures 5 * j < |def.stages| && WellFormed(def, Ops(j)[5 * j := Decimal(5 * j)], Statuses(j)[5 * j := Queued])
    ensures Reachable(def, RunWith(def, Ops(j)[5 * j := Decimal(5 * j)], Statuses(j)[5 * j := Queued], false))
  {
    var i := 5 * j;
    NextMachinesReady(def, j);
    OpsFormed(def, j);
    OneStarts(def, Ops(j), Statuses(j), i);
    NextReachable(def, LaneState(def, j), RunWith(def, Ops(j)[i := Decimal(i)], Statuses(j)[i := Queued], false), Start(OneOp(i)));
  }

  lemma OneSucceeds(def: Definition, ops: map<nat, string>, statuses: map<nat, Status>, i: nat)
    requires WellFormed(def, ops, statuses[i := Queued]) && Reachable(def, RunWith(def, ops, statuses[i := Queued], false))
    ensures Reachable(def, RunWith(def, ops, statuses[i := Succeeded], false)) && WellFormed(def, ops, statuses[i := Succeeded])
  {
    SyncWith(def, ops, statuses[i := Queued], i, Succeeded);
    assert statuses[i := Queued][i := Succeeded] == statuses[i := Succeeded];
    NextReachable(def, RunWith(def, ops, statuses[i := Queued], false), RunWith(def, ops, statuses[i := Succeeded], false), Sync(i, Succeeded));
  }

  lemma ClonedReached(def: Definition, j: nat)
    requires FreeLanes(def) && j < def.maxParallelStages && Reachable(def, LaneState(def, j))
    ensures Reachable(def, Cloned(def, j))
    ensures 5 * j < |def.stages| && WellFormed(def, Ops(j)[5 * j := Decimal(5 * j)], Statuses(j)[5 * j := Succeeded])
  {
    MachinesStarted(def, j);
    OneSucceeds(def, Ops(j)[5 * j := Decimal(5 * j)], Statuses(j), 5 * j);
  }

  lemma LaneTaken(def: Definition, j: nat)
    requires FreeLanes(def) && j < def.maxParallelStages && Reachable(def, LaneState(def, j))
    ensures Reachable(def, LaneState(def, j + 1))
  {
    var i := 5 * j + 1;
    ClonedReached(def, j);
    NextSecondReady(def, j);
    MapsGrow(j);
    OneStarts(def, Ops(j)[5 * j := Decimal(5 * j)], Statuses(j)[5 * j := Succeeded], i);
    NextReachable(def, Cloned(def, j), LaneState(def, j + 1), Start(OneOp(i)));
  }

  lemma {:induction false} LanesTaken(def: Definition, j: nat)
    requires FreeLanes(def) && j <= def.maxParallelStages
    ensures Reachable(def, LaneState(def, j))
  {
    if j == 0 {
      assert LaneState(def, 0).stages == NewRun(def).stages;
      NewRunReachable(def);
    } else {
      LanesTaken(def, j - 1);
      LaneTaken(def, j - 1);
    }
  }

  /** The lanes of a created pipeline are not only an upper bound: a run of it reaches a state
      in which as many stages are active, one of each of the first members. */
  lemma LanesAreReached(members: seq<Member>, pluginId: string, spec: Spec) returns (s: RunState)
    requires AllPrepared(members) && |members| >= 1
    ensures var def := CreatedPipeline(members, pluginId, spec);
      && Reachable(def, s) && |ActiveSet(s.stages)| == def.maxParallelStages
      && forall m: nat :: m < def.maxParallelStages ==> Position(m, 1) in ActiveSet(s.stages)
  {
    var def := CreatedPipeline(members, pluginId, spec);
    CreatedFreeLanes(members, pluginId, spec);
    LanesTaken(def, def.maxParallelStages);
    assert BlockChained(def, def.maxParallelStages - 1);
    LaneActive(def, def.maxParallelStages);
    s := LaneState(def, def.maxParallelStages);
  }
}
