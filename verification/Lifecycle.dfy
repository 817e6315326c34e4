/** A cluster over any number of failed recreations: runs of its pipeline, interleaved
    with the rebuilding of that pipeline from what the last run left behind. */
module Lifecycle {
  import opened Text
  import opened Pipelines
  import opened Scheduler
  import opened Planner
  import opened MultiCluster
  import opened Recreation

  datatype Mode = Single | Multi(members: nat)

  // ---- Pipelines of one cluster ----

  predicate CleanupsFirst(stages: seq<Stage>, cleanups: nat) {
    && cleanups <= |stages|
    && (forall i :: 0 <= i < cleanups ==> IsCleanup(stages[i].id))
    && (forall i :: cleanups <= i < |stages| ==> !IsCleanup(stages[i].id))
  }

  /** A cluster pipeline: cleanups first, distinct names, and either sequential or a
      planned multi-cluster pipeline. */
  ghost predicate ClusterPipeline(mode: Mode, def: Definition, cleanups: nat, starts: seq<nat>) {
    && CleanupsFirst(def.stages, cleanups)
    && Distinct(StageIds(def.stages))
    && match mode
       case Single => def.maxParallelStages <= 1
       case Multi(members) => Layout(def.stages, members, cleanups, starts) && Planned(def, members) == def
  }

  /** No provisioning stage starts before all cleanups have succeeded, and the cleanups
      run strictly in order. */
  lemma ClusterBarrier(mode: Mode, def: Definition, cleanups: nat, starts: seq<nat>, s: RunState, i: nat, j: nat)
    requires ClusterPipeline(mode, def, cleanups, starts) && Reachable(def, s)
    requires j < cleanups && j < i && HasStarted(s, i)
    ensures Success(s, j)
  {
    match mode {
      case Single =>
        ReachableSafe(def, s);
        SequentialPrefix(def, s, i, j);
      case Multi(members) =>
        PlannedRunGuarantees(def, members, cleanups, starts, s);
        if i < cleanups {
          ReachableSafe(def, s);
          PlannedBarriers(def.stages, members, cleanups, starts);
          SchedulerRespects(def, members, s);
          CleanupOrder(PlannedEdges(def.stages, members), cleanups, starts, Parallelism(def.stages, members), s, i, j);
        }
    }
  }

  // ---- Lifecycle states ----

  /** A provisioning operation that some run started: the attempt that started it and its
      stage position there. */
  datatype Item = Item(operationId: string, attempt: nat, position: nat)

  /** The current pipeline and run, the number of recreations before it, and the history:
      the provisioning operations ever started (in creation order), the operations whose
      cleanup succeeded (in that order), and every operation identifier handed out. */
  datatype Life = Life(
    def: Definition,
    run: RunState,
    attempt: nat,
    created: seq<Item>,
    cleaned: seq<string>,
    used: set<string>)

  predicate IsProvisioning(id: string) {
    !IsCleanup(id) && id != PRUNE
  }

  /** The provisioning operations one start step creates, in the order of their stages. */
  function StartedItems(def: Definition, ops: map<nat, string>, attempt: nat, n: nat): seq<Item>
    requires n <= |def.stages|
  {
    if n == 0 then []
    else StartedItems(def, ops, attempt, n - 1)
         + if n - 1 in ops && IsProvisioning(def.stages[n - 1].id) then [Item(ops[n - 1], attempt, n - 1)] else []
  }

  function SourceOf(stage: Stage): string {
    if stage.spec.sourceOperationId.Some? then stage.spec.sourceOperationId.value else ""
  }

  /** A step of the current run, with its effect on the history. */
  predicate RunStep(l: Life, l': Life, e: Event) {
    && Next(l.def, l.run, l'.run, e) && l'.def == l.def
    && match e
       case Start(ops) =>
         && (forall i :: i in ops ==> ops[i] !in l.used)
         && l' == l.(run := l'.run, created := l.created + StartedItems(l.def, ops, l.attempt, |l.def.stages|), used := l.used + ops.Values)
       case Sync(i, status) =>
         l' == l.(run := l'.run,
                  cleaned := if i < |l.def.stages| && status == Succeeded && IsCleanup(l.def.stages[i].id)
                             then l.cleaned + [SourceOf(l.def.stages[i])] else l.cleaned)
       case Terminate(i, status) => l' == l.(run := l'.run)
  }

  // ---- Recreation ----

  /** Targets whose operation has mutable steps to clean up; others are skipped. */
  function Selected(targets: seq<Target>, cleanable: set<string>): seq<Target> {
    if targets == [] then []
    else
      var rest := Selected(targets[..|targets| - 1], cleanable);
      if targets[|targets| - 1].operationId in cleanable then rest + [targets[|targets| - 1]] else rest
  }

  function CleanupStage(target: Target): Stage {
    Stage(target.stageId, "", target.title, Spec(None, Some(target.operationId), map[]), [], [])
  }

  function CleanupStages(targets: seq<Target>): (stages: seq<Stage>)
    ensures |stages| == |targets|
    ensures forall k :: 0 <= k < |targets| ==> stages[k] == CleanupStage(targets[k])
  {
    seq(|targets|, k requires 0 <= k < |targets| => CleanupStage(targets[k]))
  }

  /** The provisioning half of a recreation may rewrite specs, bindings and plugins and, for
      a single cluster, append the platform stage; it keeps names and dependencies. Its
      validation accepts only edges to earlier stages. */
  predicate Rebuilds(mode: Mode, kept: seq<Stage>, provision: seq<Stage>) {
    && |kept| <= |provision| && BackwardEdges(provision)
    && (forall i :: 0 <= i < |kept| ==> provision[i].id == kept[i].id && provision[i].dependsOn == kept[i].dependsOn)
    && match mode
       case Single => || |provision| == |kept|
                      || (|provision| == |kept| + 1 && provision[|kept|].id == "platform" && !Named(kept, "platform"))
       case Multi(_) => |provision| == |kept|
  }

  function Rebuilt(mode: Mode, targets: seq<Target>, provision: seq<Stage>, result: Output): Definition {
    var def := Definition(0, CleanupStages(targets) + provision, result);
    match mode
    case Single => def
    case Multi(members) => Planned(def, members)
  }

  /** A recreation of a finished run. `cleanable` holds the operations that have cleanup steps. */
  predicate RecreateStep(mode: Mode, cleanable: set<string>, l: Life, l': Life, provision: seq<Stage>) {
    && ActiveSet(l.run.stages) == {} && (l.run.terminating || AllSucceeded(l.run))
    && Rebuilds(mode, Provisioning(l.def.stages), provision)
    && var targets := CleanupTargets(l.run.stages, l.def.stages);
       && targets.Ok?
       && l' == l.(attempt := l.attempt + 1,
                   def := Rebuilt(mode, Selected(targets.value, cleanable), provision, l.def.result),
                   run := NewRun(Rebuilt(mode, Selected(targets.value, cleanable), provision, l.def.result)))
  }

  // ---- Conservation ----

  predicate IsCreated(l: Life, op: string) {
    exists k :: 0 <= k < |l.created| && l.created[k].operationId == op
  }

  /** Operations that were started, can be cleaned up and have not been. */
  predicate Outstanding(l: Life, cleanable: set<string>, op: string) {
    IsCreated(l, op) && op in cleanable && op !in l.cleaned
  }

  predicate Live(l: Life, i: nat) {
    i < |l.run.stages| && Provisioned(l.run.stages[i])
  }

  predicate DistinctItems(items: seq<Item>) {
    forall i, j :: 0 <= i < j < |items| ==> items[i].operationId != items[j].operationId
  }

  predicate ItemsWithin(items: seq<Item>, operations: set<string>) {
    forall k :: 0 <= k < |items| ==> items[k].operationId in operations
  }

  predicate HistoryConsistent(l: Life, cleanable: set<string>) {
    && DistinctItems(l.created) && ItemsWithin(l.created, l.used) && "" !in l.used
    && Distinct(l.cleaned)
    && (forall k :: 0 <= k < |l.cleaned| ==> IsCreated(l, l.cleaned[k]) && l.cleaned[k] in cleanable)
    && (forall i :: 0 <= i < |l.run.stages| && Started(l.run.stages[i]) ==> l.run.stages[i].operationId in l.used)
  }

  /** Every cleanup stage knows an operation to clean up, which it alone cleans, and which
      counts as cleaned exactly when the stage has succeeded. */
  predicate SourcesConsistent(l: Life, cleanable: set<string>, cleanups: nat)
    requires cleanups <= |l.def.stages| == |l.run.stages|
  {
    && (forall j :: 0 <= j < cleanups ==>
          && l.def.stages[j].spec.sourceOperationId.Some?
          && IsCreated(l, SourceOf(l.def.stages[j])) && SourceOf(l.def.stages[j]) in cleanable
          && (SourceOf(l.def.stages[j]) in l.cleaned <==> l.run.stages[j].status == Succeeded))
    && (forall j, k :: 0 <= j < k < cleanups ==> SourceOf(l.def.stages[j]) != SourceOf(l.def.stages[k]))
  }

  /** What the current run provisioned is on record, uncleaned and not a cleanup's source. */
  predicate LiveConsistent(l: Life, cleanups: nat)
    requires cleanups <= |l.def.stages| == |l.run.stages|
  {
    forall i: nat :: Live(l, i) && i < |l.run.stages| ==>
      && Item(l.run.stages[i].operationId, l.attempt, i) in l.created
      && l.run.stages[i].operationId !in l.cleaned
      && forall j :: 0 <= j < cleanups ==> SourceOf(l.def.stages[j]) != l.run.stages[i].operationId
  }

  /** Nothing is lost: an outstanding operation is the source of a cleanup stage or was
      provisioned by the current run. */
  ghost predicate NothingLost(l: Life, cleanable: set<string>, cleanups: nat)
    requires cleanups <= |l.def.stages| == |l.run.stages|
  {
    forall op :: Outstanding(l, cleanable, op) ==> Accounted(l, cleanups, op)
  }

  predicate Accounted(l: Life, cleanups: nat, op: string)
    requires cleanups <= |l.def.stages| == |l.run.stages|
  {
    || (exists j :: 0 <= j < cleanups && SourceOf(l.def.stages[j]) == op)
    || (exists i: nat :: i < |l.run.stages| && Live(l, i) && l.run.stages[i].operationId == op)
  }

  /** `item` is the record of the operation that cleanup stage `j` removes. */
  predicate RecordOf(l: Life, j: nat, item: Item)
    requires j < |l.def.stages|
  {
    item in l.created && item.operationId == SourceOf(l.def.stages[j])
  }

  /** The cleanup stages remove later stages of the source run first. */
  ghost predicate CleanupsReversed(l: Life, cleanups: nat)
    requires cleanups <= |l.def.stages|
  {
    forall a, b, x, y :: 0 <= a < b < cleanups && RecordOf(l, a, x) && RecordOf(l, b, y) ==> x.position > y.position
  }

  ghost predicate Consistent(mode: Mode, cleanable: set<string>, l: Life, cleanups: nat, starts: seq<nat>) {
    && ClusterPipeline(mode, l.def, cleanups, starts)
    && BackwardEdges(l.def.stages)
    && Reachable(l.def, l.run) && Aligned(l.def, l.run)
    && Records(cleanable, l, cleanups)
  }

  /** The history agrees with the current pipeline and run. */
  ghost predicate Records(cleanable: set<string>, l: Life, cleanups: nat) {
    && cleanups <= |l.def.stages| == |l.run.stages|
    && HistoryConsistent(l, cleanable)
    && SourcesConsistent(l, cleanable, cleanups)
    && LiveConsistent(l, cleanups)
    && NothingLost(l, cleanable, cleanups)
    && CleanupsReversed(l, cleanups)
    && Attempts(l, cleanups)
    && CleanedInOrder(l, cleanable)
  }

  /** Whatever has been cleaned up or is to be was created by an earlier attempt. */
  ghost predicate Attempts(l: Life, cleanups: nat)
    requires cleanups <= |l.def.stages|
  {
    && (forall x :: x in l.created ==> x.attempt <= l.attempt)
    && (forall x :: x in l.created && x.operationId in l.cleaned ==> x.attempt < l.attempt)
    && (forall j, x :: 0 <= j < cleanups && RecordOf(l, j, x) ==> x.attempt < l.attempt)
  }

  /** Two operations of one attempt, `x` of the later stage. */
  predicate CleanedFirst(l: Life, x: Item, y: Item) {
    x in l.created && y in l.created && x.attempt == y.attempt && x.position > y.position
  }

  /** Of the operations of one attempt, those of later stages are cleaned up first. */
  ghost predicate CleanedInOrder(l: Life, cleanable: set<string>) {
    forall x, y :: CleanedFirst(l, x, y) && x.operationId in cleanable && y.operationId in l.cleaned ==> x.operationId in l.cleaned
  }

  // ---- Run steps keep the lifecycle consistent ----

  lemma {:induction false} StartedItemsMeaning(def: Definition, ops: map<nat, string>, attempt: nat, n: nat)
    requires n <= |def.stages|
    ensures forall x :: x in StartedItems(def, ops, attempt, n) <==>
              && x.position < n && x.position in ops && IsProvisioning(def.stages[x.position].id)
              && x.operationId == ops[x.position] && x.attempt == attempt
    ensures forall i, j :: 0 <= i < j < |StartedItems(def, ops, attempt, n)| ==>
              StartedItems(def, ops, attempt, n)[i].position < StartedItems(def, ops, attempt, n)[j].position
  {
    if n > 0 {
      StartedItemsMeaning(def, ops, attempt, n - 1);
      var before := StartedItems(def, ops, attempt, n - 1);
      assert forall k :: 0 <= k < |before| ==> before[k] in before;
    }
  }

  lemma CreatedGrows(l: Life, l': Life)
    requires |l.created| <= |l'.created| && l'.created[..|l.created|] == l.created
    ensures forall op :: IsCreated(l, op) ==> IsCreated(l', op)
    ensures forall x :: x in l.created ==> x in l'.created
  {
    assert forall k :: 0 <= k < |l.created| ==> l'.created[k] == l.created[k];
    forall x | x in l.created ensures x in l'.created {
      var k :| 0 <= k < |l.created| && l.created[k] == x;
      assert l'.created[k] == x;
    }
  }

  lemma DistinctItemsConcat(a: seq<Item>, b: seq<Item>, used: set<string>)
    requires DistinctItems(a) && DistinctItems(b) && ItemsWithin(a, used)
    requires forall k :: 0 <= k < |b| ==> b[k].operationId !in used
    ensures DistinctItems(a + b)
  {
  }

  lemma StartedItemsNew(l: Life, l': Life, ops: map<nat, string>)
    requires RunStep(l, l', Start(ops))
    ensures var items := StartedItems(l.def, ops, l.attempt, |l.def.stages|);
      && DistinctItems(items) && ItemsWithin(items, ops.Values)
      && forall k :: 0 <= k < |items| ==> items[k].operationId !in l.used
  {
    var items := StartedItems(l.def, ops, l.attempt, |l.def.stages|);
    StartedItemsMeaning(l.def, ops, l.attempt, |l.def.stages|);
    forall k | 0 <= k < |items| ensures items[k].position in ops && items[k].operationId == ops[items[k].position] {
      assert items[k] in items;
    }
  }

  lemma StartHistory(mode: Mode, cleanable: set<string>, l: Life, l': Life, cleanups: nat, starts: seq<nat>, ops: map<nat, string>)
    requires Consistent(mode, cleanable, l, cleanups, starts) && RunStep(l, l', Start(ops))
    ensures HistoryConsistent(l', cleanable)
  {
    StartedItemsNew(l, l', ops);
    CreatedGrows(l, l');
    DistinctItemsConcat(l.created, StartedItems(l.def, ops, l.attempt, |l.def.stages|), l.used);
    forall i | 0 <= i < |l'.run.stages| && Started(l'.run.stages[i])
      ensures l'.run.stages[i].operationId in l'.used
    {
      assert i in ops || l'.run.stages[i] == l.run.stages[i];
    }
  }

  lemma StartSources(mode: Mode, cleanable: set<string>, l: Life, l': Life, cleanups: nat, starts: seq<nat>, ops: map<nat, string>)
    requires Consistent(mode, cleanable, l, cleanups, starts) && RunStep(l, l', Start(ops))
    ensures |l'.run.stages| == |l.run.stages|
    ensures SourcesConsistent(l', cleanable, cleanups)
  {
    CreatedGrows(l, l');
    forall j | 0 <= j < cleanups
      ensures l'.run.stages[j].status == Succeeded <==> l.run.stages[j].status == Succeeded
    {
      assert j in ops ==> j in Ready(l.def, l.run.stages);
    }
  }

  /** The stages a start step leaves live: those that were, and the provisioning ones it starts. */
  lemma LiveAfterStart(mode: Mode, cleanable: set<string>, l: Life, l': Life, cleanups: nat, starts: seq<nat>, ops: map<nat, string>, i: nat)
    requires Consistent(mode, cleanable, l, cleanups, starts) && RunStep(l, l', Start(ops)) && i < |l.run.stages|
    ensures |l'.run.stages| == |l.run.stages|
    ensures Live(l', i) <==> Live(l, i) || (i in ops && IsProvisioning(l.def.stages[i].id))
    ensures Live(l, i) ==> i !in ops && l'.run.stages[i].operationId == l.run.stages[i].operationId
    ensures Live(l', i) && !Live(l, i) ==> l'.run.stages[i].operationId == ops[i] && ops[i] !in l.used
  {
    assert i in ops ==> i in Ready(l.def, l.run.stages);
  }

  lemma StartLive(mode: Mode, cleanable: set<string>, l: Life, l': Life, cleanups: nat, starts: seq<nat>, ops: map<nat, string>)
    requires Consistent(mode, cleanable, l, cleanups, starts) && RunStep(l, l', Start(ops))
    ensures |l'.run.stages| == |l.run.stages|
    ensures LiveConsistent(l', cleanups)
  {
    StartedItemsMeaning(l.def, ops, l.attempt, |l.def.stages|);
    CreatedGrows(l, l');
    forall i: nat | Live(l', i) && i < |l'.run.stages|
      ensures Item(l'.run.stages[i].operationId, l'.attempt, i) in l'.created
      ensures l'.run.stages[i].operationId !in l'.cleaned
      ensures forall j :: 0 <= j < cleanups ==> SourceOf(l'.def.stages[j]) != l'.run.stages[i].operationId
    {
      LiveAfterStart(mode, cleanable, l, l', cleanups, starts, ops, i);
      if !Live(l, i) {
        var op := ops[i];
        assert Item(op, l.attempt, i) in StartedItems(l.def, ops, l.attempt, |l.def.stages|);
        UnusedIsNew(mode, cleanable, l, cleanups, starts, op);
      }
    }
  }

  lemma UnusedIsNew(mode: Mode, cleanable: set<string>, l: Life, cleanups: nat, starts: seq<nat>, op: string)
    requires Consistent(mode, cleanable, l, cleanups, starts) && op !in l.used
    ensures !IsCreated(l, op) && op !in l.cleaned
    ensures forall j :: 0 <= j < cleanups ==> SourceOf(l.def.stages[j]) != op
  {
    assert forall k :: 0 <= k < |l.cleaned| ==> IsCreated(l, l.cleaned[k]);
  }

  lemma StartAccounted(mode: Mode, cleanable: set<string>, l: Life, l': Life, cleanups: nat, starts: seq<nat>, ops: map<nat, string>, op: string)
    requires Consistent(mode, cleanable, l, cleanups, starts) && RunStep(l, l', Start(ops)) && Accounted(l, cleanups, op)
    ensures |l'.run.stages| == |l.run.stages| && Accounted(l', cleanups, op)
  {
    if i: nat :| i < |l.run.stages| && Live(l, i) && l.run.stages[i].operationId == op {
      LiveAfterStart(mode, cleanable, l, l', cleanups, starts, ops, i);
      assert Live(l', i) && l'.run.stages[i].operationId == op;
    }
  }

  lemma StartedAccounted(mode: Mode, cleanable: set<string>, l: Life, l': Life, cleanups: nat, starts: seq<nat>, ops: map<nat, string>, x: Item)
    requires Consistent(mode, cleanable, l, cleanups, starts) && RunStep(l, l', Start(ops))
    requires x in StartedItems(l.def, ops, l.attempt, |l.def.stages|)
    ensures |l'.run.stages| == |l.run.stages| && Accounted(l', cleanups, x.operationId)
  {
    StartedItemsMeaning(l.def, ops, l.attempt, |l.def.stages|);
    LiveAfterStart(mode, cleanable, l, l', cleanups, starts, ops, x.position);
    assert Live(l', x.position) && l'.run.stages[x.position].operationId == x.operationId;
  }

  lemma StartNothingLost(mode: Mode, cleanable: set<string>, l: Life, l': Life, cleanups: nat, starts: seq<nat>, ops: map<nat, string>)
    requires Consistent(mode, cleanable, l, cleanups, starts) && RunStep(l, l', Start(ops))
    ensures |l'.run.stages| == |l.run.stages|
    ensures NothingLost(l', cleanable, cleanups)
  {
    var items := StartedItems(l.def, ops, l.attempt, |l.def.stages|);
    forall op | Outstanding(l', cleanable, op) ensures Accounted(l', cleanups, op) {
      var x :| x in l'.created && x.operationId == op;
      if x in items {
        StartedAccounted(mode, cleanable, l, l', cleanups, starts, ops, x);
      } else {
        CreatedRecord(l, x);
        StartAccounted(mode, cleanable, l, l', cleanups, starts, ops, op);
      }
    }
  }

  lemma CreatedRecord(l: Life, x: Item)
    requires x in l.created
    ensures IsCreated(l, x.operationId)
  {
    var k :| 0 <= k < |l.created| && l.created[k] == x;
    assert l.created[k].operationId == x.operationId;
  }

  lemma StartReversed(mode: Mode, cleanable: set<string>, l: Life, l': Life, cleanups: nat, starts: seq<nat>, ops: map<nat, string>)
    requires Consistent(mode, cleanable, l, cleanups, starts) && RunStep(l, l', Start(ops))
    ensures CleanupsReversed(l', cleanups)
  {
    var items := StartedItems(l.def, ops, l.attempt, |l.def.stages|);
    StartedItemsMeaning(l.def, ops, l.attempt, |l.def.stages|);
    forall j: nat, x | j < cleanups && RecordOf(l', j, x) ensures RecordOf(l, j, x) {
      if x in items {
        UnusedIsNew(mode, cleanable, l, cleanups, starts, x.operationId);
      }
    }
  }

  lemma StartAttempts(mode: Mode, cleanable: set<string>, l: Life, l': Life, cleanups: nat, starts: seq<nat>, ops: map<nat, string>)
    requires Consistent(mode, cleanable, l, cleanups, starts) && RunStep(l, l', Start(ops))
    ensures Attempts(l', cleanups) && CleanedInOrder(l', cleanable)
  {
    var items := StartedItems(l.def, ops, l.attempt, |l.def.stages|);
    StartedItemsMeaning(l.def, ops, l.attempt, |l.def.stages|);
    forall x | x in items
      ensures x.attempt == l.attempt && x.operationId !in l'.cleaned
      ensures forall j :: 0 <= j < cleanups ==> !RecordOf(l', j, x)
    {
      UnusedIsNew(mode, cleanable, l, cleanups, starts, ops[x.position]);
    }
    assert forall x :: x in l'.created <==> x in l.created || x in items;
    forall j, x | 0 <= j < cleanups && RecordOf(l', j, x) ensures x.attempt < l'.attempt {
      assert x !in items && RecordOf(l, j, x);
    }
    forall x, y | CleanedFirst(l', x, y) && x.operationId in cleanable && y.operationId in l'.cleaned
      ensures x.operationId in l'.cleaned
    {
      assert y !in items && x !in items;
      assert CleanedFirst(l, x, y);
    }
  }

  lemma StartConsistent(mode: Mode, cleanable: set<string>, l: Life, l': Life, cleanups: nat, starts: seq<nat>, ops: map<nat, string>)
    requires Consistent(mode, cleanable, l, cleanups, starts) && RunStep(l, l', Start(ops))
    ensures Consistent(mode, cleanable, l', cleanups, starts)
  {
    NextReachable(l.def, l.run, l'.run, Start(ops));
    ReachableSafe(l.def, l'.run);
    StartHistory(mode, cleanable, l, l', cleanups, starts, ops);
    StartSources(mode, cleanable, l, l', cleanups, starts, ops);
    StartLive(mode, cleanable, l, l', cleanups, starts, ops);
    StartNothingLost(mode, cleanable, l, l', cleanups, starts, ops);
    StartReversed(mode, cleanable, l, l', cleanups, starts, ops);
    StartAttempts(mode, cleanable, l, l', cleanups, starts, ops);
  }

  /** Statuses may have changed, operations and names have not. */
  predicate SameOperations(s: RunState, s': RunState) {
    && |s'.stages| == |s.stages|
    && forall i :: 0 <= i < |s.stages| ==>
         s'.stages[i].operationId == s.stages[i].operationId && s'.stages[i].stageId == s.stages[i].stageId
  }

  lemma QuietHistory(cleanable: set<string>, l: Life, l': Life)
    requires HistoryConsistent(l, cleanable)
    requires l' == l.(run := l'.run) && SameOperations(l.run, l'.run)
    ensures HistoryConsistent(l', cleanable)
  {
    assert forall op :: IsCreated(l', op) <==> IsCreated(l, op);
  }

  lemma QuietSources(cleanable: set<string>, l: Life, l': Life, cleanups: nat)
    requires cleanups <= |l.def.stages| == |l.run.stages| && SourcesConsistent(l, cleanable, cleanups)
    requires l' == l.(run := l'.run) && SameOperations(l.run, l'.run)
    requires forall j :: 0 <= j < cleanups ==> (l'.run.stages[j].status == Succeeded <==> l.run.stages[j].status == Succeeded)
    ensures SourcesConsistent(l', cleanable, cleanups)
  {
    assert forall op :: IsCreated(l', op) <==> IsCreated(l, op);
  }

  lemma QuietLost(cleanable: set<string>, l: Life, l': Life, cleanups: nat)
    requires cleanups <= |l.def.stages| == |l.run.stages| && NothingLost(l, cleanable, cleanups)
    requires l' == l.(run := l'.run, cleaned := l'.cleaned) && SameOperations(l.run, l'.run)
    requires forall op :: op in l.cleaned ==> op in l'.cleaned
    ensures NothingLost(l', cleanable, cleanups)
  {
    forall op | Outstanding(l', cleanable, op) ensures Accounted(l', cleanups, op) {
      assert Outstanding(l, cleanable, op);
      if i: nat :| i < |l.run.stages| && Live(l, i) && l.run.stages[i].operationId == op {
        assert Live(l', i) && l'.run.stages[i].operationId == op;
      }
    }
  }

  lemma QuietReversed(l: Life, l': Life, cleanups: nat)
    requires cleanups <= |l.def.stages| && CleanupsReversed(l, cleanups)
    requires l'.def == l.def && l'.created == l.created
    ensures CleanupsReversed(l', cleanups)
  {
    forall a, b, x, y | 0 <= a < b < cleanups && RecordOf(l', a, x) && RecordOf(l', b, y) ensures x.position > y.position {
      assert RecordOf(l, a, x) && RecordOf(l, b, y);
    }
  }

  lemma QuietAttempts(cleanable: set<string>, l: Life, l': Life, cleanups: nat)
    requires cleanups <= |l.def.stages| && Attempts(l, cleanups) && CleanedInOrder(l, cleanable)
    requires l' == l.(run := l'.run)
    ensures Attempts(l', cleanups) && CleanedInOrder(l', cleanable)
  {
    assert forall j, x | 0 <= j < cleanups :: RecordOf(l', j, x) ==> RecordOf(l, j, x);
    assert forall x, y :: CleanedFirst(l', x, y) ==> CleanedFirst(l, x, y);
  }

  lemma QuietLive(l: Life, l': Life, cleanups: nat)
    requires cleanups <= |l.def.stages| == |l.run.stages| && LiveConsistent(l, cleanups)
    requires l' == l.(run := l'.run, cleaned := l'.cleaned) && SameOperations(l.run, l'.run)
    requires forall op :: op in l'.cleaned ==> op in l.cleaned || exists j :: 0 <= j < cleanups && SourceOf(l.def.stages[j]) == op
    ensures LiveConsistent(l', cleanups)
  {
    assert forall i: nat :: Live(l', i) <==> Live(l, i);
  }

  /** A step that gives no operation out and completes no cleanup keeps all records. */
  lemma QuietStep(mode: Mode, cleanable: set<string>, l: Life, l': Life, cleanups: nat, starts: seq<nat>, e: Event)
    requires Consistent(mode, cleanable, l, cleanups, starts) && Next(l.def, l.run, l'.run, e)
    requires l' == l.(run := l'.run) && SameOperations(l.run, l'.run)
    requires forall j :: 0 <= j < cleanups ==> (l'.run.stages[j].status == Succeeded <==> l.run.stages[j].status == Succeeded)
    ensures Consistent(mode, cleanable, l', cleanups, starts)
  {
    NextReachable(l.def, l.run, l'.run, e);
    ReachableSafe(l.def, l'.run);
    QuietHistory(cleanable, l, l');
    QuietSources(cleanable, l, l', cleanups);
    QuietLive(l, l', cleanups);
    QuietLost(cleanable, l, l', cleanups);
    QuietReversed(l, l', cleanups);
    QuietAttempts(cleanable, l, l', cleanups);
  }

  lemma CleanupHistory(cleanable: set<string>, l: Life, l': Life, op: string)
    requires HistoryConsistent(l, cleanable) && SameOperations(l.run, l'.run)
    requires l' == l.(run := l'.run, cleaned := l.cleaned + [op])
    requires op !in l.cleaned && op in cleanable && IsCreated(l, op)
    ensures HistoryConsistent(l', cleanable)
  {
    assert forall x :: IsCreated(l', x) <==> IsCreated(l, x);
  }

  lemma CleanupSources(cleanable: set<string>, l: Life, l': Life, cleanups: nat, i: nat)
    requires cleanups <= |l.def.stages| == |l.run.stages| && SourcesConsistent(l, cleanable, cleanups)
    requires i < cleanups && l' == l.(run := l'.run, cleaned := l.cleaned + [SourceOf(l.def.stages[i])])
    requires l'.run.stages == l.run.stages[i := l.run.stages[i].(status := Succeeded)]
    ensures SourcesConsistent(l', cleanable, cleanups)
  {
    assert forall x :: IsCreated(l', x) <==> IsCreated(l, x);
    forall j | 0 <= j < cleanups
      ensures SourceOf(l'.def.stages[j]) in l'.cleaned <==> l'.run.stages[j].status == Succeeded
    {
      assert j < i || j == i || i < j;
    }
  }

  lemma CleanupAttempts(cleanable: set<string>, l: Life, l': Life, cleanups: nat, i: nat)
    requires Records(cleanable, l, cleanups) && i < cleanups
    requires l' == l.(run := l'.run, cleaned := l.cleaned + [SourceOf(l.def.stages[i])])
    requires forall j :: 0 <= j < i ==> l.run.stages[j].status == Succeeded
    ensures Attempts(l', cleanups) && CleanedInOrder(l', cleanable)
  {
    var op := SourceOf(l.def.stages[i]);
    assert forall x :: x in l.created && x.operationId == op ==> RecordOf(l, i, x);
    forall j, x | 0 <= j < cleanups && RecordOf(l', j, x) ensures x.attempt < l'.attempt {
      assert RecordOf(l, j, x);
    }
    forall x, y | CleanedFirst(l', x, y) && x.operationId in cleanable && y.operationId in l'.cleaned
      ensures x.operationId in l'.cleaned
    {
      assert CleanedFirst(l, x, y);
      if y.operationId == op {
        LaterIsCleaned(cleanable, l, cleanups, i, x, y);
      }
    }
  }

  /** When a cleanup runs, the later stages of the same attempt have been cleaned up. */
  lemma LaterIsCleaned(cleanable: set<string>, l: Life, cleanups: nat, i: nat, x: Item, y: Item)
    requires Records(cleanable, l, cleanups) && i < cleanups
    requires forall j :: 0 <= j < i ==> l.run.stages[j].status == Succeeded
    requires x in l.created && x.operationId in cleanable && RecordOf(l, i, y)
    requires x.attempt == y.attempt && x.position > y.position
    ensures x.operationId in l.cleaned
  {
    CreatedRecord(l, x);
    if x.operationId !in l.cleaned {
      assert Accounted(l, cleanups, x.operationId);
      if p: nat :| p < |l.run.stages| && Live(l, p) && l.run.stages[p].operationId == x.operationId {
        LivePosition(cleanable, l, cleanups, p, x);
        assert false;
      }
      var j: nat :| j < cleanups && SourceOf(l.def.stages[j]) == x.operationId;
      assert RecordOf(l, j, x);
      assert false;
    }
  }

  lemma LivePosition(cleanable: set<string>, l: Life, cleanups: nat, p: nat, x: Item)
    requires Records(cleanable, l, cleanups) && Live(l, p)
    requires x in l.created && x.operationId == l.run.stages[p].operationId
    ensures x.position == p && x.attempt == l.attempt
  {
    var own := Item(l.run.stages[p].operationId, l.attempt, p);
    var i :| 0 <= i < |l.created| && l.created[i] == own;
    var j :| 0 <= j < |l.created| && l.created[j] == x;
    assert i == j;
  }

  lemma CleanupRecords(cleanable: set<string>, l: Life, l': Life, cleanups: nat, i: nat)
    requires Records(cleanable, l, cleanups) && i < cleanups && l.run.stages[i].status != Succeeded
    requires forall j :: 0 <= j < i ==> l.run.stages[j].status == Succeeded
    requires l' == l.(run := l'.run, cleaned := l.cleaned + [SourceOf(l.def.stages[i])])
    requires l'.run.stages == l.run.stages[i := l.run.stages[i].(status := Succeeded)]
    ensures SourceOf(l.def.stages[i]) !in l.cleaned
    ensures Records(cleanable, l', cleanups)
  {
    assert SameOperations(l.run, l'.run);
    CleanupHistory(cleanable, l, l', SourceOf(l.def.stages[i]));
    CleanupSources(cleanable, l, l', cleanups, i);
    QuietLive(l, l', cleanups);
    QuietLost(cleanable, l, l', cleanups);
    QuietReversed(l, l', cleanups);
    CleanupAttempts(cleanable, l, l', cleanups, i);
  }

  /** A completed cleanup moves exactly its source from outstanding to cleaned. */
  lemma CleanupSync(mode: Mode, cleanable: set<string>, l: Life, l': Life, cleanups: nat, starts: seq<nat>, i: nat)
    requires Consistent(mode, cleanable, l, cleanups, starts) && RunStep(l, l', Sync(i, Succeeded)) && i < cleanups
    ensures l'.cleaned == l.cleaned + [SourceOf(l.def.stages[i])] && SourceOf(l.def.stages[i]) !in l.cleaned
    ensures Consistent(mode, cleanable, l', cleanups, starts)
  {
    NextReachable(l.def, l.run, l'.run, Sync(i, Succeeded));
    ReachableSafe(l.def, l'.run);
    forall j: nat | j < i ensures l.run.stages[j].status == Succeeded {
      ClusterBarrier(mode, l.def, cleanups, starts, l.run, i, j);
    }
    CleanupRecords(cleanable, l, l', cleanups, i);
  }

  /** A report that completes no cleanup leaves the cleaned list alone. */
  lemma PlainSync(mode: Mode, cleanable: set<string>, l: Life, l': Life, cleanups: nat, starts: seq<nat>, i: nat, status: Status)
    requires Consistent(mode, cleanable, l, cleanups, starts) && RunStep(l, l', Sync(i, status))
    requires i >= cleanups || status != Succeeded
    ensures Consistent(mode, cleanable, l', cleanups, starts)
  {
    assert l'.cleaned == l.cleaned;
    SyncShape(l.run, l'.run, i, status);
    QuietStep(mode, cleanable, l, l', cleanups, starts, Sync(i, status));
  }

  lemma SyncShape(s: RunState, s': RunState, i: nat, status: Status)
    requires SyncStep(s, s', i, status)
    ensures SameOperations(s, s')
    ensures forall j :: 0 <= j < |s.stages| && (j != i || status != Succeeded) ==> (s'.stages[j].status == Succeeded <==> s.stages[j].status == Succeeded)
  {
  }

  lemma TerminateShape(s: RunState, s': RunState, i: nat, status: Status)
    requires TerminateStep(s, s', i, status)
    ensures SameOperations(s, s')
    ensures forall j :: 0 <= j < |s.stages| ==> (s'.stages[j].status == Succeeded <==> s.stages[j].status == Succeeded)
  {
  }

  lemma TerminateConsistent(mode: Mode, cleanable: set<string>, l: Life, l': Life, cleanups: nat, starts: seq<nat>, i: nat, status: Status)
    requires Consistent(mode, cleanable, l, cleanups, starts) && RunStep(l, l', Terminate(i, status))
    ensures Consistent(mode, cleanable, l', cleanups, starts)
  {
    TerminateShape(l.run, l'.run, i, status);
    QuietStep(mode, cleanable, l, l', cleanups, starts, Terminate(i, status));
  }

  /** Every step of a run keeps the lifecycle consistent. */
  lemma RunStepConsistent(mode: Mode, cleanable: set<string>, l: Life, l': Life, cleanups: nat, starts: seq<nat>, e: Event)
    requires Consistent(mode, cleanable, l, cleanups, starts) && RunStep(l, l', e)
    ensures Consistent(mode, cleanable, l', cleanups, starts)
  {
    match e {
      case Start(ops) => StartConsistent(mode, cleanable, l, l', cleanups, starts, ops);
      case Sync(i, status) =>
        if i < cleanups && status == Succeeded {
          CleanupSync(mode, cleanable, l, l', cleanups, starts, i);
        } else {
          PlainSync(mode, cleanable, l, l', cleanups, starts, i, status);
        }
      case Terminate(i, status) => TerminateConsistent(mode, cleanable, l, l', cleanups, starts, i, status);
    }
  }
}
