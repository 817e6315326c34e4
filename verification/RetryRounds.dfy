/** Repeated retries: every round strips the cleanups of the last pipeline, keeps its
    provisioning stages, puts new cleanups in front and plans again. */
module RetryRounds {
  import opened Pipelines
  import opened Planner
  import opened MultiCluster
  import opened Recreation
  import opened Lifecycle
  import opened CleanupSchedule
  import opened Retries

  /** What a recreation is given: the cleanup targets, and the provisioning stages of the last
      pipeline with rewritten specs, bindings and plugins. */
  datatype Round = Round(targets: seq<Target>, provision: seq<Stage>)

  function AfterRound(mode: Mode, def: Definition, round: Round): Definition {
    Rebuilt(mode, round.targets, round.provision, def.result)
  }

  /** A recreation with the placement unchanged. */
  predicate SamePlacement(mode: Mode, def: Definition, round: Round) {
    && DistinctTargets(round.targets)
    && Rebuilds(mode, Provisioning(def.stages), round.provision) && |round.provision| == |Provisioning(def.stages)|
    && Targets(round.provision) == Targets(Provisioning(def.stages))
  }

  /** Recreations one after the other, all with the placement unchanged. */
  ghost predicate AreRetries(mode: Mode, defs: seq<Definition>, rounds: seq<Round>) {
    && |defs| == |rounds| + 1
    && forall k :: 0 <= k < |rounds| ==> SamePlacement(mode, defs[k], rounds[k]) && defs[k + 1] == AfterRound(mode, defs[k], rounds[k])
  }

  /** The same stages with the same dependencies, in the same order. */
  predicate SameSteps(a: seq<Stage>, b: seq<Stage>) {
    |a| == |b| && forall i :: 0 <= i < |a| ==> a[i].id == b[i].id && a[i].dependsOn == b[i].dependsOn
  }

  // ---- Nothing else matters for what is kept and planned ----

  predicate SameEntries(a: map<string, Stage>, b: map<string, Stage>) {
    a.Keys == b.Keys && forall id :: id in a ==> a[id].id == b[id].id && a[id].dependsOn == b[id].dependsOn
  }

  lemma {:induction false} KeptSteps(a: seq<Stage>, b: seq<Stage>)
    requires SameSteps(a, b)
    ensures SameSteps(Kept(a), Kept(b))
  {
    if a != [] {
      KeptSteps(a[..|a| - 1], b[..|b| - 1]);
    }
  }

  lemma {:induction false} IndexSteps(a: seq<Stage>, b: seq<Stage>)
    requires SameSteps(a, b)
    ensures SameEntries(ById(a), ById(b))
  {
    if a != [] {
      IndexSteps(a[..|a| - 1], b[..|b| - 1]);
    }
  }

  lemma {:induction false} NamedSteps(a: map<string, Stage>, b: map<string, Stage>, names: seq<string>)
    requires SameEntries(a, b)
    ensures SameSteps(PickNamed(a, names), PickNamed(b, names))
    decreases |names|
  {
    if names != [] {
      NamedSteps(if names[0] in a then a - {names[0]} else a, if names[0] in b then b - {names[0]} else b, names[1..]);
    }
  }

  lemma {:induction false} OrderedSteps(a: map<string, Stage>, b: map<string, Stage>, s: seq<Stage>, t: seq<Stage>)
    requires SameEntries(a, b) && SameSteps(s, t)
    ensures SameSteps(PickOrdered(a, s), PickOrdered(b, t))
    decreases |s|
  {
    if s != [] {
      OrderedSteps(if s[0].id in a then a - {s[0].id} else a, if s[0].id in b then b - {s[0].id} else b, s[1..], t[1..]);
    }
  }

  lemma ProvisioningSteps(a: seq<Stage>, b: seq<Stage>)
    requires SameSteps(a, b)
    ensures SameSteps(Provisioning(a), Provisioning(b))
  {
    var x, y := ById(Kept(a)), ById(Kept(b));
    KeptSteps(a, b);
    IndexSteps(Kept(a), Kept(b));
    NamedSteps(x, y, PHASES);
    OrderedSteps(x - NameSet(PHASES), y - NameSet(PHASES), a, b);
  }

  lemma PlannedStep(a: seq<Stage>, b: seq<Stage>, i: nat, members: nat, lanes: nat)
    requires SameSteps(a, b) && lanes >= 1 && i < |a|
    ensures PlannedStage(a, i, members, lanes).dependsOn == PlannedStage(b, i, members, lanes).dependsOn
  {
    WantsShape(a, b, i, members, lanes);
  }

  lemma PlannedSteps(a: seq<Stage>, b: seq<Stage>, members: nat, lanes: nat)
    requires SameSteps(a, b) && lanes >= 1
    ensures SameSteps(PlannedStages(a, members, lanes), PlannedStages(b, members, lanes))
  {
    var p, q := PlannedStages(a, members, lanes), PlannedStages(b, members, lanes);
    forall i | 0 <= i < |a| ensures p[i].id == q[i].id && p[i].dependsOn == q[i].dependsOn {
      PlannedStep(a, b, i, members, lanes);
    }
  }

  // ---- Cleanups in front ----

  lemma CleanupsAreCleanups(targets: seq<Target>)
    requires DistinctTargets(targets)
    ensures AllCleanups(CleanupStages(targets))
  {
  }

  /** Cleanup stages in front leave no trace in what is kept. */
  lemma ProvisioningBehind(cleanups: seq<Stage>, provision: seq<Stage>)
    requires AllCleanups(cleanups)
    ensures Provisioning(cleanups + provision) == Provisioning(provision)
  {
    KeptConcat(cleanups, provision);
    KeptOfCleanups(cleanups);
    assert Kept(cleanups + provision) == Kept(provision);
    var rest := ById(Kept(provision)) - NameSet(PHASES);
    ByIdMeaning(Kept(provision));
    forall x | x in cleanups ensures x.id !in rest {
      KeptOnly(provision, x.id);
    }
    PickOrderedSkips(rest, cleanups, provision);
  }

  // ---- A multi-cluster pipeline ----

  lemma BehindCleanupsLayout(members: nat, provision: seq<Stage>, starts: seq<nat>, targets: seq<Target>) returns (starts': seq<nat>)
    requires Layout(provision, members, 0, starts) && AllKept(provision) && DistinctTargets(targets)
    ensures Layout(Joined(targets, provision), members, |targets|, starts')
  {
    var joined := Joined(targets, provision);
    ConcatCarriesOver(CleanupStages(targets), provision);
    RebuiltNames(targets, provision, joined);
    starts' := Shifted(starts, 0, |targets|);
    LayoutShift(provision, members, 0, starts, joined, |targets|, starts');
  }

  /** One round: the cleanups leave no trace, and the number of lanes is that of the
      provisioning stages. */
  lemma MultiRound(members: nat, provision: seq<Stage>, starts: seq<nat>, targets: seq<Target>, result: Output)
    requires Layout(provision, members, 0, starts) && AllKept(provision) && DistinctTargets(targets)
    ensures var lanes, def := Parallelism(provision, members), Rebuilt(Multi(members), targets, provision, result);
      && def.maxParallelStages == lanes
      && Provisioning(def.stages) == Kept(PlannedStages(provision, members, lanes))
  {
    var joined := Joined(targets, provision);
    CleanupsAreCleanups(targets);
    TargetsOfCleanups(CleanupStages(targets), provision);
    CleanupsLeaveNoTrace(CleanupStages(targets), provision, members, Parallelism(provision, members));
    var starts' := BehindCleanupsLayout(members, provision, starts, targets);
    ConcatCarriesOver(CleanupStages(targets), provision);
    RebuiltNames(targets, provision, joined);
    var def := Definition(0, joined, result);
    PlannedShape(def, members);
    LayoutShape(joined, Planned(def, members).stages, members, |targets|, starts');
    MultiKept(Planned(def, members).stages, members, |targets|, starts');
  }

  /** What one round keeps, every later one keeps: same lanes, same plan. */
  predicate IsSettled(members: nat, lanes: nat, kept: seq<Stage>) {
    && lanes >= 1 && AllKept(kept)
    && Parallelism(kept, members) == lanes && Kept(PlannedStages(kept, members, lanes)) == kept
  }

  /** Planning and stripping changes dependencies only. */
  lemma KeptOfPlanned(members: nat, lanes: nat, provision: seq<Stage>)
    requires AllKept(provision) && lanes >= 1
    ensures var planned := PlannedStages(provision, members, lanes);
      var kept := Kept(planned);
      && SameShape(provision, kept) && AllKept(kept)
      && forall i :: 0 <= i < |kept| ==> kept[i] == Stripped(planned[i]) && kept[i].spec == provision[i].spec
  {
    var planned := PlannedStages(provision, members, lanes);
    assert AllKept(planned);
    KeptPointwise(planned);
  }

  lemma OneRoundSettles(members: nat, provision: seq<Stage>, starts: seq<nat>)
    requires Layout(provision, members, 0, starts) && AllKept(provision)
    ensures var lanes := Parallelism(provision, members);
      var kept := Kept(PlannedStages(provision, members, lanes));
      Layout(kept, members, 0, starts) && IsSettled(members, lanes, kept)
  {
    var lanes := Parallelism(provision, members);
    var kept := Kept(PlannedStages(provision, members, lanes));
    KeptOfPlanned(members, lanes, provision);
    TargetsShape(provision, kept);
    PlannedFixpoint(provision, kept, members, lanes);
    KeptLayout(members, provision, starts, kept);
  }

  lemma KeptLayout(members: nat, provision: seq<Stage>, starts: seq<nat>, kept: seq<Stage>)
    requires Layout(provision, members, 0, starts) && AllKept(provision) && SameIds(provision, kept)
    ensures Layout(kept, members, 0, starts)
  {
    assert CleanupsFirst(provision, 0);
    LayoutShape(provision, kept, members, 0, starts);
  }

  /** A pipeline that keeps what the settled one keeps, with as many lanes. */
  ghost predicate Keeping(members: nat, lanes: nat, kept: seq<Stage>, def: Definition) {
    && SameSteps(Provisioning(def.stages), kept) && Targets(Provisioning(def.stages)) == Targets(kept)
    && def.maxParallelStages == lanes
  }

  lemma SettledRound(members: nat, lanes: nat, starts: seq<nat>, kept: seq<Stage>, def: Definition, round: Round)
    requires Layout(kept, members, 0, starts) && IsSettled(members, lanes, kept)
    requires Keeping(members, lanes, kept, def) && SamePlacement(Multi(members), def, round)
    ensures Keeping(members, lanes, kept, AfterRound(Multi(members), def, round))
  {
    var provision := round.provision;
    SettledProvision(members, lanes, starts, kept, Provisioning(def.stages), provision);
    MultiRound(members, provision, starts, round.targets, def.result);
    SettledPlan(members, lanes, kept, provision);
  }

  lemma SettledProvision(members: nat, lanes: nat, starts: seq<nat>, kept: seq<Stage>, last: seq<Stage>, provision: seq<Stage>)
    requires Layout(kept, members, 0, starts) && IsSettled(members, lanes, kept)
    requires SameSteps(last, kept) && Targets(last) == Targets(kept) && Targets(provision) == Targets(last)
    requires Rebuilds(Multi(members), last, provision)
    ensures SameSteps(provision, kept) && AllKept(provision)
    ensures Layout(provision, members, 0, starts) && Parallelism(provision, members) == lanes
  {
    KeptLayout(members, kept, starts, provision);
  }

  lemma SettledPlan(members: nat, lanes: nat, kept: seq<Stage>, provision: seq<Stage>)
    requires IsSettled(members, lanes, kept) && SameSteps(provision, kept) && AllKept(provision) && Targets(provision) == Targets(kept)
    ensures var next := Kept(PlannedStages(provision, members, lanes));
      SameSteps(next, kept) && Targets(next) == Targets(kept)
  {
    PlannedSteps(provision, kept, members, lanes);
    KeptSteps(PlannedStages(provision, members, lanes), PlannedStages(kept, members, lanes));
    KeptOfPlanned(members, lanes, provision);
    TargetsShape(provision, Kept(PlannedStages(provision, members, lanes)));
  }

  lemma {:induction false} MultiRounds(members: nat, lanes: nat, starts: seq<nat>, kept: seq<Stage>, defs: seq<Definition>, rounds: seq<Round>, k: nat)
    requires Layout(kept, members, 0, starts) && IsSettled(members, lanes, kept)
    requires AreRetries(Multi(members), defs, rounds) && k <= |rounds| && Keeping(members, lanes, kept, defs[0])
    ensures Keeping(members, lanes, kept, defs[k])
  {
    if k > 0 {
      MultiRounds(members, lanes, starts, kept, defs, rounds, k - 1);
      SettledRound(members, lanes, starts, kept, defs[k - 1], rounds[k - 1]);
    }
  }

  /** The provisioning stages of a recreation, on their own, have the planner's layout. */
  lemma ProvisionLayout(members: nat, def: Definition, cleanups: nat, starts: seq<nat>, provision: seq<Stage>) returns (starts': seq<nat>)
    requires ClusterPipeline(Multi(members), def, cleanups, starts) && Rebuilds(Multi(members), Provisioning(def.stages), provision)
    ensures Layout(provision, members, 0, starts') && AllKept(provision)
  {
    starts' := JoinedLayout(def.stages, members, cleanups, starts, [], provision);
    assert Joined([], provision) == provision;
    ProvisioningKept(def.stages);
    MultiKept(provision, members, 0, starts');
    ProvisionKept(Multi(members), Provisioning(def.stages), provision);
  }

  // ---- The fixpoint ----

  lemma {:induction false} SingleRounds(defs: seq<Definition>, rounds: seq<Round>, k: nat)
    requires AreRetries(Single, defs, rounds) && k <= |rounds| && defs[0].maxParallelStages == 0
    ensures SameSteps(Provisioning(defs[k].stages), Provisioning(defs[0].stages)) && defs[k].maxParallelStages == 0
  {
    if k > 0 {
      var round, kept := rounds[k - 1], Provisioning(defs[k - 1].stages);
      SingleRounds(defs, rounds, k - 1);
      CleanupsAreCleanups(round.targets);
      ProvisioningBehind(CleanupStages(round.targets), round.provision);
      assert SameSteps(round.provision, kept);
      ProvisioningSteps(round.provision, kept);
      ProvisioningIdempotent(defs[k - 1].stages);
    }
  }

  /** Repeated retries reach a fixpoint at once. Whatever the first recreation changes in the
      placement, every later one with that placement has the same provisioning stages with the
      same dependencies, and runs as many lanes, whatever each of them cleans up and rewrites. */
  lemma RetryFixpoint(mode: Mode, def: Definition, cleanups: nat, starts: seq<nat>, first: Round, defs: seq<Definition>, rounds: seq<Round>, k: nat)
    requires ClusterPipeline(mode, def, cleanups, starts)
    requires Rebuilds(mode, Provisioning(def.stages), first.provision) && DistinctTargets(first.targets)
    requires AreRetries(mode, defs, rounds) && defs[0] == AfterRound(mode, def, first) && k <= |rounds|
    ensures SameSteps(Provisioning(defs[k].stages), Provisioning(defs[0].stages))
    ensures defs[k].maxParallelStages == defs[0].maxParallelStages
  {
    if mode.Single? {
      SingleRounds(defs, rounds, k);
    } else {
      var starts' := ProvisionLayout(mode.members, def, cleanups, starts, first.provision);
      MultiRound(mode.members, first.provision, starts', first.targets, def.result);
      OneRoundSettles(mode.members, first.provision, starts');
      MultiRounds(mode.members, defs[0].maxParallelStages, starts', Provisioning(defs[0].stages), defs, rounds, k);
    }
  }

  /** With nothing rewritten, even the stages themselves are the same. */
  lemma UnchangedRetry(mode: Mode, def: Definition, cleanups: nat, starts: seq<nat>, first: Round, targets: seq<Target>)
    requires ClusterPipeline(mode, def, cleanups, starts)
    requires Rebuilds(mode, Provisioning(def.stages), first.provision) && DistinctTargets(first.targets) && DistinctTargets(targets)
    ensures var once := AfterRound(mode, def, first);
      Provisioning(AfterRound(mode, once, Round(targets, Provisioning(once.stages))).stages) == Provisioning(once.stages)
  {
    var once := AfterRound(mode, def, first);
    if mode.Single? {
      CleanupsAreCleanups(targets);
      ProvisioningBehind(CleanupStages(targets), Provisioning(once.stages));
      ProvisioningIdempotent(once.stages);
    } else {
      var starts' := ProvisionLayout(mode.members, def, cleanups, starts, first.provision);
      MultiRound(mode.members, first.provision, starts', first.targets, def.result);
      OneRoundSettles(mode.members, first.provision, starts');
      MultiRound(mode.members, Provisioning(once.stages), starts', targets, once.result);
    }
  }
}
