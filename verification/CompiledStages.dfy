/** What a compiled experiment pipeline holds, told by the request, the configuration and the
    plugins alone: the specs of its stages, their places and the result. */
module CompiledStages {
  import opened Contracts
  import opened Experiment
  import opened ExperimentPipeline
  import opened ExperimentOrder
  import opened Pipelines
  import opened Text

  // ---- Specs ----

  /** The value of a declared input: the application; nothing, if an earlier stage delivers the
      artifact; and otherwise the artifact of the cluster. */
  predicate Delivered(r: Request, property: Property, name: string, stage: Stage) {
    && name in stage.spec.fields
    && match property
       case Plain => true
       case ApplicationRef => stage.spec.fields[name] == r.applicationRef
       case ArtifactRef(c) =>
         if exists b :: b in stage.bindings && b.path == "/" + name then stage.spec.fields[name] == ""
         else if c == Contract("ClusterConnection", "v1alpha1") then stage.spec.fields[name] == r.connection
         else if c == Contract("ObservabilityCapability", "v1alpha1") then stage.spec.fields[name] == r.observability
         else c == Contract("ManagedPlatformCapability", "v1alpha1") && r.platform == Some(stage.spec.fields[name])
  }

  lemma NoNul(c: Contract)
    requires c == CONNECTION || c == OBSERVABILITY || c == PLATFORM
    ensures NUL !in c.artifactType && NUL !in c.version
  {
  }

  /** What exists before the pipeline runs, and under which contract. */
  lemma ExternalsMeaning(registry: Registry, components: seq<Component>, r: Request, c: Contract)
    requires Installed(registry, components)
    ensures ContractKey(c) in Externals(registry, components, r) ==>
              var id := Externals(registry, components, r)[ContractKey(c)];
              if c == Contract("ClusterConnection", "v1alpha1") then id == r.connection
              else if c == Contract("ObservabilityCapability", "v1alpha1") then id == r.observability
              else c == Contract("ManagedPlatformCapability", "v1alpha1") && r.platform == Some(id) && NeedsPlatform(registry, components)
  {
    KeyIs(c, CONNECTION);
    KeyIs(c, OBSERVABILITY);
    KeyIs(c, PLATFORM);
    KeyIs(CONNECTION, OBSERVABILITY);
    KeyIs(CONNECTION, PLATFORM);
    KeyIs(OBSERVABILITY, PLATFORM);
  }

  lemma KeyIs(c: Contract, known: Contract)
    requires known == CONNECTION || known == OBSERVABILITY || known == PLATFORM
    ensures ContractKey(c) == ContractKey(known) ==> c == known
  {
    NoNul(known);
    if ContractKey(c) == ContractKey(known) {
      OutputKeyInjective(c, known);
    }
  }

  /** The spec of a stage holds what it was given under every name that its plugin does not
      declare as an input, the inputs with their values, and nothing else. */
  ghost predicate Holds(registry: Registry, r: Request, given: map<string, string>, stage: Stage) {
    && stage.pluginId in registry && registry[stage.pluginId].schema.Some? && stage.spec == Spec(None, None, stage.spec.fields)
    && var properties := registry[stage.pluginId].schema.value;
       forall name ::
         if name in properties && properties[name] != Plain then Delivered(r, properties[name], name, stage)
         else (name in stage.spec.fields <==> name in given) && (name in given ==> stage.spec.fields[name] == given[name])
  }

  lemma MadeHolds(registry: Registry, components: seq<Component>, r: Request, title: string, given: map<string, string>, stage: Stage)
    requires Installed(registry, components) && Made(registry, Externals(registry, components, r), r.applicationRef, title, given, stage)
    ensures Holds(registry, r, given, stage)
  {
    var properties := registry[stage.pluginId].schema.value;
    forall name | name in properties && properties[name] != Plain ensures Delivered(r, properties[name], name, stage) {
      assert InputValue(Externals(registry, components, r), r.applicationRef, properties[name], name, stage);
      if properties[name].ArtifactRef? {
        ExternalsMeaning(registry, components, r, properties[name].contract);
      }
    }
  }

  /** The fixed stages get the settings that the request holds for them. */
  lemma FixedSpecs(registry: Registry, components: seq<Component>, r: Request, def: Definition, p: nat)
    requires Installed(registry, components) && Compiled(registry, components, r, def) && p < |def.stages|
    ensures def.stages[p].id == "application" ==> def.stages[p] == Stage("application", r.inspect.id, "Prepare application package", Spec(None, None, r.inspectSpec), [], [])
    ensures def.stages[p].id == "prepare" ==> Holds(registry, r, r.prepareSpec, def.stages[p])
    ensures def.stages[p].id == "deploy" ==> Holds(registry, r, r.deploySpec, def.stages[p])
  {
    assert SpecAsPlanned(registry, components, r, def.stages[p]);
    if def.stages[p].id == "prepare" {
      MadeHolds(registry, components, r, "Prepare isolated application namespace", r.prepareSpec, def.stages[p]);
    } else if def.stages[p].id == "deploy" {
      MadeHolds(registry, components, r, "Deploy isolated application", r.deploySpec, def.stages[p]);
    }
  }

  /** The capability stage of a component holds its configuration, and for a load whether the
      network is recorded. */
  lemma CapabilityHolds(registry: Registry, components: seq<Component>, r: Request, def: Definition, i: nat, p: nat) returns (given: map<string, string>)
    requires Installed(registry, components) && Compiled(registry, components, r, def) && i < |components|
    requires p < |def.stages| && def.stages[p].id == "capability-" + Decimal(i + 1)
    ensures def.stages[p].title == components[i].capability && components[i].configuration.Some?
    ensures given == Given(components[i], r.timeline) && Holds(registry, r, given, def.stages[p])
  {
    var stage, externals := def.stages[p], Externals(registry, components, r);
    assert SpecAsPlanned(registry, components, r, stage) && stage.id == CapabilityId(i);
    assert CapabilityMade(registry, externals, r.applicationRef, components[i], r.timeline, stage);
    given := GivenTo(registry, externals, r.applicationRef, components[i], r.timeline, stage);
    MadeHolds(registry, components, r, components[i].capability, given, stage);
  }

  lemma GivenTo(registry: Registry, externals: map<string, string>, applicationRef: string, component: Component, timeline: bool, stage: Stage)
    returns (given: map<string, string>)
    requires CapabilityMade(registry, externals, applicationRef, component, timeline, stage)
    ensures component.configuration.Some? && Made(registry, externals, applicationRef, component.capability, given, stage)
    ensures given == Given(component, timeline)
  {
    given :| IsConfiguration(component, timeline, given) && Made(registry, externals, applicationRef, component.capability, given, stage);
    assert given.Keys == Given(component, timeline).Keys;
  }

  /** The configuration of a component, and for a load whether the network is recorded. */
  function Given(component: Component, timeline: bool): map<string, string>
    requires component.configuration.Some?
  {
    if component.capability == "load.session.control" && timeline
    then component.configuration.value["networkTimeline" := "true"] else component.configuration.value
  }

  /** The targets stage of a component asks for the trait that the component's plugin requires. */
  lemma TargetsHold(registry: Registry, components: seq<Component>, r: Request, def: Definition, i: nat, p: nat)
    requires Installed(registry, components) && Compiled(registry, components, r, def) && i < |components|
    requires p < |def.stages| && def.stages[p].id == "targets-" + Decimal(i + 1)
    ensures def.stages[p].title == "Select targets for " + components[i].id
    ensures Holds(registry, r, map["requiredTrait" := registry[components[i].pluginId].requiredTrait], def.stages[p])
  {
    var stage := def.stages[p];
    assert SpecAsPlanned(registry, components, r, stage) && stage.id == TargetsId(i);
    MadeHolds(registry, components, r, stage.title, map["requiredTrait" := registry[components[i].pluginId].requiredTrait], stage);
  }

  // ---- Places and result ----

  predicate Deschedules(m: Manifest) {
    "descheduler.kubernetes.install" in m.capabilities
  }

  /** The plugin creates load or collects metrics, and is no descheduler. */
  predicate Measures(m: Manifest) {
    !Deschedules(m) && ("load.session.control" in m.capabilities || "metrics.timeseries.collect" in m.capabilities)
  }

  /** The component is done before the deployment, or behind it as one that evicts, or behind
      those as one that measures. */
  function Turn(registry: Registry, component: Component): nat
    requires component.pluginId in registry
  {
    if Deschedules(registry[component.pluginId]) then 1 else if Measures(registry[component.pluginId]) then 2 else 0
  }

  /** Where the stages of the components are: in front of the deployment exactly if they neither
      evict nor measure, by turn, and in configured order within a turn. */
  lemma ComponentTurns(registry: Registry, components: seq<Component>, r: Request, def: Definition, i: nat, j: nat, p: nat, q: nat, d: nat)
    requires Installed(registry, components) && Compiled(registry, components, r, def) && i < |components| && j < |components|
    requires p < |def.stages| && def.stages[p].id == "capability-" + Decimal(i + 1)
    requires q < |def.stages| && def.stages[q].id == "capability-" + Decimal(j + 1)
    requires d < |def.stages| && def.stages[d].id == "deploy"
    ensures p < d <==> Turn(registry, components[i]) == 0
    ensures var a, b := Turn(registry, components[i]), Turn(registry, components[j]); a < b || (a == b && i < j) ==> p < q
  {
    assert StageIds(def.stages)[p] == CapabilityId(i) && StageIds(def.stages)[q] == CapabilityId(j);
    assert IsAt(registry, components, i, p) && IsAt(registry, components, j, q);
    PlaceUnique(registry, components, i);
    DeployRuns(registry, components, r, def);
    ProducersUnique(registry, components, r, def, d, DeployPosition(registry, components));
    if RunsBefore(registry, components, i, j) {
      ComponentsInOrder(registry, components, i, j, p, q);
    }
  }

  /** The component comes no later than `j`. */
  predicate NoLater(registry: Registry, components: seq<Component>, i: nat, j: nat)
    requires Installed(registry, components) && i < |components| && j < |components|
  {
    i == j || RunsBefore(registry, components, i, j)
  }

  predicate Single(registry: Registry, components: seq<Component>, i: nat)
    requires Installed(registry, components) && i < |components|
  {
    |registry[components[i].pluginId].outputs| == 1
  }

  /** The last component of a group with a single output makes it the result. */
  lemma {:induction false} ResultOfGroup(registry: Registry, components: seq<Component>, indices: seq<nat>, before: Option<Output>) returns (k: nat)
    requires Installed(registry, components) && Indices(components, indices)
    ensures k < |indices| ==>
              && Single(registry, components, indices[k])
              && ResultOf(registry, components, indices, before) == Some(ResultOutput(CapabilityId(indices[k]), registry[components[indices[k]].pluginId].outputs[0]))
              && forall l :: k < l < |indices| ==> !Single(registry, components, indices[l])
    ensures k >= |indices| ==> ResultOf(registry, components, indices, before) == before && forall l :: 0 <= l < |indices| ==> !Single(registry, components, indices[l])
  {
    if indices == [] {
      k := 0;
    } else {
      var n := |indices| - 1;
      if Single(registry, components, indices[n]) {
        k := n;
      } else {
        var before' := ResultOfGroup(registry, components, indices[..n], before);
        k := if before' < n then before' else |indices|;
        assert forall l :: 0 <= l < n ==> indices[..n][l] == indices[l];
      }
    }
  }

  /** `result` is the output of the last component with a single output among those up to a
      phase, or nothing. */
  ghost predicate LastSingle(registry: Registry, components: seq<Component>, rank: nat, result: Option<Output>)
    requires Installed(registry, components)
  {
    || (result == None && forall j: nat :: j < |components| && Rank(PhaseAt(registry, components, j)) <= rank ==> !Single(registry, components, j))
    || exists i: nat :: i < |components| && IsLastSingle(registry, components, rank, i)
                        && result == Some(ResultOutput(CapabilityId(i), registry[components[i].pluginId].outputs[0]))
  }

  ghost predicate IsLastSingle(registry: Registry, components: seq<Component>, rank: nat, i: nat)
    requires Installed(registry, components) && i < |components|
  {
    && Single(registry, components, i) && Rank(PhaseAt(registry, components, i)) <= rank
    && forall j: nat :: j < |components| && Single(registry, components, j) && Rank(PhaseAt(registry, components, j)) <= rank ==> NoLater(registry, components, j, i)
  }

  lemma InGroup(registry: Registry, components: seq<Component>, phase: Phase, j: nat) returns (l: nat)
    requires Installed(registry, components) && j < |components| && PhaseAt(registry, components, j) == phase
    ensures l < |AllGroup(registry, components, phase)| && AllGroup(registry, components, phase)[l] == j
  {
    GroupMeaning(registry, components, phase, |components|);
    assert InPhase(registry, components, phase, j);
    l :| 0 <= l < |AllGroup(registry, components, phase)| && AllGroup(registry, components, phase)[l] == j;
  }

  lemma OfGroup(registry: Registry, components: seq<Component>, phase: Phase, k: nat)
    requires Installed(registry, components) && k < |AllGroup(registry, components, phase)|
    ensures var i := AllGroup(registry, components, phase)[k]; i < |components| && PhaseAt(registry, components, i) == phase
  {
    GroupMeaning(registry, components, phase, |components|);
    assert AllGroup(registry, components, phase)[k] in AllGroup(registry, components, phase);
  }

  lemma LastInGroup(registry: Registry, components: seq<Component>, phase: Phase, k: nat)
    requires Installed(registry, components) && k < |AllGroup(registry, components, phase)|
    requires Single(registry, components, AllGroup(registry, components, phase)[k])
    requires forall l :: k < l < |AllGroup(registry, components, phase)| ==> !Single(registry, components, AllGroup(registry, components, phase)[l])
    ensures IsLastSingle(registry, components, Rank(phase), AllGroup(registry, components, phase)[k])
  {
    var group := AllGroup(registry, components, phase);
    OfGroup(registry, components, phase, k);
    GroupMeaning(registry, components, phase, |components|);
    forall j: nat | j < |components| && Single(registry, components, j) && Rank(PhaseAt(registry, components, j)) <= Rank(phase)
      ensures NoLater(registry, components, j, group[k])
    {
      if PhaseAt(registry, components, j) == phase {
        var l := InGroup(registry, components, phase, j);
        assert l <= k && (l < k ==> group[l] < group[k]);
      }
    }
  }

  lemma ResultAfterGroup(registry: Registry, components: seq<Component>, phase: Phase, before: Option<Output>)
    requires Installed(registry, components)
    requires if Rank(phase) == 0 then before == None else LastSingle(registry, components, Rank(phase) - 1, before)
    ensures LastSingle(registry, components, Rank(phase), ResultOf(registry, components, AllGroup(registry, components, phase), before))
  {
    var group := AllGroup(registry, components, phase);
    var k := ResultOfGroup(registry, components, group, before);
    if k < |group| {
      LastInGroup(registry, components, phase, k);
    } else {
      forall j: nat | j < |components| && PhaseAt(registry, components, j) == phase ensures !Single(registry, components, j) {
        var l := InGroup(registry, components, phase, j);
      }
      if Rank(phase) > 0 && before.Some? {
        var i: nat :| i < |components| && IsLastSingle(registry, components, Rank(phase) - 1, i)
                      && before == Some(ResultOutput(CapabilityId(i), registry[components[i].pluginId].outputs[0]));
        assert IsLastSingle(registry, components, Rank(phase), i);
      }
    }
  }

  lemma FinalResultMeaning(registry: Registry, components: seq<Component>)
    requires Installed(registry, components)
    ensures LastSingle(registry, components, 2, FinalResult(registry, components))
  {
    var first := ResultOf(registry, components, AllGroup(registry, components, Setup), None);
    var second := ResultOf(registry, components, AllGroup(registry, components, Deschedulers), first);
    ResultAfterGroup(registry, components, Setup, None);
    ResultAfterGroup(registry, components, Deschedulers, first);
    ResultAfterGroup(registry, components, PostDeploy, second);
  }

  /** The result of a compiled pipeline is the only output of the last capability stage whose
      plugin has a single one. */
  lemma ResultStage(registry: Registry, components: seq<Component>, r: Request, def: Definition) returns (i: nat, p: nat)
    requires Installed(registry, components) && Compiled(registry, components, r, def)
    ensures i < |components| && |registry[components[i].pluginId].outputs| == 1
    ensures p < |def.stages| && def.stages[p].id == "capability-" + Decimal(i + 1)
    ensures var output := registry[components[i].pluginId].outputs[0];
      def.result == Output("capability-" + Decimal(i + 1), "", output.artifactType, output.version)
    ensures forall j: nat, q: nat ::
              j < |components| && |registry[components[j].pluginId].outputs| == 1 && q < |def.stages| && def.stages[q].id == CapabilityId(j) ==> q <= p
  {
    FinalResultMeaning(registry, components);
    i :| i < |components| && IsLastSingle(registry, components, 2, i)
         && def.result == ResultOutput(CapabilityId(i), registry[components[i].pluginId].outputs[0]);
    p := EachComponentOnce(registry, components, r, def, i);
    CapabilityRuns(registry, components, r, def, i, p);
    forall j: nat, q: nat | j < |components| && Single(registry, components, j) && q < |def.stages| && def.stages[q].id == CapabilityId(j) ensures q <= p {
      NoLaterStage(registry, components, r, def, i, j, p, q);
    }
  }

  lemma NoLaterStage(registry: Registry, components: seq<Component>, r: Request, def: Definition, i: nat, j: nat, p: nat, q: nat)
    requires Installed(registry, components) && Compiled(registry, components, r, def) && i < |components| && j < |components|
    requires NoLater(registry, components, j, i) && IsAt(registry, components, i, p)
    requires q < |def.stages| && def.stages[q].id == CapabilityId(j)
    ensures q <= p
  {
    assert StageIds(def.stages)[q] == CapabilityId(j);
    assert IsAt(registry, components, j, q);
    if j == i {
      PlaceUnique(registry, components, i);
    } else {
      ComponentsInOrder(registry, components, j, i, q, p);
    }
  }

  /** Something can be the result exactly if some plugin has a single output. */
  lemma ResultExists(registry: Registry, components: seq<Component>)
    requires Installed(registry, components)
    ensures FinalResult(registry, components).Some? <==> exists i :: 0 <= i < |components| && |registry[components[i].pluginId].outputs| == 1
  {
    FinalResultMeaning(registry, components);
    if i :| 0 <= i < |components| && |registry[components[i].pluginId].outputs| == 1 {
      assert Single(registry, components, i);
    }
  }

  // ---- Targets stages ----

  /** The plugin takes a target binding. */
  predicate Targeted(registry: Registry, components: seq<Component>, i: nat)
    requires Installed(registry, components) && i < |components|
  {
    Contract("TargetBinding", "v1alpha1") in registry[components[i].pluginId].inputs
  }

  lemma {:induction false} TargetsInGroup(registry: Registry, components: seq<Component>, indices: seq<nat>, k: nat)
    requires Installed(registry, components) && Indices(components, indices) && k < |indices| && Targeted(registry, components, indices[k])
    ensures 1 <= PlaceIn(registry, components, indices, k) < |Expanded(registry, components, indices)|
    ensures Expanded(registry, components, indices)[PlaceIn(registry, components, indices, k) - 1] == TargetsId(indices[k])
  {
    var n := |indices| - 1;
    if k == n {
      assert indices[..k + 1] == indices;
    } else {
      TargetsInGroup(registry, components, indices[..n], k);
      assert indices[..n][..k + 1] == indices[..k + 1];
    }
  }

  lemma {:induction false} OnlyTargeted(registry: Registry, components: seq<Component>, indices: seq<nat>, i: nat)
    requires Installed(registry, components) && Indices(components, indices) && i < |components|
    requires TargetsId(i) in Expanded(registry, components, indices)
    ensures Targeted(registry, components, i)
  {
    var n := |indices| - 1;
    if TargetsId(i) in Expanded(registry, components, indices[..n]) {
      OnlyTargeted(registry, components, indices[..n], i);
    } else {
      assert CapabilityId(indices[n])[0] == 'c' && TargetsId(i)[0] == 't';
      TargetsIdInjective(i, indices[n]);
    }
  }

  lemma LayoutTargeted(registry: Registry, components: seq<Component>, i: nat)
    requires Installed(registry, components) && i < |components| && TargetsId(i) in Layout(registry, components)
    ensures Targeted(registry, components, i)
  {
    var id := TargetsId(i);
    assert APPLICATION[0] == 'a' && PREPARE[0] == 'p' && DEPLOY[0] == 'd' && id[0] == 't';
    if id in GroupNames(registry, components, Setup) {
      OnlyTargeted(registry, components, AllGroup(registry, components, Setup), i);
    } else if id in GroupNames(registry, components, Deschedulers) {
      OnlyTargeted(registry, components, AllGroup(registry, components, Deschedulers), i);
    } else {
      OnlyTargeted(registry, components, AllGroup(registry, components, PostDeploy), i);
    }
  }

  lemma LayoutTargets(registry: Registry, components: seq<Component>, i: nat) returns (p: nat)
    requires Installed(registry, components) && i < |components| && Targeted(registry, components, i)
    ensures 0 < p < |Layout(registry, components)|
    ensures Layout(registry, components)[p] == CapabilityId(i) && Layout(registry, components)[p - 1] == TargetsId(i)
  {
    var phase, k;
    phase := PhaseAt(registry, components, i);
    p, k := ComponentPlace(registry, components, i);
    var group := AllGroup(registry, components, phase);
    TargetsInGroup(registry, components, group, k);
    LayoutSegment(registry, components, phase, PlaceIn(registry, components, group, k) - 1);
  }

  /** A component whose plugin takes a target binding has a targets stage directly in front of
      its capability stage... */
  lemma TargetsInFront(registry: Registry, components: seq<Component>, r: Request, def: Definition, i: nat, p: nat)
    requires Installed(registry, components) && Compiled(registry, components, r, def) && i < |components| && Targeted(registry, components, i)
    requires p < |def.stages| && def.stages[p].id == "capability-" + Decimal(i + 1)
    ensures p > 0 && def.stages[p - 1].id == "targets-" + Decimal(i + 1)
  {
    var ids := StageIds(def.stages);
    var q := LayoutTargets(registry, components, i);
    assert ids[q] == def.stages[q].id && ids[q - 1] == def.stages[q - 1].id;
    ProducersUnique(registry, components, r, def, p, q);
  }

  /** ...and no other component has one. */
  lemma TargetsOnlyThere(registry: Registry, components: seq<Component>, r: Request, def: Definition, i: nat, q: nat)
    requires Installed(registry, components) && Compiled(registry, components, r, def) && i < |components|
    requires q < |def.stages| && def.stages[q].id == "targets-" + Decimal(i + 1)
    ensures Targeted(registry, components, i)
  {
    assert StageIds(def.stages)[q] == TargetsId(i);
    LayoutTargeted(registry, components, i);
  }

  /** The pipeline begins with the application and the namespace. */
  lemma FirstStages(registry: Registry, components: seq<Component>, r: Request, def: Definition)
    requires Installed(registry, components) && Compiled(registry, components, r, def)
    ensures |def.stages| >= 3 && def.stages[0].id == "application" && def.stages[1].id == "prepare" && def.maxParallelStages == 0
  {
    LayoutPrefixes(registry, components);
    var ids := StageIds(def.stages);
    assert ids[0] == APPLICATION && ids[1] == PREPARE;
  }
}
