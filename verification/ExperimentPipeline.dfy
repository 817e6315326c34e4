/** Experiment pipelines as a whole: the order of their stages, the stage at which a
    two-phase start pauses, and what every compiled pipeline guarantees. */
module ExperimentPipeline {
  import opened Contracts
  import opened Experiment
  import opened Pipelines
  import opened Text

  // ---- Phases ----

  datatype Phase = Setup | Deschedulers | PostDeploy

  function PhaseOf(m: Manifest): Phase {
    if DESCHEDULER in m.capabilities then Deschedulers
    else if LOAD in m.capabilities || METRICS in m.capabilities then PostDeploy
    else Setup
  }

  predicate Installed(registry: Registry, components: seq<Component>) {
    forall i :: 0 <= i < |components| ==> components[i].pluginId in registry
  }

  predicate InPhase(registry: Registry, components: seq<Component>, phase: Phase, i: nat)
    requires Installed(registry, components)
  {
    i < |components| && PhaseOf(registry[components[i].pluginId]) == phase
  }

  /** The components below `n` that belong to a phase, in their configured order. */
  function Group(registry: Registry, components: seq<Component>, phase: Phase, n: nat): seq<nat>
    requires Installed(registry, components) && n <= |components|
  {
    if n == 0 then []
    else Group(registry, components, phase, n - 1) + if InPhase(registry, components, phase, n - 1) then [n - 1] else []
  }

  predicate Ascending(indices: seq<nat>) {
    forall a, b :: 0 <= a < b < |indices| ==> indices[a] < indices[b]
  }

  lemma {:induction false} GroupMeaning(registry: Registry, components: seq<Component>, phase: Phase, n: nat)
    requires Installed(registry, components) && n <= |components|
    ensures forall i: nat :: i in Group(registry, components, phase, n) <==> i < n && InPhase(registry, components, phase, i)
    ensures Ascending(Group(registry, components, phase, n))
  {
    if n > 0 {
      GroupMeaning(registry, components, phase, n - 1);
      var rest := Group(registry, components, phase, n - 1);
      forall k | 0 <= k < |rest| ensures rest[k] < n - 1 {
        assert rest[k] in rest;
      }
    }
  }

  /** The loop that sorts the components into phases. */
  method Classify(registry: Registry, components: seq<Component>) returns (setup: seq<nat>, deschedulers: seq<nat>, postDeploy: seq<nat>)
    requires Installed(registry, components)
    ensures setup == Group(registry, components, Setup, |components|)
    ensures deschedulers == Group(registry, components, Deschedulers, |components|)
    ensures postDeploy == Group(registry, components, PostDeploy, |components|)
  {
    setup, deschedulers, postDeploy := [], [], [];
    for index := 0 to |components|
      invariant setup == Group(registry, components, Setup, index)
      invariant deschedulers == Group(registry, components, Deschedulers, index)
      invariant postDeploy == Group(registry, components, PostDeploy, index)
    {
      var manifest := registry[components[index].pluginId];
      if DESCHEDULER in manifest.capabilities {
        deschedulers := deschedulers + [index];
      } else if LOAD in manifest.capabilities || METRICS in manifest.capabilities {
        postDeploy := postDeploy + [index];
      } else {
        setup := setup + [index];
      }
    }
  }

  // ---- The names of the stages ----

  predicate Indices(components: seq<Component>, indices: seq<nat>) {
    forall k :: 0 <= k < |indices| ==> indices[k] < |components|
  }

  function Expanded(registry: Registry, components: seq<Component>, indices: seq<nat>): seq<string>
    requires Installed(registry, components) && Indices(components, indices)
  {
    if indices == [] then []
    else
      var n := |indices| - 1;
      Expanded(registry, components, indices[..n]) + NamesOf(registry, components[indices[n]], indices[n])
  }

  function GroupNames(registry: Registry, components: seq<Component>, phase: Phase): seq<string>
    requires Installed(registry, components)
  {
    GroupMeaning(registry, components, phase, |components|);
    var group := Group(registry, components, phase, |components|);
    assert forall k :: 0 <= k < |group| ==> group[k] in group;
    Expanded(registry, components, group)
  }

  /** The stages of an experiment pipeline, in order. */
  function Layout(registry: Registry, components: seq<Component>): seq<string>
    requires Installed(registry, components)
  {
    [APPLICATION, PREPARE] + GroupNames(registry, components, Setup)
    + [DEPLOY] + GroupNames(registry, components, Deschedulers) + GroupNames(registry, components, PostDeploy)
  }

  /** The result after appending the components of `indices`. */
  function ResultOf(registry: Registry, components: seq<Component>, indices: seq<nat>, before: Option<Output>): Option<Output>
    requires Installed(registry, components) && Indices(components, indices)
  {
    if indices == [] then before
    else
      var n := |indices| - 1;
      ResultAfter(registry[components[indices[n]].pluginId], indices[n], ResultOf(registry, components, indices[..n], before))
  }

  // ---- What the compiler is given ----

  /** What the compiler is given besides the components: the plugins it selected by
      capability, the artifacts of the cluster and the settings of the fixed stages. */
  datatype Request = Request(
    inspect: Manifest,
    deploy: Manifest,
    binding: Manifest,
    applicationRef: string,
    connection: string,
    observability: string,
    platform: Option<string>,
    inspectSpec: map<string, string>,
    prepareSpec: map<string, string>,
    deploySpec: map<string, string>,
    timeline: bool)

  predicate IsInstalled(registry: Registry, m: Manifest) {
    m.id in registry && registry[m.id] == m
  }

  predicate IsRequest(registry: Registry, r: Request) {
    && IsRegistry(registry) && IsInstalled(registry, r.inspect) && IsInstalled(registry, r.deploy) && IsInstalled(registry, r.binding)
    && r.connection != "" && r.observability != "" && (r.platform.Some? ==> r.platform.value != "")
  }

  predicate NeedsPlatform(registry: Registry, components: seq<Component>)
    requires Installed(registry, components)
  {
    exists i :: 0 <= i < |components| && Needs(registry[components[i].pluginId], PLATFORM)
  }

  /** The artifacts that exist before the pipeline runs. */
  function Externals(registry: Registry, components: seq<Component>, r: Request): map<string, string>
    requires Installed(registry, components)
  {
    var basic := map[ContractKey(CONNECTION) := r.connection, ContractKey(OBSERVABILITY) := r.observability];
    if NeedsPlatform(registry, components) && r.platform.Some? then basic[ContractKey(PLATFORM) := r.platform.value] else basic
  }

  /** The first loop over the components. */
  method CheckComponents(registry: Registry, components: seq<Component>, r: Request) returns (failure: Option<Failure>)
    ensures failure.None? <==> Installed(registry, components) && (NeedsPlatform(registry, components) ==> r.platform.Some?)
    ensures failure == Some(PluginChanged) ==> !Installed(registry, components)
  {
    for i := 0 to |components|
      invariant forall k :: 0 <= k < i ==> components[k].pluginId in registry
      invariant (exists k :: 0 <= k < i && Needs(registry[components[k].pluginId], PLATFORM)) ==> r.platform.Some?
    {
      if components[i].pluginId !in registry {
        return Some(PluginChanged);
      }
      if Needs(registry[components[i].pluginId], PLATFORM) && r.platform.None? {
        return Some(PlatformInvalid);
      }
    }
    return None;
  }

  // ---- The layout ----

  function DeployPosition(registry: Registry, components: seq<Component>): nat
    requires Installed(registry, components)
  {
    2 + |GroupNames(registry, components, Setup)|
  }

  function AllGroup(registry: Registry, components: seq<Component>, phase: Phase): (group: seq<nat>)
    requires Installed(registry, components)
    ensures Indices(components, group)
  {
    var group := Group(registry, components, phase, |components|);
    GroupMeaning(registry, components, phase, |components|);
    assert forall k :: 0 <= k < |group| ==> group[k] in group;
    group
  }

  /** The last component with exactly one output, in the order of the stages. */
  function FinalResult(registry: Registry, components: seq<Component>): Option<Output>
    requires Installed(registry, components)
  {
    var first := ResultOf(registry, components, AllGroup(registry, components, Setup), None);
    var second := ResultOf(registry, components, AllGroup(registry, components, Deschedulers), first);
    ResultOf(registry, components, AllGroup(registry, components, PostDeploy), second)
  }

  /** Stages of components have their own names. */
  lemma {:induction false} ExpandedInitials(registry: Registry, components: seq<Component>, indices: seq<nat>)
    requires Installed(registry, components) && Indices(components, indices)
    ensures forall x :: x in Expanded(registry, components, indices) ==> x != [] && (x[0] == 't' || x[0] == 'c')
  {
    if indices != [] {
      ExpandedInitials(registry, components, indices[..|indices| - 1]);
    }
  }

  lemma {:induction false} ExpandedPrefix(registry: Registry, components: seq<Component>, indices: seq<nat>, k: nat)
    requires Installed(registry, components) && Indices(components, indices) && k <= |indices|
    ensures Expanded(registry, components, indices[..k]) <= Expanded(registry, components, indices)
  {
    if k < |indices| {
      assert indices[..|indices| - 1][..k] == indices[..k];
      ExpandedPrefix(registry, components, indices[..|indices| - 1], k);
    } else {
      assert indices[..k] == indices;
    }
  }

  /** The stages up to the deployment, and up to the last descheduler. */
  function BeforeDeploy(registry: Registry, components: seq<Component>): seq<string>
    requires Installed(registry, components)
  {
    [APPLICATION, PREPARE] + GroupNames(registry, components, Setup)
  }

  function BeforeLoad(registry: Registry, components: seq<Component>): seq<string>
    requires Installed(registry, components)
  {
    BeforeDeploy(registry, components) + [DEPLOY] + GroupNames(registry, components, Deschedulers)
  }

  lemma LayoutPrefixes(registry: Registry, components: seq<Component>)
    requires Installed(registry, components)
    ensures [APPLICATION, PREPARE] <= Layout(registry, components) && BeforeDeploy(registry, components) <= Layout(registry, components)
    ensures BeforeDeploy(registry, components) + [DEPLOY] <= Layout(registry, components)
    ensures BeforeLoad(registry, components) <= Layout(registry, components)
    ensures BeforeLoad(registry, components) + GroupNames(registry, components, PostDeploy) == Layout(registry, components)
  {
  }

  // ---- Which plugin a stage runs ----

  /** The stage named `id` is to run this plugin. */
  ghost predicate PluginOf(components: seq<Component>, r: Request, id: string, pluginId: string) {
    || (id == APPLICATION && pluginId == r.inspect.id)
    || ((id == PREPARE || id == DEPLOY) && pluginId == r.deploy.id)
    || (exists index: nat :: id == TargetsId(index) && pluginId == r.binding.id)
    || (exists index: nat :: index < |components| && id == CapabilityId(index) && pluginId == components[index].pluginId)
  }

  lemma PluginUnique(components: seq<Component>, r: Request, id: string, p: string, q: string)
    requires PluginOf(components, r, id, p) && PluginOf(components, r, id, q)
    ensures p == q
  {
    assert APPLICATION[0] == 'a' && PREPARE[0] == 'p' && DEPLOY[0] == 'd';
    if i: nat, j: nat :| id == CapabilityId(i) && id == CapabilityId(j) && i < |components| && j < |components|
                         && p == components[i].pluginId && q == components[j].pluginId {
      CapabilityIdInjective(i, j);
    }
  }

  /** The stage runs the plugin it is to run, and takes its target binding from its own targets stage. */
  ghost predicate StageAsPlanned(registry: Registry, components: seq<Component>, r: Request, stage: Stage) {
    && PluginOf(components, r, stage.id, stage.pluginId)
    && (TARGETS in r.binding.outputs ==> forall index: nat :: stage.id == CapabilityId(index) ==> OwnTargets(registry, stage, index))
  }

  ghost predicate AsPlanned(registry: Registry, components: seq<Component>, r: Request, stages: seq<Stage>) {
    forall i: nat :: i < |stages| ==> StageAsPlanned(registry, components, r, stages[i])
  }

  lemma TargetsAsPlanned(registry: Registry, components: seq<Component>, r: Request, stage: Stage, index: nat)
    requires stage.id == TargetsId(index) && stage.pluginId == r.binding.id
    ensures StageAsPlanned(registry, components, r, stage)
  {
  }

  lemma CapabilityAsPlanned(registry: Registry, components: seq<Component>, r: Request, stage: Stage, index: nat)
    requires index < |components| && stage.id == CapabilityId(index) && stage.pluginId == components[index].pluginId
    requires TARGETS in r.binding.outputs ==> OwnTargets(registry, stage, index)
    ensures StageAsPlanned(registry, components, r, stage)
  {
    forall other: nat | stage.id == CapabilityId(other) ensures other == index {
      CapabilityIdInjective(index, other);
    }
  }

  lemma ComponentAsPlanned(registry: Registry, components: seq<Component>, r: Request, before: State, after: State, index: nat)
    requires index < |components| && components[index].pluginId in registry
    requires ComponentStep(registry, before, after, components[index], index, r.binding)
    requires AsPlanned(registry, components, r, before.stages)
    ensures AsPlanned(registry, components, r, after.stages)
  {
    forall i: nat | i < |after.stages| ensures StageAsPlanned(registry, components, r, after.stages[i]) {
      if i < |before.stages| {
        assert after.stages[i] == before.stages[i];
      } else if i < |after.stages| - 1 {
        TargetsAsPlanned(registry, components, r, after.stages[i], index);
      } else {
        CapabilityAsPlanned(registry, components, r, after.stages[i], index);
      }
    }
  }

  lemma AppendedAsPlanned(registry: Registry, components: seq<Component>, r: Request, before: seq<Stage>, after: seq<Stage>, id: string, pluginId: string)
    requires Appended(before, after, id, pluginId) && AsPlanned(registry, components, r, before)
    requires PluginOf(components, r, id, pluginId) && (id != [] ==> id[0] != 'c')
    ensures AsPlanned(registry, components, r, after)
  {
    forall i: nat | i < |after| ensures StageAsPlanned(registry, components, r, after[i]) {
      assert i < |before| ==> after[i] == before[i];
    }
  }

  // ---- What a stage is given ----

  /** The title and the spec of a stage: the settings of the fixed stages, and for the stages of
      a component its configuration or the workloads it wants. */
  ghost predicate SpecAsPlanned(registry: Registry, components: seq<Component>, r: Request, stage: Stage)
    requires Installed(registry, components)
  {
    var externals := Externals(registry, components, r);
    && (stage.id == APPLICATION ==> stage == Stage(APPLICATION, r.inspect.id, "Prepare application package", Spec(None, None, r.inspectSpec), [], []))
    && (stage.id == PREPARE ==> Made(registry, externals, r.applicationRef, "Prepare isolated application namespace", r.prepareSpec, stage))
    && (stage.id == DEPLOY ==> Made(registry, externals, r.applicationRef, "Deploy isolated application", r.deploySpec, stage))
    && (forall i: nat :: i < |components| && stage.id == TargetsId(i) ==> TargetsMade(registry, externals, r.applicationRef, components[i], stage))
    && (forall i: nat :: i < |components| && stage.id == CapabilityId(i) ==>
          CapabilityMade(registry, externals, r.applicationRef, components[i], r.timeline, stage))
  }

  ghost predicate SpecsAsPlanned(registry: Registry, components: seq<Component>, r: Request, stages: seq<Stage>)
    requires Installed(registry, components)
  {
    forall k: nat :: k < |stages| ==> SpecAsPlanned(registry, components, r, stages[k])
  }

  lemma TargetsSpec(registry: Registry, components: seq<Component>, r: Request, stage: Stage, index: nat)
    requires Installed(registry, components) && index < |components| && stage.id == TargetsId(index)
    requires TargetsMade(registry, Externals(registry, components, r), r.applicationRef, components[index], stage)
    ensures SpecAsPlanned(registry, components, r, stage)
  {
    assert APPLICATION[0] == 'a' && PREPARE[0] == 'p' && DEPLOY[0] == 'd';
    forall i: nat | i < |components| && stage.id == TargetsId(i) ensures i == index {
      TargetsIdInjective(i, index);
    }
  }

  lemma CapabilitySpec(registry: Registry, components: seq<Component>, r: Request, stage: Stage, index: nat)
    requires Installed(registry, components) && index < |components| && stage.id == CapabilityId(index)
    requires CapabilityMade(registry, Externals(registry, components, r), r.applicationRef, components[index], r.timeline, stage)
    ensures SpecAsPlanned(registry, components, r, stage)
  {
    assert APPLICATION[0] == 'a' && PREPARE[0] == 'p' && DEPLOY[0] == 'd';
    forall i: nat | i < |components| && stage.id == CapabilityId(i) ensures i == index {
      CapabilityIdInjective(i, index);
    }
  }

  lemma ComponentSpecs(registry: Registry, components: seq<Component>, r: Request, before: seq<Stage>, after: seq<Stage>, index: nat)
    requires Installed(registry, components) && index < |components| && SpecsAsPlanned(registry, components, r, before)
    requires Expands(registry, before, after, components[index], index, r.binding.id)
    requires ComponentMade(registry, Externals(registry, components, r), r.applicationRef, components[index], r.timeline, before, after)
    ensures SpecsAsPlanned(registry, components, r, after)
  {
    forall k: nat | k < |after| ensures SpecAsPlanned(registry, components, r, after[k]) {
      if k < |before| {
        assert after[k] == before[k];
      } else if k < |after| - 1 {
        TargetsSpec(registry, components, r, after[k], index);
      } else {
        CapabilitySpec(registry, components, r, after[k], index);
      }
    }
  }

  /** A fixed stage has no component's name. */
  lemma FixedSpec(registry: Registry, components: seq<Component>, r: Request, stage: Stage)
    requires Installed(registry, components) && (stage.id == PREPARE || stage.id == DEPLOY)
    requires stage.id == PREPARE ==> Made(registry, Externals(registry, components, r), r.applicationRef, "Prepare isolated application namespace", r.prepareSpec, stage)
    requires stage.id == DEPLOY ==> Made(registry, Externals(registry, components, r), r.applicationRef, "Deploy isolated application", r.deploySpec, stage)
    ensures SpecAsPlanned(registry, components, r, stage)
  {
    assert APPLICATION[0] == 'a' && PREPARE[0] == 'p' && DEPLOY[0] == 'd';
  }

  lemma AppendedSpecs(registry: Registry, components: seq<Component>, r: Request, before: seq<Stage>, after: seq<Stage>)
    requires Installed(registry, components) && SpecsAsPlanned(registry, components, r, before) && |after| == |before| + 1 && after[..|before|] == before
    requires SpecAsPlanned(registry, components, r, after[|before|])
    ensures SpecsAsPlanned(registry, components, r, after)
  {
    forall k: nat | k < |after| ensures SpecAsPlanned(registry, components, r, after[k]) {
      assert k < |before| ==> after[k] == before[k];
    }
  }

  // ---- When compilation succeeds ----

  /** Stage `j` of the layout is to run a plugin that declares `c`. */
  ghost predicate Offering(registry: Registry, components: seq<Component>, r: Request, j: nat, c: Contract)
    requires Installed(registry, components)
  {
    j < |Layout(registry, components)|
    && exists p :: PluginOf(components, r, Layout(registry, components)[j], p) && p in registry && c in registry[p].outputs
  }

  ghost predicate OfferedBefore(registry: Registry, components: seq<Component>, r: Request, i: nat, c: Contract)
    requires Installed(registry, components)
  {
    exists j: nat :: j < i && Offering(registry, components, r, j, c)
  }

  /** The plugin of stage `i` has a readable schema, and each of its artifact inputs exists or
      is an output of the plugin of an earlier stage. */
  ghost predicate Supplied(registry: Registry, components: seq<Component>, r: Request, i: nat)
    requires Installed(registry, components) && i < |Layout(registry, components)|
  {
    forall p :: PluginOf(components, r, Layout(registry, components)[i], p) && p in registry ==>
      && registry[p].schema.Some?
      && forall name, c :: name in registry[p].schema.value && registry[p].schema.value[name] == ArtifactRef(c) ==>
           ContractKey(c) in Externals(registry, components, r) || OfferedBefore(registry, components, r, i, c)
  }

  predicate AllReady(registry: Registry, components: seq<Component>)
    requires Installed(registry, components)
  {
    forall i :: 0 <= i < |components| ==> ComponentReady(registry, components[i])
  }

  /** What the compiler accepts, read off the plugins and the order of the stages alone. */
  ghost predicate Compilable(registry: Registry, components: seq<Component>, r: Request)
    requires Installed(registry, components)
  {
    && (NeedsPlatform(registry, components) ==> r.platform.Some?)
    && AllReady(registry, components)
    && (forall i: nat :: 1 <= i < |Layout(registry, components)| ==> Supplied(registry, components, r, i))
    && FinalResult(registry, components).Some? && |Layout(registry, components)| <= 32
  }

  /** The stages so far are a beginning of the layout, as planned. */
  ghost predicate Underway(registry: Registry, components: seq<Component>, r: Request, stages: seq<Stage>)
    requires Installed(registry, components)
  {
    StageIds(stages) <= Layout(registry, components) && AsPlanned(registry, components, r, stages)
  }

  lemma OfferedIsProduced(registry: Registry, components: seq<Component>, r: Request, stages: seq<Stage>, c: Contract)
    requires Installed(registry, components) && Underway(registry, components, r, stages)
    requires OfferedBefore(registry, components, r, |stages|, c)
    ensures Produced(registry, stages, c)
  {
    var j: nat :| j < |stages| && Offering(registry, components, r, j, c);
    var p :| PluginOf(components, r, Layout(registry, components)[j], p) && p in registry && c in registry[p].outputs;
    assert StageIds(stages)[j] == Layout(registry, components)[j];
    assert StageAsPlanned(registry, components, r, stages[j]);
    PluginUnique(components, r, stages[j].id, stages[j].pluginId, p);
    assert Declares(registry, stages, j, c);
  }

  /** A stage that cannot be bound in its place is one the configuration does not supply. */
  lemma UnboundIsUnsupplied(registry: Registry, components: seq<Component>, r: Request, stages: seq<Stage>, id: string, m: Manifest)
    requires Installed(registry, components) && IsInstalled(registry, m) && stages != []
    requires Underway(registry, components, r, stages) && StageIds(stages) + [id] <= Layout(registry, components)
    requires PluginOf(components, r, id, m.id) && !Bindable(registry, Externals(registry, components, r), stages, m)
    ensures !Compilable(registry, components, r)
  {
    var i := |stages|;
    assert Layout(registry, components)[i] == (StageIds(stages) + [id])[i] == id;
    if Supplied(registry, components, r, i) {
      var name, c :| name in m.schema.value && m.schema.value[name] == ArtifactRef(c)
                     && ContractKey(c) !in Externals(registry, components, r) && !Produced(registry, stages, c);
      OfferedIsProduced(registry, components, r, stages, c);
    }
  }

  /** A component that cannot be appended in its place is one the compiler does not accept. */
  lemma StuckIsRefused(registry: Registry, components: seq<Component>, r: Request, stages: seq<Stage>, index: nat)
    requires IsRequest(registry, r) && Installed(registry, components) && index < |components| && stages != []
    requires Underway(registry, components, r, stages)
    requires StageIds(stages) + NamesOf(registry, components[index], index) <= Layout(registry, components)
    requires !ComponentReady(registry, components[index]) || Stuck(registry, Externals(registry, components, r), stages, components[index], index, r.binding)
    ensures !Compilable(registry, components, r)
  {
    var component, externals := components[index], Externals(registry, components, r);
    var manifest := registry[component.pluginId];
    if !ComponentReady(registry, component) {
    } else if Needs(manifest, TARGETS) && !Bindable(registry, externals, stages, r.binding) {
      assert StageIds(stages) + NamesOf(registry, component, index) == StageIds(stages) + [TargetsId(index)] + [CapabilityId(index)];
      UnboundIsUnsupplied(registry, components, r, stages, TargetsId(index), r.binding);
    } else {
      var middle :| TargetsAdded(registry, stages, middle, component, index, r.binding.id) && !Bindable(registry, externals, middle, manifest);
      assert StageIds(middle) + [CapabilityId(index)] == StageIds(stages) + NamesOf(registry, component, index);
      if Needs(manifest, TARGETS) {
        assert TargetsId(index)[0] == 't';
        AppendedAsPlanned(registry, components, r, stages, middle, TargetsId(index), r.binding.id);
      }
      assert IsInstalled(registry, manifest);
      UnboundIsUnsupplied(registry, components, r, middle, CapabilityId(index), manifest);
    }
  }

  // ---- Compilation ----

  /** The components of `indices`, and nothing else, were added between two states. */
  ghost predicate Added(registry: Registry, components: seq<Component>, indices: seq<nat>, before: State, after: State)
    requires Installed(registry, components) && Indices(components, indices)
  {
    && Extends(before.stages, after.stages)
    && StageIds(after.stages) == StageIds(before.stages) + Expanded(registry, components, indices)
    && AvoidsPrepare(before.stages, before.sources, after.stages, after.sources)
    && after.result == ResultOf(registry, components, indices, before.result)
    && forall k :: 0 <= k < |indices| ==> ComponentReady(registry, components[indices[k]])
  }

  lemma AddedStep(registry: Registry, components: seq<Component>, indices: seq<nat>, k: nat, first: State, middle: State, last: State, binding: Manifest)
    requires Installed(registry, components) && Indices(components, indices) && k < |indices|
    requires Added(registry, components, indices[..k], first, middle)
    requires ComponentStep(registry, middle, last, components[indices[k]], indices[k], binding)
    ensures Added(registry, components, indices[..k + 1], first, last)
  {
    assert indices[..k + 1][..k] == indices[..k];
    AvoidsInSteps(first.stages, first.sources, middle.stages, middle.sources, last.stages, last.sources);
    assert last.stages[..|first.stages|] == last.stages[..|middle.stages|][..|first.stages|];
  }

  /** The compiler runs on this configuration. */
  ghost predicate Compiles(compiler: Compiler, components: seq<Component>, r: Request)
    reads compiler
  {
    && compiler.Valid() && IsRequest(compiler.registry, r) && Installed(compiler.registry, components)
    && compiler.externals == Externals(compiler.registry, components, r)
    && compiler.applicationRef == r.applicationRef
    && AsPlanned(compiler.registry, components, r, compiler.stages) && SpecsAsPlanned(compiler.registry, components, r, compiler.stages)
  }

  /** Appends the components of one phase. */
  method AppendAll(compiler: Compiler, components: seq<Component>, indices: seq<nat>, r: Request) returns (failure: Option<Failure>)
    requires Compiles(compiler, components, r) && Indices(components, indices) && compiler.stages != []
    requires StageIds(compiler.stages) + Expanded(compiler.registry, components, indices) <= Layout(compiler.registry, components)
    modifies compiler
    ensures compiler.Valid()
    ensures failure.None? ==> Compiles(compiler, components, r)
    ensures failure.None? ==> Added(compiler.registry, components, indices, old(compiler.Snapshot()), compiler.Snapshot())
    ensures failure.Some? ==> !Compilable(compiler.registry, components, r)
  {
    assert StageIds(compiler.stages) + [] == StageIds(compiler.stages);
    failure := None;
    var k := 0;
    while k < |indices| && failure.None?
      invariant k <= |indices|
      invariant compiler.Valid()
      invariant failure.None? ==> Compiles(compiler, components, r)
      invariant failure.None? ==> Added(compiler.registry, components, indices[..k], old(compiler.Snapshot()), compiler.Snapshot())
      invariant failure.Some? ==> !Compilable(compiler.registry, components, r)
    {
      failure := AppendNext(compiler, components, indices, k, r, old(compiler.Snapshot()));
      k := k + 1;
    }
    assert k == |indices| ==> indices[..k] == indices;
  }

  /** What is appended next still lies within the layout. */
  lemma NextWithin(registry: Registry, components: seq<Component>, indices: seq<nat>, k: nat, first: State, middle: State)
    requires Installed(registry, components) && Indices(components, indices) && k < |indices|
    requires Added(registry, components, indices[..k], first, middle)
    requires StageIds(first.stages) + Expanded(registry, components, indices) <= Layout(registry, components)
    ensures StageIds(middle.stages) + NamesOf(registry, components[indices[k]], indices[k]) <= Layout(registry, components)
  {
    ExpandedPrefix(registry, components, indices, k + 1);
    assert indices[..k + 1][..k] == indices[..k];
    assert StageIds(middle.stages) + NamesOf(registry, components[indices[k]], indices[k])
        == StageIds(first.stages) + Expanded(registry, components, indices[..k + 1]);
  }

  /** One turn of that loop. */
  method AppendNext(compiler: Compiler, components: seq<Component>, indices: seq<nat>, k: nat, r: Request, ghost first: State)
    returns (failure: Option<Failure>)
    requires Compiles(compiler, components, r) && Indices(components, indices) && k < |indices| && compiler.stages != []
    requires Added(compiler.registry, components, indices[..k], first, compiler.Snapshot())
    requires StageIds(first.stages) + Expanded(compiler.registry, components, indices) <= Layout(compiler.registry, components)
    modifies compiler
    ensures compiler.Valid()
    ensures failure.None? ==> Compiles(compiler, components, r)
    ensures failure.None? ==> Added(compiler.registry, components, indices[..k + 1], first, compiler.Snapshot())
    ensures failure.Some? ==> !Compilable(compiler.registry, components, r)
  {
    var index := indices[k];
    ghost var middle := compiler.Snapshot();
    NextWithin(compiler.registry, components, indices, k, first, middle);
    failure := compiler.AppendComponent(components[index], index, r.binding, r.timeline);
    if failure.None? {
      AddedStep(compiler.registry, components, indices, k, first, middle, compiler.Snapshot(), r.binding);
      ComponentAsPlanned(compiler.registry, components, r, middle, compiler.Snapshot(), index);
      ComponentSpecs(compiler.registry, components, r, middle.stages, compiler.stages, index);
    } else {
      StuckIsRefused(compiler.registry, components, r, middle.stages, index);
    }
  }

  /** Before deployment the only stage named prepare is the second one. */
  lemma PrepareIsSecond(registry: Registry, components: seq<Component>, indices: seq<nat>, stages: seq<Stage>, j: nat)
    requires Installed(registry, components) && Indices(components, indices)
    requires StageIds(stages) == [APPLICATION, PREPARE] + Expanded(registry, components, indices)
    requires j < |stages| && stages[j].id == PREPARE
    ensures j == 1
  {
    ExpandedInitials(registry, components, indices);
    var names := Expanded(registry, components, indices);
    var all := [APPLICATION, PREPARE] + names;
    forall k | 2 <= k < |all| ensures all[k] != PREPARE {
      assert all[k] == names[k - 2] && names[k - 2] in names && PREPARE[0] == 'p';
    }
    assert all[j] == PREPARE;
  }

  /** Deploying registers everything that preparing had registered: nothing comes from the
      prepare stage any more. */
  lemma PrepareForgotten(registry: Registry, externals: map<string, string>, components: seq<Component>, indices: seq<nat>,
                         stages: seq<Stage>, sources: map<string, Source>, deploy: Manifest)
    requires Installed(registry, components) && Indices(components, indices)
    requires Backed(registry, externals, stages, sources)
    requires StageIds(stages) == [APPLICATION, PREPARE] + Expanded(registry, components, indices)
    requires stages[1].pluginId == deploy.id && deploy.id in registry && registry[deploy.id] == deploy
    ensures Forgotten(Registered(sources, DEPLOY, deploy.outputs), PREPARE)
  {
    var after := Registered(sources, DEPLOY, deploy.outputs);
    forall key | key in after && after[key].externalId == "" ensures after[key].stageId != PREPARE {
      RegisteredMeaning(sources, DEPLOY, deploy.outputs, key);
      if !(exists c :: c in deploy.outputs && ContractKey(c) == key) && sources[key].stageId == PREPARE {
        assert SourceBacked(registry, externals, stages, key, sources[key]);
        var c :| ContractKey(c) == key && LatestProducer(registry, stages, |stages|, PREPARE, c);
        LatestIsProduced(registry, stages, |stages|, PREPARE, c);
        var j: nat :| j < |stages| && stages[j].id == PREPARE && Declares(registry, stages, j, c);
        PrepareIsSecond(registry, components, indices, stages, j);
      }
    }
  }

  /** What a compiled pipeline guarantees: it is well typed, its stages are those of the layout,
      at most 32 and without parallelism, each runs the plugin it is to run, with the spec it is
      to have, and takes targets from its own targets stage, nothing behind the deployment binds from prepare, and the
      result is an output of a stage. */
  ghost predicate Compiled(registry: Registry, components: seq<Component>, r: Request, def: Definition)
    requires Installed(registry, components)
  {
    && Typed(registry, Externals(registry, components, r), def.stages)
    && StageIds(def.stages) == Layout(registry, components) && |def.stages| <= 32 && def.maxParallelStages == 0
    && AsPlanned(registry, components, r, def.stages) && SpecsAsPlanned(registry, components, r, def.stages)
    && (forall i :: DeployPosition(registry, components) < i < |def.stages| ==> !BindsFrom(def.stages[i], PREPARE))
    && FinalResult(registry, components) == Some(def.result)
    && ProducedBefore(registry, def.stages, |def.stages|, def.result.stage, ResultContract(def.result))
  }

  lemma PrepareRefused(registry: Registry, components: seq<Component>, r: Request, stages: seq<Stage>)
    requires IsRequest(registry, r) && Installed(registry, components)
    requires StageIds(stages) == [APPLICATION] && AsPlanned(registry, components, r, stages)
    requires !Bindable(registry, Externals(registry, components, r), stages, r.deploy)
    ensures !Compilable(registry, components, r)
  {
    LayoutPrefixes(registry, components);
    assert StageIds(stages) + [PREPARE] == [APPLICATION, PREPARE];
    UnboundIsUnsupplied(registry, components, r, stages, PREPARE, r.deploy);
  }

  /** The state after the application and prepare stages. */
  method AppendPreparation(compiler: Compiler, components: seq<Component>, r: Request) returns (failure: Option<Failure>)
    requires Compiles(compiler, components, r) && compiler.stages == [] && compiler.result == None
    modifies compiler`stages, compiler`sources
    ensures compiler.Valid()
    ensures failure.None? ==> Compiles(compiler, components, r)
    ensures failure.None? ==> StageIds(compiler.stages) == [APPLICATION, PREPARE] && compiler.stages[1].pluginId == r.deploy.id
    ensures failure.Some? ==> !Compilable(compiler.registry, components, r)
  {
    assert APPLICATION[0] == 'a' && PREPARE[0] == 'p';
    compiler.AppendApplication(r.inspect, r.inspectSpec);
    ghost var first := compiler.stages;
    AppendedAsPlanned(compiler.registry, components, r, [], first, APPLICATION, r.inspect.id);
    AppendedSpecs(compiler.registry, components, r, [], first);
    failure := compiler.AppendStage(PREPARE, r.deploy, "Prepare isolated application namespace", r.prepareSpec);
    if failure.None? {
      AppendedAsPlanned(compiler.registry, components, r, first, compiler.stages, PREPARE, r.deploy.id);
      FixedSpec(compiler.registry, components, r, compiler.stages[1]);
      AppendedSpecs(compiler.registry, components, r, first, compiler.stages);
    } else {
      PrepareRefused(compiler.registry, components, r, first);
    }
  }

  /** The deploy stage. */
  method AppendDeployment(compiler: Compiler, components: seq<Component>, r: Request) returns (failure: Option<Failure>)
    requires Compiles(compiler, components, r) && compiler.stages != []
    requires StageIds(compiler.stages) == BeforeDeploy(compiler.registry, components)
    requires compiler.stages[1].pluginId == r.deploy.id
    modifies compiler`stages, compiler`sources
    ensures compiler.Valid()
    ensures failure.None? ==> Compiles(compiler, components, r)
    ensures failure.None? ==> Appended(old(compiler.stages), compiler.stages, DEPLOY, r.deploy.id)
    ensures failure.None? ==> Forgotten(compiler.sources, PREPARE)
    ensures failure.Some? ==> !Compilable(compiler.registry, components, r)
  {
    LayoutPrefixes(compiler.registry, components);
    PrepareForgotten(compiler.registry, compiler.externals, components, AllGroup(compiler.registry, components, Setup), compiler.stages, compiler.sources, r.deploy);
    failure := compiler.AppendStage(DEPLOY, r.deploy, "Deploy isolated application", r.deploySpec);
    if failure.None? {
      assert DEPLOY[0] == 'd';
      AppendedAsPlanned(compiler.registry, components, r, old(compiler.stages), compiler.stages, DEPLOY, r.deploy.id);
      FixedSpec(compiler.registry, components, r, compiler.stages[|compiler.stages| - 1]);
      AppendedSpecs(compiler.registry, components, r, old(compiler.stages), compiler.stages);
    } else {
      UnboundIsUnsupplied(compiler.registry, components, r, old(compiler.stages), DEPLOY, r.deploy);
    }
  }

  /** The two loops after the deployment. */
  method AppendAfterDeployment(compiler: Compiler, components: seq<Component>, deschedulers: seq<nat>, postDeploy: seq<nat>, r: Request)
    returns (failure: Option<Failure>)
    requires Compiles(compiler, components, r) && compiler.stages != []
    requires StageIds(compiler.stages) == BeforeDeploy(compiler.registry, components) + [DEPLOY]
    requires deschedulers == AllGroup(compiler.registry, components, Deschedulers) && postDeploy == AllGroup(compiler.registry, components, PostDeploy)
    modifies compiler
    ensures compiler.Valid()
    ensures failure.None? ==> Compiles(compiler, components, r)
    ensures failure.None? ==> AddedTwice(compiler.registry, components, deschedulers, postDeploy, old(compiler.Snapshot()), compiler.Snapshot())
    ensures failure.Some? ==> !Compilable(compiler.registry, components, r)
  {
    LayoutPrefixes(compiler.registry, components);
    failure := AppendAll(compiler, components, deschedulers, r);
    ghost var middle := compiler.Snapshot();
    if failure.None? {
      failure := AppendAll(compiler, components, postDeploy, r);
    }
    if failure.None? {
      AddedBoth(compiler.registry, components, deschedulers, postDeploy, old(compiler.Snapshot()), middle, compiler.Snapshot());
    }
  }

  /** The deployment, and the two loops after it. */
  method AppendFromDeployment(compiler: Compiler, components: seq<Component>, deschedulers: seq<nat>, postDeploy: seq<nat>, r: Request)
    returns (failure: Option<Failure>)
    requires Compiles(compiler, components, r) && compiler.stages != []
    requires StageIds(compiler.stages) == BeforeDeploy(compiler.registry, components) && compiler.stages[1].pluginId == r.deploy.id
    requires deschedulers == AllGroup(compiler.registry, components, Deschedulers) && postDeploy == AllGroup(compiler.registry, components, PostDeploy)
    modifies compiler
    ensures compiler.Valid()
    ensures failure.None? ==> Compiles(compiler, components, r)
    ensures failure.None? ==> DeployedThen(compiler.registry, components, r, old(compiler.Snapshot()), compiler.Snapshot())
    ensures failure.Some? ==> !Compilable(compiler.registry, components, r)
  {
    ghost var before := compiler.Snapshot();
    failure := AppendDeployment(compiler, components, r);
    ghost var middle := compiler.Snapshot();
    if failure.None? {
      assert StageIds(middle.stages) == StageIds(before.stages) + [DEPLOY];
      failure := AppendAfterDeployment(compiler, components, deschedulers, postDeploy, r);
    }
    if failure.None? {
      assert Deploys(compiler.registry, components, r, before, middle, compiler.Snapshot());
    }
  }

  /** The three loops over the phases, with the deployment between them. */
  method AppendPhases(compiler: Compiler, components: seq<Component>, r: Request) returns (failure: Option<Failure>)
    requires Compiles(compiler, components, r) && compiler.result == None
    requires StageIds(compiler.stages) == [APPLICATION, PREPARE] && compiler.stages[1].pluginId == r.deploy.id
    modifies compiler
    ensures compiler.Valid()
    ensures failure.None? ==> Compiles(compiler, components, r)
    ensures failure.None? ==> PhasesDone(compiler.registry, components, compiler.Snapshot())
    ensures failure.Some? ==> !Compilable(compiler.registry, components, r)
  {
    ghost var state0 := compiler.Snapshot();
    var setup, deschedulers, postDeploy := Classify(compiler.registry, components);
    LayoutPrefixes(compiler.registry, components);
    assert setup == AllGroup(compiler.registry, components, Setup);
    failure := AppendAll(compiler, components, setup, r);
    ghost var state1 := compiler.Snapshot();
    if failure.None? {
      failure := AppendFromDeployment(compiler, components, deschedulers, postDeploy, r);
    }
    if failure.None? {
      PhasesInOrder(compiler.registry, components, r, state0, state1, compiler.Snapshot());
    }
  }

  /** The deployment, and then the deschedulers and everything behind them, were added. */
  ghost predicate Deploys(registry: Registry, components: seq<Component>, r: Request, before: State, middle: State, after: State)
    requires Installed(registry, components)
  {
    && Appended(before.stages, middle.stages, DEPLOY, r.deploy.id) && middle.result == before.result && Forgotten(middle.sources, PREPARE)
    && AddedTwice(registry, components, AllGroup(registry, components, Deschedulers), AllGroup(registry, components, PostDeploy), middle, after)
  }

  ghost predicate DeployedThen(registry: Registry, components: seq<Component>, r: Request, before: State, after: State)
    requires Installed(registry, components)
  {
    exists middle :: Deploys(registry, components, r, before, middle, after)
  }

  /** Two groups were added, one after the other. */
  ghost predicate AddedTwice(registry: Registry, components: seq<Component>, first: seq<nat>, second: seq<nat>, before: State, after: State)
    requires Installed(registry, components) && Indices(components, first) && Indices(components, second)
  {
    && Extends(before.stages, after.stages)
    && StageIds(after.stages) == StageIds(before.stages) + Expanded(registry, components, first) + Expanded(registry, components, second)
    && AvoidsPrepare(before.stages, before.sources, after.stages, after.sources)
    && after.result == ResultOf(registry, components, second, ResultOf(registry, components, first, before.result))
    && (forall k :: 0 <= k < |first| ==> ComponentReady(registry, components[first[k]]))
    && (forall k :: 0 <= k < |second| ==> ComponentReady(registry, components[second[k]]))
  }

  lemma AddedBoth(registry: Registry, components: seq<Component>, first: seq<nat>, second: seq<nat>, before: State, middle: State, after: State)
    requires Installed(registry, components) && Indices(components, first) && Indices(components, second)
    requires Added(registry, components, first, before, middle) && Added(registry, components, second, middle, after)
    ensures AddedTwice(registry, components, first, second, before, after)
  {
    AvoidsInSteps(before.stages, before.sources, middle.stages, middle.sources, after.stages, after.sources);
    assert after.stages[..|before.stages|] == after.stages[..|middle.stages|][..|before.stages|];
  }

  /** All phases are done: names, results and what the later stages bind. */
  ghost predicate PhasesDone(registry: Registry, components: seq<Component>, state: State)
    requires Installed(registry, components)
  {
    && StageIds(state.stages) == Layout(registry, components) && AllReady(registry, components)
    && (forall i :: DeployPosition(registry, components) < i < |state.stages| ==> !BindsFrom(state.stages[i], PREPARE))
    && state.result == FinalResult(registry, components)
  }

  /** Every component belongs to one of the phases. */
  lemma PhasesCover(registry: Registry, components: seq<Component>)
    requires Installed(registry, components)
    requires forall k :: 0 <= k < |AllGroup(registry, components, Setup)| ==> ComponentReady(registry, components[AllGroup(registry, components, Setup)[k]])
    requires forall k :: 0 <= k < |AllGroup(registry, components, Deschedulers)| ==> ComponentReady(registry, components[AllGroup(registry, components, Deschedulers)[k]])
    requires forall k :: 0 <= k < |AllGroup(registry, components, PostDeploy)| ==> ComponentReady(registry, components[AllGroup(registry, components, PostDeploy)[k]])
    ensures AllReady(registry, components)
  {
    forall i: nat | i < |components| ensures ComponentReady(registry, components[i]) {
      var phase := PhaseOf(registry[components[i].pluginId]);
      GroupMeaning(registry, components, phase, |components|);
      assert InPhase(registry, components, phase, i);
      var group := AllGroup(registry, components, phase);
      var k :| 0 <= k < |group| && group[k] == i;
    }
  }

  lemma NothingFromPrepare(registry: Registry, components: seq<Component>, deschedulers: seq<nat>, postDeploy: seq<nat>, before: State, after: State, d: nat)
    requires Installed(registry, components) && Indices(components, deschedulers) && Indices(components, postDeploy)
    requires AddedTwice(registry, components, deschedulers, postDeploy, before, after) && Forgotten(before.sources, PREPARE)
    requires |before.stages| == d + 1
    ensures forall i :: d < i < |after.stages| ==> !BindsFrom(after.stages[i], PREPARE)
  {
  }

  lemma PhaseNames(registry: Registry, components: seq<Component>, r: Request, state0: State, state1: State, state2: State, state3: State)
    requires Installed(registry, components) && StageIds(state0.stages) == [APPLICATION, PREPARE]
    requires Added(registry, components, AllGroup(registry, components, Setup), state0, state1)
    requires Appended(state1.stages, state2.stages, DEPLOY, r.deploy.id)
    requires AddedTwice(registry, components, AllGroup(registry, components, Deschedulers), AllGroup(registry, components, PostDeploy), state2, state3)
    ensures StageIds(state3.stages) == Layout(registry, components)
    ensures |state2.stages| == DeployPosition(registry, components) + 1
  {
    assert StageIds(state2.stages) == StageIds(state1.stages) + [DEPLOY];
    assert |StageIds(state2.stages)| == |state2.stages|;
  }

  lemma PhasesInOrder(registry: Registry, components: seq<Component>, r: Request, state0: State, state1: State, state3: State)
    requires Installed(registry, components) && StageIds(state0.stages) == [APPLICATION, PREPARE] && state0.result == None
    requires Added(registry, components, AllGroup(registry, components, Setup), state0, state1)
    requires DeployedThen(registry, components, r, state1, state3)
    ensures PhasesDone(registry, components, state3)
  {
    var state2 :| Deploys(registry, components, r, state1, state2, state3);
    PhaseNames(registry, components, r, state0, state1, state2, state3);
    NothingFromPrepare(registry, components, AllGroup(registry, components, Deschedulers), AllGroup(registry, components, PostDeploy),
                       state2, state3, DeployPosition(registry, components));
    PhasesCover(registry, components);
  }

  // ---- The compiler accepts exactly what is compilable ----

  /** A well-typed stage is supplied. */
  lemma TypedIsSupplied(registry: Registry, components: seq<Component>, r: Request, stages: seq<Stage>, i: nat)
    requires Installed(registry, components) && StageIds(stages) == Layout(registry, components) && AsPlanned(registry, components, r, stages)
    requires Typed(registry, Externals(registry, components, r), stages) && i < |stages| && stages[i].id != APPLICATION
    ensures Supplied(registry, components, r, i)
  {
    var externals := Externals(registry, components, r);
    assert StageIds(stages)[i] == Layout(registry, components)[i];
    assert StageAsPlanned(registry, components, r, stages[i]) && StageTyped(registry, externals, stages, i);
    forall p | PluginOf(components, r, stages[i].id, p) && p in registry
      ensures registry[p].schema.Some?
      ensures forall name, c :: name in registry[p].schema.value && registry[p].schema.value[name] == ArtifactRef(c) ==>
                ContractKey(c) in externals || OfferedBefore(registry, components, r, i, c)
    {
      PluginUnique(components, r, stages[i].id, p, stages[i].pluginId);
      forall name, c | name in registry[p].schema.value && registry[p].schema.value[name] == ArtifactRef(c)
        ensures ContractKey(c) in externals || OfferedBefore(registry, components, r, i, c)
      {
        assert HasInput(registry, stages[i], name, c) && InputProvided(registry, externals, stages, i, name, c);
        if b :| b in stages[i].bindings && b.path == "/" + name {
          InputIsOffered(registry, components, r, stages, i, name, c, b);
        }
      }
    }
  }

  lemma InputIsOffered(registry: Registry, components: seq<Component>, r: Request, stages: seq<Stage>, i: nat, name: string, c: Contract, b: Binding)
    requires Installed(registry, components) && StageIds(stages) == Layout(registry, components) && AsPlanned(registry, components, r, stages)
    requires i < |stages| && StageTyped(registry, Externals(registry, components, r), stages, i)
    requires HasInput(registry, stages[i], name, c) && b in stages[i].bindings && b.path == "/" + name
    ensures OfferedBefore(registry, components, r, i, c)
  {
    var other, d :| BindingTyped(registry, stages, i, b, other, d);
    PathInjective(name, other);
    var j: nat :| j < i && j < |stages| && stages[j].id == b.fromStage && Declares(registry, stages, j, c);
    assert StageIds(stages)[j] == Layout(registry, components)[j] && StageAsPlanned(registry, components, r, stages[j]);
    assert Offering(registry, components, r, j, c);
  }

  lemma ApplicationIsFirst(registry: Registry, components: seq<Component>, i: nat)
    requires Installed(registry, components) && 1 <= i < |Layout(registry, components)|
    ensures Layout(registry, components)[i] != APPLICATION
  {
    ExpandedInitials(registry, components, AllGroup(registry, components, Setup));
    ExpandedInitials(registry, components, AllGroup(registry, components, Deschedulers));
    ExpandedInitials(registry, components, AllGroup(registry, components, PostDeploy));
    var names := [PREPARE] + GroupNames(registry, components, Setup) + [DEPLOY] + GroupNames(registry, components, Deschedulers)
                 + GroupNames(registry, components, PostDeploy);
    assert Layout(registry, components) == [APPLICATION] + names;
    assert forall x :: x in names ==> x != [] && x[0] != 'a';
    assert Layout(registry, components)[i] == names[i - 1] && names[i - 1] in names;
  }

  lemma CompiledIsCompilable(registry: Registry, components: seq<Component>, r: Request, def: Definition)
    requires Installed(registry, components) && Compiled(registry, components, r, def) && AllReady(registry, components)
    requires NeedsPlatform(registry, components) ==> r.platform.Some?
    ensures Compilable(registry, components, r)
  {
    forall i: nat | 1 <= i < |Layout(registry, components)| ensures Supplied(registry, components, r, i) {
      ApplicationIsFirst(registry, components, i);
      assert StageIds(def.stages)[i] == Layout(registry, components)[i];
      TypedIsSupplied(registry, components, r, def.stages, i);
    }
  }

  /** internal/api/experiment_execution.go: experimentPipelineForCluster, for an application
      destination. */
  method CompileExperiment(registry: Registry, components: seq<Component>, r: Request) returns (outcome: Outcome<Definition>)
    requires IsRequest(registry, r)
    ensures outcome.Ok? <==> Installed(registry, components) && Compilable(registry, components, r)
    ensures outcome.Ok? ==> Compiled(registry, components, r, outcome.value)
  {
    var failure := CheckComponents(registry, components, r);
    if failure.Some? {
      return Rejected(failure.value);
    }
    var compiler := new Compiler(registry, r.applicationRef, Externals(registry, components, r));
    failure := AppendPreparation(compiler, components, r);
    if failure.None? {
      failure := AppendPhases(compiler, components, r);
    }
    if failure.Some? {
      return Rejected(failure.value);
    }
    if compiler.result.None? {
      return Rejected(MissingResult);
    }
    if |compiler.stages| > 32 {
      return Rejected(TooManyStages);
    }
    var def := Definition(0, compiler.stages, compiler.result.value);
    CompiledIsCompilable(registry, components, r, def);
    return Ok(def);
  }
}
