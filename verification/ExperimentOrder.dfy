/** The order of experiment stages, and the pause of a two-phase start: initializationStage
    in internal/api/experiment_initialization.go must agree with the compiler. */
module ExperimentOrder {
  import opened Contracts
  import opened Experiment
  import opened ExperimentPipeline
  import opened Pipelines
  import opened Text

  // ---- Names ----

  /** `name` is a stage of component `index`. */
  predicate BelongsTo(name: string, index: nat) {
    name == TargetsId(index) || name == CapabilityId(index)
  }

  lemma OwnerUnique(name: string, i: nat, j: nat)
    requires BelongsTo(name, i) && BelongsTo(name, j)
    ensures i == j
  {
    if name == TargetsId(i) && name == TargetsId(j) {
      TargetsIdInjective(i, j);
    } else if name == CapabilityId(i) && name == CapabilityId(j) {
      CapabilityIdInjective(i, j);
    }
  }

  lemma {:induction false} ExpandedOwners(registry: Registry, components: seq<Component>, indices: seq<nat>, name: string) returns (index: nat)
    requires Installed(registry, components) && Indices(components, indices)
    requires name in Expanded(registry, components, indices)
    ensures index in indices && BelongsTo(name, index)
  {
    var n := |indices| - 1;
    if name in Expanded(registry, components, indices[..n]) {
      index := ExpandedOwners(registry, components, indices[..n], name);
    } else {
      index := indices[n];
    }
  }

  lemma {:induction false} ExpandedDistinct(registry: Registry, components: seq<Component>, indices: seq<nat>)
    requires Installed(registry, components) && Indices(components, indices) && Ascending(indices)
    ensures Distinct(Expanded(registry, components, indices))
  {
    if indices != [] {
      var n := |indices| - 1;
      var before, last := Expanded(registry, components, indices[..n]), NamesOf(registry, components[indices[n]], indices[n]);
      ExpandedDistinct(registry, components, indices[..n]);
      forall x, y | x in before && y in last ensures x != y {
        var index := ExpandedOwners(registry, components, indices[..n], x);
        if x == y {
          OwnerUnique(x, index, indices[n]);
        }
      }
      DistinctAppend(before, last);
    }
  }

  lemma GroupsApart(registry: Registry, components: seq<Component>, a: Phase, b: Phase)
    requires Installed(registry, components) && a != b
    ensures Apart(GroupNames(registry, components, a), GroupNames(registry, components, b))
  {
    GroupMeaning(registry, components, a, |components|);
    GroupMeaning(registry, components, b, |components|);
    forall x, y | x in GroupNames(registry, components, a) && y in GroupNames(registry, components, b) ensures x != y {
      var i := ExpandedOwners(registry, components, AllGroup(registry, components, a), x);
      var j := ExpandedOwners(registry, components, AllGroup(registry, components, b), y);
      if x == y {
        OwnerUnique(x, i, j);
      }
    }
  }

  lemma GroupDistinct(registry: Registry, components: seq<Component>, phase: Phase)
    requires Installed(registry, components)
    ensures Distinct(GroupNames(registry, components, phase))
    ensures forall x :: x in GroupNames(registry, components, phase) ==> x != [] && (x[0] == 't' || x[0] == 'c')
  {
    GroupMeaning(registry, components, phase, |components|);
    ExpandedDistinct(registry, components, AllGroup(registry, components, phase));
    ExpandedInitials(registry, components, AllGroup(registry, components, phase));
  }

  /** Stage names are pairwise distinct. */
  lemma LayoutDistinct(registry: Registry, components: seq<Component>)
    requires Installed(registry, components)
    ensures Distinct(Layout(registry, components))
  {
    var a, b, c := GroupNames(registry, components, Setup), GroupNames(registry, components, Deschedulers), GroupNames(registry, components, PostDeploy);
    GroupDistinct(registry, components, Setup);
    GroupDistinct(registry, components, Deschedulers);
    GroupDistinct(registry, components, PostDeploy);
    GroupsApart(registry, components, Setup, Deschedulers);
    GroupsApart(registry, components, Setup, PostDeploy);
    GroupsApart(registry, components, Deschedulers, PostDeploy);
    assert APPLICATION[0] == 'a' && PREPARE[0] == 'p' && DEPLOY[0] == 'd';
    DistinctJoin([APPLICATION, PREPARE], a, [DEPLOY], b, c);
  }

  lemma DistinctJoin(a: seq<string>, b: seq<string>, c: seq<string>, d: seq<string>, e: seq<string>)
    requires Distinct(a) && Distinct(b) && Distinct(c) && Distinct(d) && Distinct(e)
    requires Apart(a, b) && Apart(a, c) && Apart(a, d) && Apart(a, e) && Apart(b, c) && Apart(b, d) && Apart(b, e)
    requires Apart(c, d) && Apart(c, e) && Apart(d, e)
    ensures Distinct(a + b + c + d + e)
  {
    DistinctAppend(a, b);
    DistinctAppend(a + b, c);
    DistinctAppend(a + b + c, d);
    DistinctAppend(a + b + c + d, e);
  }

  // ---- Places ----

  /** The place of the capability stage of the k-th index within its group. */
  function PlaceIn(registry: Registry, components: seq<Component>, indices: seq<nat>, k: nat): int
    requires Installed(registry, components) && Indices(components, indices) && k < |indices|
  {
    |Expanded(registry, components, indices[..k + 1])| - 1
  }

  lemma {:induction false} PlaceInMeaning(registry: Registry, components: seq<Component>, indices: seq<nat>, k: nat)
    requires Installed(registry, components) && Indices(components, indices) && k < |indices|
    ensures 0 <= PlaceIn(registry, components, indices, k) < |Expanded(registry, components, indices)|
    ensures Expanded(registry, components, indices)[PlaceIn(registry, components, indices, k)] == CapabilityId(indices[k])
  {
    var n := |indices| - 1;
    if k == n {
      assert indices[..k + 1] == indices;
    } else {
      PlaceInMeaning(registry, components, indices[..n], k);
      assert indices[..n][..k + 1] == indices[..k + 1];
    }
  }

  lemma {:induction false} PlacesRise(registry: Registry, components: seq<Component>, indices: seq<nat>, k: nat, l: nat)
    requires Installed(registry, components) && Indices(components, indices) && k < l < |indices|
    ensures PlaceIn(registry, components, indices, k) < PlaceIn(registry, components, indices, l)
  {
    assert indices[..l + 1][..l] == indices[..l];
    if k < l - 1 {
      PlacesRise(registry, components, indices, k, l - 1);
    }
  }

  function Rank(phase: Phase): nat {
    match phase
    case Setup => 0
    case Deschedulers => 1
    case PostDeploy => 2
  }

  function PhaseAt(registry: Registry, components: seq<Component>, i: nat): Phase
    requires Installed(registry, components) && i < |components|
  {
    PhaseOf(registry[components[i].pluginId])
  }

  /** Where the stages of a phase begin. */
  function Offset(registry: Registry, components: seq<Component>, phase: Phase): nat
    requires Installed(registry, components)
  {
    match phase
    case Setup => 2
    case Deschedulers => DeployPosition(registry, components) + 1
    case PostDeploy => DeployPosition(registry, components) + 1 + |GroupNames(registry, components, Deschedulers)|
  }

  lemma LayoutSegment(registry: Registry, components: seq<Component>, phase: Phase, place: nat)
    requires Installed(registry, components) && place < |GroupNames(registry, components, phase)|
    ensures Offset(registry, components, phase) + place < |Layout(registry, components)|
    ensures Layout(registry, components)[Offset(registry, components, phase) + place] == GroupNames(registry, components, phase)[place]
  {
  }

  /** Component `i` has a capability stage at place `p`, within the stages of its phase, as
      the k-th of them. */
  lemma ComponentPlace(registry: Registry, components: seq<Component>, i: nat) returns (p: nat, k: nat)
    requires Installed(registry, components) && i < |components|
    ensures var phase, group := PhaseAt(registry, components, i), AllGroup(registry, components, PhaseAt(registry, components, i));
      && p < |Layout(registry, components)| && Layout(registry, components)[p] == CapabilityId(i)
      && k < |group| && group[k] == i
      && p == Offset(registry, components, phase) + PlaceIn(registry, components, group, k)
      && Offset(registry, components, phase) <= p < Offset(registry, components, phase) + |GroupNames(registry, components, phase)|
  {
    var phase := PhaseAt(registry, components, i);
    var group := AllGroup(registry, components, phase);
    GroupMeaning(registry, components, phase, |components|);
    assert InPhase(registry, components, phase, i);
    k :| 0 <= k < |group| && group[k] == i;
    p := PlaceOfGroup(registry, components, phase, k);
  }

  lemma PlaceOfGroup(registry: Registry, components: seq<Component>, phase: Phase, k: nat) returns (p: nat)
    requires Installed(registry, components) && k < |AllGroup(registry, components, phase)|
    ensures var group := AllGroup(registry, components, phase);
      && p < |Layout(registry, components)| && Layout(registry, components)[p] == CapabilityId(group[k])
      && p == Offset(registry, components, phase) + PlaceIn(registry, components, group, k)
      && Offset(registry, components, phase) <= p < Offset(registry, components, phase) + |GroupNames(registry, components, phase)|
  {
    var group := AllGroup(registry, components, phase);
    PlaceInMeaning(registry, components, group, k);
    p := Offset(registry, components, phase) + PlaceIn(registry, components, group, k);
    LayoutSegment(registry, components, phase, PlaceIn(registry, components, group, k));
  }

  /** The capability stage of component `i` is at place `p`. */
  predicate IsAt(registry: Registry, components: seq<Component>, i: nat, p: nat)
    requires Installed(registry, components)
  {
    p < |Layout(registry, components)| && Layout(registry, components)[p] == CapabilityId(i)
  }

  lemma PlaceUnique(registry: Registry, components: seq<Component>, i: nat)
    requires Installed(registry, components) && i < |components|
    ensures exists p: nat :: IsAt(registry, components, i, p)
    ensures forall p: nat, q: nat :: IsAt(registry, components, i, p) && IsAt(registry, components, i, q) ==> p == q
    ensures forall p: nat :: IsAt(registry, components, i, p) ==>
              if PhaseAt(registry, components, i) == Setup then p < DeployPosition(registry, components) else p > DeployPosition(registry, components)
  {
    var p, k := ComponentPlace(registry, components, i);
    LayoutDistinct(registry, components);
    assert IsAt(registry, components, i, p);
  }

  /** Stage `p` of the pipeline is the capability stage of component `i`, and runs its plugin. */
  predicate RunsComponent(components: seq<Component>, def: Definition, i: nat, p: nat) {
    i < |components| && p < |def.stages| && def.stages[p].id == CapabilityId(i) && def.stages[p].pluginId == components[i].pluginId
  }

  lemma CapabilityRuns(registry: Registry, components: seq<Component>, r: Request, def: Definition, i: nat, p: nat)
    requires Installed(registry, components) && Compiled(registry, components, r, def) && i < |components|
    ensures RunsComponent(components, def, i, p) <==> IsAt(registry, components, i, p)
  {
    if p < |def.stages| && def.stages[p].id == CapabilityId(i) {
      assert StageAsPlanned(registry, components, r, def.stages[p]);
      assert PluginOf(components, r, CapabilityId(i), components[i].pluginId);
      PluginUnique(components, r, def.stages[p].id, def.stages[p].pluginId, components[i].pluginId);
    }
    assert p < |def.stages| ==> StageIds(def.stages)[p] == def.stages[p].id;
  }

  /** In a compiled pipeline every configured component has exactly one capability stage, which
      runs the component's plugin: setup components before the deployment, the others after it. */
  lemma EachComponentOnce(registry: Registry, components: seq<Component>, r: Request, def: Definition, i: nat) returns (p: nat)
    requires Installed(registry, components) && Compiled(registry, components, r, def) && i < |components|
    ensures RunsComponent(components, def, i, p)
    ensures forall q: nat :: q < |def.stages| && def.stages[q].id == CapabilityId(i) ==> q == p
    ensures var d := DeployPosition(registry, components);
      && d < |def.stages| && def.stages[d].id == DEPLOY && def.stages[d].pluginId == r.deploy.id
      && if PhaseAt(registry, components, i) == Setup then p < d else d < p
  {
    PlaceUnique(registry, components, i);
    p :| IsAt(registry, components, i, p);
    CapabilityRuns(registry, components, r, def, i, p);
    forall q: nat | q < |def.stages| && def.stages[q].id == CapabilityId(i) ensures q == p {
      assert StageIds(def.stages)[q] == Layout(registry, components)[q];
      assert IsAt(registry, components, i, q);
    }
    DeployRuns(registry, components, r, def);
  }

  lemma DeployRuns(registry: Registry, components: seq<Component>, r: Request, def: Definition)
    requires Installed(registry, components) && Compiled(registry, components, r, def)
    ensures var d := DeployPosition(registry, components);
      d < |def.stages| && def.stages[d].id == DEPLOY && def.stages[d].pluginId == r.deploy.id
  {
    var d := DeployPosition(registry, components);
    LayoutPrefixes(registry, components);
    assert (BeforeDeploy(registry, components) + [DEPLOY])[d] == DEPLOY;
    assert StageIds(def.stages)[d] == DEPLOY;
    assert StageAsPlanned(registry, components, r, def.stages[d]);
    PluginUnique(components, r, DEPLOY, def.stages[d].pluginId, r.deploy.id);
  }

  /** Component `i` runs before component `j`: an earlier phase, or the same phase and an
      earlier place in the configuration. */
  predicate RunsBefore(registry: Registry, components: seq<Component>, i: nat, j: nat)
    requires Installed(registry, components) && i < |components| && j < |components|
  {
    var a, b := Rank(PhaseAt(registry, components, i)), Rank(PhaseAt(registry, components, j));
    a < b || (a == b && i < j)
  }

  lemma AscendingOrder(group: seq<nat>, k: nat, l: nat)
    requires Ascending(group) && k < |group| && l < |group| && group[k] < group[l]
    ensures k < l
  {
  }

  /** Setup before deschedulers before load and metrics, in configured order within each. */
  lemma ComponentsInOrder(registry: Registry, components: seq<Component>, i: nat, j: nat, p: nat, q: nat)
    requires Installed(registry, components) && i < |components| && j < |components| && RunsBefore(registry, components, i, j)
    requires IsAt(registry, components, i, p) && IsAt(registry, components, j, q)
    ensures p < q
  {
    var a, k := ComponentPlace(registry, components, i);
    var b, l := ComponentPlace(registry, components, j);
    LayoutDistinct(registry, components);
    assert a == p && b == q;
    var phase := PhaseAt(registry, components, i);
    if phase == PhaseAt(registry, components, j) {
      GroupMeaning(registry, components, phase, |components|);
      var group := AllGroup(registry, components, phase);
      AscendingOrder(group, k, l);
      PlacesRise(registry, components, group, k, l);
    }
  }

  // ---- The pause of a two-phase start ----

  predicate IsLoad(components: seq<Component>, i: nat) {
    i < |components| && components[i].capability == LOAD
  }

  predicate FirstLoad(components: seq<Component>, i: nat) {
    IsLoad(components, i) && forall k :: 0 <= k < i ==> !IsLoad(components, k)
  }

  /** internal/api/experiment_initialization.go: initializationStage. */
  method InitializationStage(twoPhaseStart: bool, components: seq<Component>) returns (stage: string)
    ensures stage != "" <==> twoPhaseStart && exists i: nat :: IsLoad(components, i)
    ensures stage != "" ==> exists i: nat :: FirstLoad(components, i) && stage == CapabilityId(i)
  {
    if !twoPhaseStart {
      return "";
    }
    for i := 0 to |components|
      invariant forall k :: 0 <= k < i ==> !IsLoad(components, k)
    {
      if components[i].capability == LOAD {
        assert FirstLoad(components, i);
        return CapabilityId(i);
      }
    }
    return "";
  }

  /** Saved configurations name a capability that the plugin has. */
  predicate Capable(registry: Registry, components: seq<Component>)
    requires Installed(registry, components)
  {
    forall i :: 0 <= i < |components| ==> components[i].capability in registry[components[i].pluginId].capabilities
  }

  /** No load stage comes before the stage of component `first`. */
  ghost predicate NoLoadBefore(registry: Registry, components: seq<Component>, first: nat)
    requires Installed(registry, components)
  {
    forall j: nat, p: nat, q: nat ::
      IsLoad(components, j) && IsAt(registry, components, first, p) && IsAt(registry, components, j, q) ==> p <= q
  }

  /** The first load component runs with the metrics while another one runs with the deschedulers. */
  predicate LoadsSplit(registry: Registry, components: seq<Component>, first: nat)
    requires Installed(registry, components) && first < |components|
  {
    && PhaseAt(registry, components, first) == PostDeploy
    && exists j: nat :: IsLoad(components, j) && j < |components| && PhaseAt(registry, components, j) == Deschedulers
  }

  lemma LoadPhase(registry: Registry, components: seq<Component>, j: nat)
    requires Installed(registry, components) && Capable(registry, components) && IsLoad(components, j)
    ensures PhaseAt(registry, components, j) != Setup
  {
  }

  /** The pause computed from the configuration is a stage of the pipeline, exactly once, and
      no load stage comes before it, exactly if the load components are not split by a
      plugin that is a descheduler as well. */
  lemma PauseBeforeEveryLoad(registry: Registry, components: seq<Component>, first: nat)
    requires Installed(registry, components) && Capable(registry, components) && FirstLoad(components, first)
    ensures exists p: nat :: IsAt(registry, components, first, p)
    ensures forall p: nat, q: nat :: IsAt(registry, components, first, p) && IsAt(registry, components, first, q) ==> p == q
    ensures NoLoadBefore(registry, components, first) <==> !LoadsSplit(registry, components, first)
  {
    PlaceUnique(registry, components, first);
    if LoadsSplit(registry, components, first) {
      var j: nat :| IsLoad(components, j) && j < |components| && PhaseAt(registry, components, j) == Deschedulers;
      var p, k := ComponentPlace(registry, components, first);
      var q, l := ComponentPlace(registry, components, j);
      assert IsAt(registry, components, first, p) && IsAt(registry, components, j, q);
      ComponentsInOrder(registry, components, j, first, q, p);
    } else {
      forall j: nat, p: nat, q: nat | IsLoad(components, j) && IsAt(registry, components, first, p) && IsAt(registry, components, j, q) ensures p <= q {
        LoadPhase(registry, components, first);
        LoadPhase(registry, components, j);
        if j != first {
          ComponentsInOrder(registry, components, first, j, p, q);
        }
      }
    }
  }

  const DATASET: Contract := Contract("TimeSeriesDataset", "v1alpha1")
  const TOOL: Manifest := Manifest("tool", Some(map[]), [], [], {}, "")
  const PLAIN: Manifest := Manifest("plain", Some(map[]), [], [DATASET], {LOAD}, "")
  const BOTH: Manifest := Manifest("both", Some(map[]), [], [], {LOAD, DESCHEDULER}, "")

  const TWO_PLUGINS: Registry := map["tool" := TOOL, "plain" := PLAIN, "both" := BOTH]
  const TWO_LOADS: seq<Component> := [Component("x", LOAD, "plain", Some(map[])), Component("y", LOAD, "both", Some(map[]))]
  const TWO_LOADS_REQUEST: Request :=
    Request(TOOL, TOOL, TOOL, "app", "connection", "observability", None, map[], map[], map[], false)

  function Bare(id: string, pluginId: string, title: string): Stage {
    Stage(id, pluginId, title, Spec(None, None, map[]), [], [])
  }

  const SPLIT_PIPELINE: Definition := Definition(0,
    [Bare(APPLICATION, "tool", "Prepare application package"), Bare(PREPARE, "tool", "Prepare isolated application namespace"),
     Bare(DEPLOY, "tool", "Deploy isolated application"), Bare(CapabilityId(1), "both", LOAD), Bare(CapabilityId(0), "plain", LOAD)],
    ResultOutput(CapabilityId(0), DATASET))

  lemma TwoPlugins()
    ensures "tool" in TWO_PLUGINS && TWO_PLUGINS["tool"] == TOOL
    ensures "plain" in TWO_PLUGINS && TWO_PLUGINS["plain"] == PLAIN
    ensures "both" in TWO_PLUGINS && TWO_PLUGINS["both"] == BOTH
  {
    assert "tool"[0] == 't' && "plain"[0] == 'p' && "both"[0] == 'b';
  }

  lemma TwoPluginsRegistry()
    ensures IsRegistry(TWO_PLUGINS)
  {
    TwoPlugins();
    assert IsManifest(TOOL) && IsManifest(PLAIN) && IsManifest(BOTH);
  }

  lemma TwoPhases()
    ensures PhaseOf(PLAIN) == PostDeploy && PhaseOf(BOTH) == Deschedulers
  {
    assert DESCHEDULER[0] != LOAD[0];
  }

  lemma TwoLoads()
    ensures IsRequest(TWO_PLUGINS, TWO_LOADS_REQUEST) && Installed(TWO_PLUGINS, TWO_LOADS) && Capable(TWO_PLUGINS, TWO_LOADS)
    ensures FirstLoad(TWO_LOADS, 0) && IsLoad(TWO_LOADS, 1)
  {
    TwoPlugins();
    TwoPluginsRegistry();
    assert IsLoad(TWO_LOADS, 0);
  }

  lemma TwoLoadsGroups()
    requires Installed(TWO_PLUGINS, TWO_LOADS)
    ensures AllGroup(TWO_PLUGINS, TWO_LOADS, Setup) == []
    ensures AllGroup(TWO_PLUGINS, TWO_LOADS, Deschedulers) == [1] && AllGroup(TWO_PLUGINS, TWO_LOADS, PostDeploy) == [0]
  {
    TwoPlugins();
    TwoPhases();
    assert Group(TWO_PLUGINS, TWO_LOADS, Setup, 1) == [];
    assert Group(TWO_PLUGINS, TWO_LOADS, Deschedulers, 1) == [] && Group(TWO_PLUGINS, TWO_LOADS, PostDeploy, 1) == [0];
  }

  lemma TwoLoadsLayout()
    requires Installed(TWO_PLUGINS, TWO_LOADS)
    ensures Layout(TWO_PLUGINS, TWO_LOADS) == [APPLICATION, PREPARE, DEPLOY, CapabilityId(1), CapabilityId(0)]
    ensures DeployPosition(TWO_PLUGINS, TWO_LOADS) == 2
    ensures FinalResult(TWO_PLUGINS, TWO_LOADS) == Some(SPLIT_PIPELINE.result)
  {
    TwoLoadsGroups();
    var one, zero: seq<nat> := [1], [0];
    assert one[..0] == [] && zero[..0] == [];
    assert Expanded(TWO_PLUGINS, TWO_LOADS, one) == [CapabilityId(1)];
    assert Expanded(TWO_PLUGINS, TWO_LOADS, zero) == [CapabilityId(0)];
    assert ResultOf(TWO_PLUGINS, TWO_LOADS, one, None) == None;
  }

  lemma SplitPipelineAsPlanned()
    ensures AsPlanned(TWO_PLUGINS, TWO_LOADS, TWO_LOADS_REQUEST, SPLIT_PIPELINE.stages)
  {
    var r, stages := TWO_LOADS_REQUEST, SPLIT_PIPELINE.stages;
    assert PluginOf(TWO_LOADS, r, CapabilityId(1), TWO_LOADS[1].pluginId) && PluginOf(TWO_LOADS, r, CapabilityId(0), TWO_LOADS[0].pluginId);
    forall i: nat | i < |stages| ensures StageAsPlanned(TWO_PLUGINS, TWO_LOADS, r, stages[i]) {
      assert i == 0 || i == 1 || i == 2 || i == 3 || i == 4;
    }
  }

  /** A stage without settings of a plugin without inputs. */
  lemma BareIsMade(externals: map<string, string>, id: string, pluginId: string, title: string)
    requires pluginId == "tool" || pluginId == "plain" || pluginId == "both"
    ensures Made(TWO_PLUGINS, externals, "app", title, map[], Bare(id, pluginId, title))
  {
    TwoPlugins();
  }

  lemma BareCapability(externals: map<string, string>, index: nat)
    requires index < 2
    ensures CapabilityMade(TWO_PLUGINS, externals, "app", TWO_LOADS[index], false, Bare(CapabilityId(index), TWO_LOADS[index].pluginId, LOAD))
  {
    BareIsMade(externals, CapabilityId(index), TWO_LOADS[index].pluginId, LOAD);
    assert IsConfiguration(TWO_LOADS[index], false, map[]);
  }

  lemma SplitPipelineSpecs()
    requires Installed(TWO_PLUGINS, TWO_LOADS)
    ensures SpecsAsPlanned(TWO_PLUGINS, TWO_LOADS, TWO_LOADS_REQUEST, SPLIT_PIPELINE.stages)
  {
    var r, stages, externals := TWO_LOADS_REQUEST, SPLIT_PIPELINE.stages, Externals(TWO_PLUGINS, TWO_LOADS, TWO_LOADS_REQUEST);
    assert APPLICATION[0] == 'a' && PREPARE[0] == 'p' && DEPLOY[0] == 'd';
    BareIsMade(externals, PREPARE, "tool", "Prepare isolated application namespace");
    BareIsMade(externals, DEPLOY, "tool", "Deploy isolated application");
    BareCapability(externals, 0);
    BareCapability(externals, 1);
    forall k: nat | k < |stages| ensures SpecAsPlanned(TWO_PLUGINS, TWO_LOADS, r, stages[k]) {
      if k == 3 {
        CapabilitySpec(TWO_PLUGINS, TWO_LOADS, r, stages[k], 1);
      } else if k == 4 {
        CapabilitySpec(TWO_PLUGINS, TWO_LOADS, r, stages[k], 0);
      } else if k > 0 {
        FixedSpec(TWO_PLUGINS, TWO_LOADS, r, stages[k]);
      }
    }
  }

  lemma SplitPipelineTyped(externals: map<string, string>)
    ensures Typed(TWO_PLUGINS, externals, SPLIT_PIPELINE.stages)
  {
    var stages := SPLIT_PIPELINE.stages;
    forall i: nat | i < |stages| ensures StageTyped(TWO_PLUGINS, externals, stages, i) {
      assert i == 0 || i == 1 || i == 2 || i == 3 || i == 4;
    }
  }

  lemma TwoLoadsReady()
    requires Installed(TWO_PLUGINS, TWO_LOADS)
    ensures AllReady(TWO_PLUGINS, TWO_LOADS) && !NeedsPlatform(TWO_PLUGINS, TWO_LOADS)
  {
    TwoPlugins();
  }

  lemma SplitPipelineResult()
    ensures ProducedBefore(TWO_PLUGINS, SPLIT_PIPELINE.stages, 5, SPLIT_PIPELINE.result.stage, ResultContract(SPLIT_PIPELINE.result))
    ensures |SPLIT_PIPELINE.stages| == 5 && forall i :: 0 <= i < 5 ==> !BindsFrom(SPLIT_PIPELINE.stages[i], PREPARE)
  {
    TwoPlugins();
    assert Declares(TWO_PLUGINS, SPLIT_PIPELINE.stages, 4, DATASET);
  }

  lemma SplitPipelineCompiled()
    requires Installed(TWO_PLUGINS, TWO_LOADS)
    ensures Compiled(TWO_PLUGINS, TWO_LOADS, TWO_LOADS_REQUEST, SPLIT_PIPELINE)
  {
    SplitPipelineNames();
    SplitPipelineAsPlanned();
    SplitPipelineSpecs();
    SplitPipelineTyped(Externals(TWO_PLUGINS, TWO_LOADS, TWO_LOADS_REQUEST));
    SplitPipelineResult();
    IsCompiled(TWO_PLUGINS, TWO_LOADS, TWO_LOADS_REQUEST, SPLIT_PIPELINE);
  }

  lemma SplitPipelineNames()
    requires Installed(TWO_PLUGINS, TWO_LOADS)
    ensures StageIds(SPLIT_PIPELINE.stages) == Layout(TWO_PLUGINS, TWO_LOADS) && FinalResult(TWO_PLUGINS, TWO_LOADS) == Some(SPLIT_PIPELINE.result)
  {
    TwoLoadsLayout();
    assert StageIds(SPLIT_PIPELINE.stages) == [APPLICATION, PREPARE, DEPLOY, CapabilityId(1), CapabilityId(0)];
  }

  lemma IsCompiled(registry: Registry, components: seq<Component>, r: Request, def: Definition)
    requires Installed(registry, components) && Typed(registry, Externals(registry, components, r), def.stages)
    requires StageIds(def.stages) == Layout(registry, components) && |def.stages| <= 32 && def.maxParallelStages == 0
    requires AsPlanned(registry, components, r, def.stages) && SpecsAsPlanned(registry, components, r, def.stages)
    requires forall i :: 0 <= i < |def.stages| ==> !BindsFrom(def.stages[i], PREPARE)
    requires FinalResult(registry, components) == Some(def.result)
    requires ProducedBefore(registry, def.stages, |def.stages|, def.result.stage, ResultContract(def.result))
    ensures Compiled(registry, components, r, def)
  {
  }

  /** A plugin that is both a descheduler and a load generator moves its load stage in front of
      the pause: the compiler accepts this configuration, and this pipeline meets its contract. */
  lemma SplitLoads()
    ensures IsRequest(TWO_PLUGINS, TWO_LOADS_REQUEST) && Installed(TWO_PLUGINS, TWO_LOADS) && Capable(TWO_PLUGINS, TWO_LOADS)
    ensures Compilable(TWO_PLUGINS, TWO_LOADS, TWO_LOADS_REQUEST)
    ensures Compiled(TWO_PLUGINS, TWO_LOADS, TWO_LOADS_REQUEST, SPLIT_PIPELINE)
    ensures FirstLoad(TWO_LOADS, 0) && IsLoad(TWO_LOADS, 1)
    ensures RunsComponent(TWO_LOADS, SPLIT_PIPELINE, 1, 3) && RunsComponent(TWO_LOADS, SPLIT_PIPELINE, 0, 4)
  {
    TwoLoads();
    SplitPipelineCompiled();
    TwoLoadsReady();
    CompiledIsCompilable(TWO_PLUGINS, TWO_LOADS, TWO_LOADS_REQUEST, SPLIT_PIPELINE);
  }

  /** Every dependency and binding of a compiled pipeline points to an earlier stage. */
  lemma CompiledBackward(registry: Registry, components: seq<Component>, r: Request, def: Definition)
    requires Installed(registry, components) && Compiled(registry, components, r, def)
    ensures BackwardEdges(def.stages)
  {
    var stages := def.stages;
    forall i: nat | i < |stages| ensures BackwardEdgesAt(stages, i) {
      assert StageTyped(registry, Externals(registry, components, r), stages, i);
      forall b | b in stages[i].bindings ensures DeclaredBefore(stages, i, b.fromStage) {
        var name, c :| BindingTyped(registry, stages, i, b, name, c);
        var j: nat :| j < i && j < |stages| && stages[j].id == b.fromStage && Declares(registry, stages, j, c);
        assert stages[j].id == b.fromStage;
      }
    }
  }

  /** In a compiled pipeline a stage name identifies one stage, so the producer of every
      binding is unique. */
  lemma ProducersUnique(registry: Registry, components: seq<Component>, r: Request, def: Definition, i: nat, j: nat)
    requires Installed(registry, components) && Compiled(registry, components, r, def)
    requires i < |def.stages| && j < |def.stages| && def.stages[i].id == def.stages[j].id
    ensures i == j
  {
    LayoutDistinct(registry, components);
    assert StageIds(def.stages)[i] == StageIds(def.stages)[j];
  }
}
