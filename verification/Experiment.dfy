/** The experiment compiler of internal/api/experiment_execution.go: stages are appended in
    phases while a map remembers the latest producer of every artifact contract. */
module Experiment {
  import opened Contracts
  import opened Pipelines
  import opened Text

  /** A schema property: an ordinary value, the application, or an artifact input. */
  datatype Property = Plain | ApplicationRef | ArtifactRef(contract: Contract)

  /** What the compiler reads from a plugin manifest. An undecodable schema is None. */
  datatype Manifest = Manifest(
    id: string,
    schema: Option<map<string, Property>>,
    inputs: seq<Contract>,
    outputs: seq<Contract>,
    capabilities: set<string>,
    requiredTrait: string)

  type Registry = map<string, Manifest>

  /** Manifest outputs are validated names, which hold no NUL. */
  predicate IsManifest(m: Manifest) {
    forall c :: c in m.outputs ==> NUL !in c.artifactType && NUL !in c.version
  }

  predicate IsRegistry(registry: Registry) {
    forall id :: id in registry ==> registry[id].id == id && IsManifest(registry[id])
  }

  /** The key of a declared output belongs to no other contract. */
  lemma OutputKeyInjective(c: Contract, output: Contract)
    requires NUL !in output.artifactType && NUL !in output.version && ContractKey(c) == ContractKey(output)
    ensures c == output
  {
    KeyInjective(output.artifactType, output.version, c.artifactType, c.version);
  }

  /** Where an artifact comes from: it exists (externalId), or a stage produces it. */
  datatype Source = Source(externalId: string, stageId: string)

  datatype Failure =
    | PluginChanged
    | InvalidPlugin
    | MissingInput
    | InvalidSnapshot
    | PlatformInvalid
    | MissingResult
    | TooManyStages

  datatype Outcome<+T> = Ok(value: T) | Rejected(failure: Failure)

  // ---- Bindings of one stage ----

  predicate Available(properties: map<string, Property>, sources: map<string, Source>) {
    forall name :: name in properties && properties[name].ArtifactRef? ==> ContractKey(properties[name].contract) in sources
  }

  predicate IsProduced(properties: map<string, Property>, sources: map<string, Source>, name: string) {
    && name in properties && properties[name].ArtifactRef? && ContractKey(properties[name].contract) in sources
    && sources[ContractKey(properties[name].contract)].externalId == ""
  }

  /** `b` is the binding that an input named `name` gets. */
  predicate OffersAs(properties: map<string, Property>, sources: map<string, Source>, name: string, b: Binding) {
    IsProduced(properties, sources, name) && b == Binding("/" + name, sources[ContractKey(properties[name].contract)].stageId, "")
  }

  ghost predicate Offers(properties: map<string, Property>, sources: map<string, Source>, b: Binding) {
    exists name :: OffersAs(properties, sources, name, b)
  }

  function Value(property: Property, sources: map<string, Source>, applicationRef: string): string
    requires property.ArtifactRef? ==> ContractKey(property.contract) in sources
  {
    match property
    case Plain => ""
    case ApplicationRef => applicationRef
    case ArtifactRef(c) => sources[ContractKey(c)].externalId
  }

  /** The spec that experimentArtifactBindings fills in. */
  ghost predicate Filled(spec: map<string, string>, properties: map<string, Property>, sources: map<string, Source>, applicationRef: string, spec': map<string, string>)
    requires Available(properties, sources)
  {
    && (forall name :: name in spec' <==> name in spec || (name in properties && properties[name] != Plain))
    && (forall name :: name in spec' ==>
          spec'[name] == if name in properties && properties[name] != Plain then Value(properties[name], sources, applicationRef) else spec[name])
  }

  predicate DistinctPaths(bindings: seq<Binding>) {
    forall i, j :: 0 <= i < j < |bindings| ==> bindings[i].path != bindings[j].path
  }

  /** The bindings it returns, one per input that a stage produces; their order is that of a
      Go map and left open. */
  ghost predicate Bound(properties: map<string, Property>, sources: map<string, Source>, bindings: seq<Binding>) {
    && (forall b :: b in bindings <==> Offers(properties, sources, b))
    && DistinctPaths(bindings)
  }

  function Restricted(properties: map<string, Property>, names: set<string>): map<string, Property> {
    map name | name in properties && name in names :: properties[name]
  }

  function StepSpec(spec: map<string, string>, name: string, property: Property, sources: map<string, Source>, applicationRef: string): map<string, string>
    requires property.ArtifactRef? ==> ContractKey(property.contract) in sources
  {
    if property == Plain then spec else spec[name := Value(property, sources, applicationRef)]
  }

  function StepBindings(bindings: seq<Binding>, name: string, property: Property, sources: map<string, Source>): seq<Binding>
    requires property.ArtifactRef? ==> ContractKey(property.contract) in sources
  {
    if property.ArtifactRef? && sources[ContractKey(property.contract)].externalId == ""
    then bindings + [Binding("/" + name, sources[ContractKey(property.contract)].stageId, "")] else bindings
  }

  /** internal/api/experiment_execution.go: experimentArtifactBindings, on a decoded schema. */
  method BindProperties(initial: map<string, string>, properties: map<string, Property>, sources: map<string, Source>, applicationRef: string)
    returns (ok: bool, spec: map<string, string>, bindings: seq<Binding>)
    ensures ok <==> Available(properties, sources)
    ensures ok ==> Filled(initial, properties, sources, applicationRef, spec) && Bound(properties, sources, bindings)
  {
    spec, bindings := initial, [];
    var todo := properties.Keys;
    ghost var done: map<string, Property> := map[];
    while todo != {}
      invariant done == Restricted(properties, properties.Keys - todo) && todo <= properties.Keys
      invariant Available(done, sources)
      invariant Filled(initial, done, sources, applicationRef, spec) && Bound(done, sources, bindings)
      decreases |todo|
    {
      var name :| name in todo;
      var property := properties[name];
      if property.ArtifactRef? && ContractKey(property.contract) !in sources {
        return false, spec, bindings;
      }
      assert name !in done;
      AvailableStep(done, sources, name, property);
      FilledStep(initial, done, sources, applicationRef, spec, name, property);
      BoundStep(done, sources, bindings, name, property);
      spec, bindings := StepSpec(spec, name, property, sources, applicationRef), StepBindings(bindings, name, property, sources);
      todo := todo - {name};
      done := done[name := property];
    }
    assert done == properties;
    return true, spec, bindings;
  }

  lemma AvailableStep(before: map<string, Property>, sources: map<string, Source>, name: string, property: Property)
    requires Available(before, sources) && (property.ArtifactRef? ==> ContractKey(property.contract) in sources)
    ensures Available(before[name := property], sources)
  {
  }

  lemma FilledStep(initial: map<string, string>, before: map<string, Property>, sources: map<string, Source>, applicationRef: string,
                   spec: map<string, string>, name: string, property: Property)
    requires name !in before && (property.ArtifactRef? ==> ContractKey(property.contract) in sources)
    requires Available(before, sources) && Available(before[name := property], sources)
    requires Filled(initial, before, sources, applicationRef, spec)
    ensures Filled(initial, before[name := property], sources, applicationRef, StepSpec(spec, name, property, sources, applicationRef))
  {
  }

  lemma OffersStep(before: map<string, Property>, sources: map<string, Source>, name: string, property: Property, b: Binding)
    requires name !in before
    ensures Offers(before[name := property], sources, b) <==>
            Offers(before, sources, b) || OffersAs(before[name := property], sources, name, b)
  {
    var after := before[name := property];
    if Offers(before, sources, b) {
      var other :| OffersAs(before, sources, other, b);
      assert OffersAs(after, sources, other, b);
    }
    if other :| OffersAs(after, sources, other, b) {
      assert other != name ==> OffersAs(before, sources, other, b);
    }
  }

  lemma NewPath(before: map<string, Property>, sources: map<string, Source>, bindings: seq<Binding>, name: string, i: nat)
    requires name !in before && Bound(before, sources, bindings) && i < |bindings|
    ensures bindings[i].path != "/" + name
  {
    assert bindings[i] in bindings;
    var other :| OffersAs(before, sources, other, bindings[i]);
    PathInjective(other, name);
  }

  /** One turn of the loop over the schema properties. */
  lemma BoundStep(before: map<string, Property>, sources: map<string, Source>, bindings: seq<Binding>, name: string, property: Property)
    requires Bound(before, sources, bindings)
    requires name !in before && (property.ArtifactRef? ==> ContractKey(property.contract) in sources)
    ensures Bound(before[name := property], sources, StepBindings(bindings, name, property, sources))
  {
    var after, bindings' := before[name := property], StepBindings(bindings, name, property, sources);
    forall b ensures b in bindings' <==> Offers(after, sources, b) {
      OffersStep(before, sources, name, property, b);
    }
    forall i | 0 <= i < |bindings| ensures bindings[i].path != "/" + name {
      NewPath(before, sources, bindings, name, i);
    }
  }

  lemma PathInjective(a: string, b: string)
    ensures "/" + a == "/" + b ==> a == b
  {
    assert ("/" + a)[1..] == a && ("/" + b)[1..] == b;
  }

  // ---- Well-typed pipelines ----

  /** Stage `j` runs a plugin that declares the output `c`. */
  predicate Declares(registry: Registry, stages: seq<Stage>, j: nat, c: Contract) {
    j < |stages| && stages[j].pluginId in registry && c in registry[stages[j].pluginId].outputs
  }

  /** The plugin of `stage` has an artifact input `name` with contract `c`. */
  predicate HasInput(registry: Registry, stage: Stage, name: string, c: Contract) {
    && stage.pluginId in registry && registry[stage.pluginId].schema.Some?
    && name in registry[stage.pluginId].schema.value && registry[stage.pluginId].schema.value[name] == ArtifactRef(c)
  }

  /** Stage `j`, before `i`, is named `id` and declares `c`. */
  predicate ProducedBefore(registry: Registry, stages: seq<Stage>, i: nat, id: string, c: Contract) {
    exists j: nat :: j < i && j < |stages| && stages[j].id == id && Declares(registry, stages, j, c)
  }

  /** Some stage runs a plugin that declares `c`. */
  predicate Produced(registry: Registry, stages: seq<Stage>, c: Contract) {
    exists j: nat :: j < |stages| && Declares(registry, stages, j, c)
  }

  predicate DeclaredEarlier(registry: Registry, stages: seq<Stage>, i: nat, c: Contract) {
    exists j: nat :: j < i && Declares(registry, stages, j, c)
  }

  /** Stage `j` is the last one before `i` that declares `c`. */
  predicate LatestBefore(registry: Registry, stages: seq<Stage>, i: nat, j: nat, c: Contract) {
    j < i && Declares(registry, stages, j, c) && forall k :: j < k < i ==> !Declares(registry, stages, k, c)
  }

  /** The last stage before `i` that declares `c` is named `id`. */
  predicate LatestProducer(registry: Registry, stages: seq<Stage>, i: nat, id: string, c: Contract) {
    exists j: nat :: j < i && LatestBefore(registry, stages, i, j, c) && stages[j].id == id
  }

  predicate BindingTyped(registry: Registry, stages: seq<Stage>, i: nat, b: Binding, name: string, c: Contract)
    requires i < |stages|
  {
    b.path == "/" + name && b.fromOutput == "" && HasInput(registry, stages[i], name, c) && LatestProducer(registry, stages, i, b.fromStage, c)
  }

  /** The input gets its artifact from a binding if an earlier stage declares the contract, and
      otherwise from an artifact that existed before. */
  predicate InputProvided(registry: Registry, externals: map<string, string>, stages: seq<Stage>, i: nat, name: string, c: Contract)
    requires i < |stages|
  {
    if DeclaredEarlier(registry, stages, i, c) then exists b :: b in stages[i].bindings && b.path == "/" + name
    else ContractKey(c) in externals && name in stages[i].spec.fields && stages[i].spec.fields[name] == externals[ContractKey(c)]
  }

  /** Every binding comes from the last earlier stage whose plugin declares the type and version
      of the input, no input is bound twice, there are no other dependencies, and every artifact
      input is provided. The application stage has no bindings and its inputs are not looked at. */
  ghost predicate StageTyped(registry: Registry, externals: map<string, string>, stages: seq<Stage>, i: nat)
    requires i < |stages|
  {
    && stages[i].pluginId in registry && stages[i].dependsOn == []
    && (forall b :: b in stages[i].bindings ==> exists name, c :: BindingTyped(registry, stages, i, b, name, c))
    && DistinctPaths(stages[i].bindings)
    && (stages[i].id == APPLICATION ==> stages[i].bindings == [])
    && (stages[i].id != APPLICATION ==>
          && registry[stages[i].pluginId].schema.Some?
          && forall name, c :: HasInput(registry, stages[i], name, c) ==> InputProvided(registry, externals, stages, i, name, c))
  }

  ghost predicate Typed(registry: Registry, externals: map<string, string>, stages: seq<Stage>) {
    forall i: nat :: i < |stages| ==> StageTyped(registry, externals, stages, i)
  }

  /** A source names the last stage that declares the contract, or, if there is none, an
      artifact that existed before. */
  ghost predicate SourceBacked(registry: Registry, externals: map<string, string>, stages: seq<Stage>, key: string, source: Source) {
    if source.externalId != "" then
      && key in externals && externals[key] == source.externalId
      && forall c :: ContractKey(c) == key ==> !Produced(registry, stages, c)
    else exists c :: ContractKey(c) == key && LatestProducer(registry, stages, |stages|, source.stageId, c)
  }

  ghost predicate Backed(registry: Registry, externals: map<string, string>, stages: seq<Stage>, sources: map<string, Source>) {
    forall key :: key in sources ==> SourceBacked(registry, externals, stages, key, sources[key])
  }

  lemma ProducedStill(registry: Registry, stages: seq<Stage>, i: nat, id: string, c: Contract, more: seq<Stage>)
    requires i <= |stages| && ProducedBefore(registry, stages, i, id, c)
    ensures ProducedBefore(registry, stages + more, i, id, c)
  {
    var j: nat :| j < i && stages[j].id == id && Declares(registry, stages, j, c);
    assert (stages + more)[j] == stages[j] && Declares(registry, stages + more, j, c);
  }

  lemma LatestIsProduced(registry: Registry, stages: seq<Stage>, i: nat, id: string, c: Contract)
    requires LatestProducer(registry, stages, i, id, c)
    ensures ProducedBefore(registry, stages, i, id, c) && DeclaredEarlier(registry, stages, i, c)
  {
  }

  /** What stands before a place does not change when stages are appended. */
  lemma EarlierStill(registry: Registry, stages: seq<Stage>, i: nat, stage: Stage, c: Contract)
    requires i <= |stages|
    ensures DeclaredEarlier(registry, stages + [stage], i, c) <==> DeclaredEarlier(registry, stages, i, c)
    ensures forall id :: LatestProducer(registry, stages + [stage], i, id, c) <==> LatestProducer(registry, stages, i, id, c)
  {
    var longer := stages + [stage];
    forall j: nat | j < i ensures Declares(registry, longer, j, c) <==> Declares(registry, stages, j, c) {
      assert longer[j] == stages[j];
    }
    forall j: nat ensures LatestBefore(registry, longer, i, j, c) <==> LatestBefore(registry, stages, i, j, c) {
    }
    forall id ensures LatestProducer(registry, longer, i, id, c) <==> LatestProducer(registry, stages, i, id, c) {
      if j: nat :| LatestBefore(registry, stages, i, j, c) && stages[j].id == id {
        assert LatestBefore(registry, longer, i, j, c) && longer[j].id == id;
      }
      if j: nat :| LatestBefore(registry, longer, i, j, c) && longer[j].id == id {
        assert LatestBefore(registry, stages, i, j, c) && stages[j].id == id;
      }
    }
  }

  lemma StageStillTyped(registry: Registry, externals: map<string, string>, stages: seq<Stage>, i: nat, stage: Stage)
    requires i < |stages| && StageTyped(registry, externals, stages, i)
    ensures StageTyped(registry, externals, stages + [stage], i)
  {
    var longer := stages + [stage];
    assert longer[i] == stages[i];
    forall b | b in longer[i].bindings ensures exists name, c :: BindingTyped(registry, longer, i, b, name, c) {
      var name, c :| BindingTyped(registry, stages, i, b, name, c);
      EarlierStill(registry, stages, i, stage, c);
      assert BindingTyped(registry, longer, i, b, name, c);
    }
    forall name, c | HasInput(registry, longer[i], name, c) && longer[i].id != APPLICATION
      ensures InputProvided(registry, externals, longer, i, name, c)
    {
      EarlierStill(registry, stages, i, stage, c);
      assert InputProvided(registry, externals, stages, i, name, c);
    }
  }

  /** The backed source of an input names the last stage that declares its contract. */
  lemma BackedProduces(registry: Registry, externals: map<string, string>, stages: seq<Stage>, c: Contract, source: Source)
    requires IsRegistry(registry) && source.externalId == "" && SourceBacked(registry, externals, stages, ContractKey(c), source)
    ensures LatestProducer(registry, stages, |stages|, source.stageId, c)
  {
    var d :| ContractKey(d) == ContractKey(c) && LatestProducer(registry, stages, |stages|, source.stageId, d);
    var j: nat :| j < |stages| && LatestBefore(registry, stages, |stages|, j, d) && stages[j].id == source.stageId;
    assert IsManifest(registry[stages[j].pluginId]);
    OutputKeyInjective(c, d);
  }

  lemma EarlierThanNew(registry: Registry, stages: seq<Stage>, stage: Stage, c: Contract)
    ensures DeclaredEarlier(registry, stages + [stage], |stages|, c) <==> Produced(registry, stages, c)
  {
    EarlierStill(registry, stages, |stages|, stage, c);
  }

  /** A stage whose spec and bindings were filled from backed sources is well typed. */
  lemma NewStageTyped(registry: Registry, externals: map<string, string>, stages: seq<Stage>, sources: map<string, Source>,
                      applicationRef: string, initial: map<string, string>, stage: Stage)
    requires IsRegistry(registry) && Backed(registry, externals, stages, sources)
    requires stage.pluginId in registry && registry[stage.pluginId].schema.Some?
    requires Available(registry[stage.pluginId].schema.value, sources)
    requires Filled(initial, registry[stage.pluginId].schema.value, sources, applicationRef, stage.spec.fields)
    requires Bound(registry[stage.pluginId].schema.value, sources, stage.bindings)
    requires stage.id != APPLICATION && stage.dependsOn == []
    ensures StageTyped(registry, externals, stages + [stage], |stages|)
  {
    var longer, n, properties := stages + [stage], |stages|, registry[stage.pluginId].schema.value;
    forall b | b in stage.bindings ensures exists name, c :: BindingTyped(registry, longer, n, b, name, c) {
      var name :| OffersAs(properties, sources, name, b);
      var c := properties[name].contract;
      BackedProduces(registry, externals, stages, c, sources[ContractKey(c)]);
      EarlierStill(registry, stages, n, stage, c);
      assert BindingTyped(registry, longer, n, b, name, c);
    }
    forall name, c | HasInput(registry, stage, name, c) ensures InputProvided(registry, externals, longer, n, name, c) {
      var source := sources[ContractKey(c)];
      assert SourceBacked(registry, externals, stages, ContractKey(c), source);
      EarlierThanNew(registry, stages, stage, c);
      if source.externalId == "" {
        BackedProduces(registry, externals, stages, c, source);
        LatestIsProduced(registry, stages, n, source.stageId, c);
        var b := Binding("/" + name, source.stageId, "");
        assert OffersAs(properties, sources, name, b);
        assert b in stage.bindings;
      }
    }
  }

  // ---- The spec of a stage ----

  /** The plugin declares the name, as the application or as an artifact. */
  predicate IsInput(properties: map<string, Property>, name: string) {
    name in properties && properties[name] != Plain
  }

  /** The value of an input: the application; nothing, if a binding fills it in when the stage
      runs; and otherwise the artifact that existed before. */
  predicate InputValue(externals: map<string, string>, applicationRef: string, property: Property, name: string, stage: Stage) {
    && name in stage.spec.fields
    && (property == ApplicationRef ==> stage.spec.fields[name] == applicationRef)
    && (property.ArtifactRef? ==>
          if exists b :: b in stage.bindings && b.path == "/" + name then stage.spec.fields[name] == ""
          else ContractKey(property.contract) in externals && stage.spec.fields[name] == externals[ContractKey(property.contract)])
  }

  /** The spec of the stage: what it was given, except for the inputs of its plugin, and nothing else. */
  ghost predicate Configured(registry: Registry, externals: map<string, string>, applicationRef: string, initial: map<string, string>, stage: Stage) {
    && stage.pluginId in registry && registry[stage.pluginId].schema.Some?
    && var (properties, fields) := (registry[stage.pluginId].schema.value, stage.spec.fields);
       && stage.spec == Spec(None, None, fields)
       && (forall name :: name in fields <==> name in initial || IsInput(properties, name))
       && (forall name :: name in initial && !IsInput(properties, name) ==> fields[name] == initial[name])
       && (forall name :: IsInput(properties, name) ==> InputValue(externals, applicationRef, properties[name], name, stage))
  }

  ghost predicate Made(registry: Registry, externals: map<string, string>, applicationRef: string, title: string, initial: map<string, string>, stage: Stage) {
    stage.title == title && Configured(registry, externals, applicationRef, initial, stage)
  }

  /** What a component was configured with; a load also learns that the network is recorded. */
  ghost predicate IsConfiguration(component: Component, timeline: bool, initial: map<string, string>) {
    var told := component.capability == "load.session.control" && timeline;
    && component.configuration.Some?
    && (forall name :: name in initial <==> name in component.configuration.value || (name == "networkTimeline" && told))
    && (forall name :: name in initial ==> initial[name] == if name == "networkTimeline" && told then "true" else component.configuration.value[name])
  }

  /** The capability stage of a component. */
  ghost predicate CapabilityMade(registry: Registry, externals: map<string, string>, applicationRef: string, component: Component, timeline: bool, stage: Stage) {
    exists initial :: IsConfiguration(component, timeline, initial) && Made(registry, externals, applicationRef, component.capability, initial, stage)
  }

  /** The targets stage of a component asks for the workloads that the component's plugin wants. */
  ghost predicate TargetsMade(registry: Registry, externals: map<string, string>, applicationRef: string, component: Component, stage: Stage) {
    && component.pluginId in registry
    && Made(registry, externals, applicationRef, "Select targets for " + component.id, map["requiredTrait" := registry[component.pluginId].requiredTrait], stage)
  }

  ghost predicate ComponentMade(registry: Registry, externals: map<string, string>, applicationRef: string, component: Component, timeline: bool,
                                before: seq<Stage>, after: seq<Stage>) {
    && |before| < |after| && CapabilityMade(registry, externals, applicationRef, component, timeline, after[|after| - 1])
    && forall k :: |before| <= k < |after| - 1 ==> TargetsMade(registry, externals, applicationRef, component, after[k])
  }

  lemma ConfigurationTold(component: Component, timeline: bool)
    requires component.configuration.Some?
    ensures var spec := component.configuration.value;
      IsConfiguration(component, timeline, if component.capability == LOAD && timeline then spec["networkTimeline" := "true"] else spec)
  {
  }

  lemma CapabilityIsMade(registry: Registry, externals: map<string, string>, applicationRef: string, component: Component, timeline: bool,
                         initial: map<string, string>, stage: Stage)
    requires IsConfiguration(component, timeline, initial) && Made(registry, externals, applicationRef, component.capability, initial, stage)
    ensures CapabilityMade(registry, externals, applicationRef, component, timeline, stage)
  {
  }

  /** An artifact input of a stage that was bound from backed sources. */
  lemma ArtifactValue(registry: Registry, externals: map<string, string>, stages: seq<Stage>, sources: map<string, Source>, properties: map<string, Property>,
                      name: string, stage: Stage)
    requires Backed(registry, externals, stages, sources) && Available(properties, sources) && Bound(properties, sources, stage.bindings)
    requires name in properties && properties[name].ArtifactRef?
    requires name in stage.spec.fields && stage.spec.fields[name] == sources[ContractKey(properties[name].contract)].externalId
    ensures InputValue(externals, "", properties[name], name, stage)
  {
    var key := ContractKey(properties[name].contract);
    assert SourceBacked(registry, externals, stages, key, sources[key]);
    if sources[key].externalId == "" {
      var b := Binding("/" + name, sources[key].stageId, "");
      assert OffersAs(properties, sources, name, b);
      assert b in stage.bindings && b.path == "/" + name;
    } else {
      forall b | b in stage.bindings ensures b.path != "/" + name {
        var other :| OffersAs(properties, sources, other, b);
        PathInjective(other, name);
      }
    }
  }

  /** A stage that was filled from backed sources is configured as it was asked to be. */
  lemma FilledIsConfigured(registry: Registry, externals: map<string, string>, stages: seq<Stage>, sources: map<string, Source>,
                           applicationRef: string, initial: map<string, string>, stage: Stage)
    requires Backed(registry, externals, stages, sources) && stage.pluginId in registry && registry[stage.pluginId].schema.Some?
    requires Available(registry[stage.pluginId].schema.value, sources)
    requires Filled(initial, registry[stage.pluginId].schema.value, sources, applicationRef, stage.spec.fields)
    requires Bound(registry[stage.pluginId].schema.value, sources, stage.bindings) && stage.spec == Spec(None, None, stage.spec.fields)
    ensures Configured(registry, externals, applicationRef, initial, stage)
  {
    var properties := registry[stage.pluginId].schema.value;
    forall name | IsInput(properties, name) ensures InputValue(externals, applicationRef, properties[name], name, stage) {
      if properties[name].ArtifactRef? {
        ArtifactValue(registry, externals, stages, sources, properties, name, stage);
      }
    }
  }

  // ---- The latest producer of every contract ----

  /** internal/api/experiment_execution.go: registerExperimentOutputs. */
  function Registered(sources: map<string, Source>, id: string, outputs: seq<Contract>): map<string, Source> {
    if outputs == [] then sources
    else Registered(sources, id, outputs[..|outputs| - 1])[ContractKey(outputs[|outputs| - 1]) := Source("", id)]
  }

  method RegisterOutputs(initial: map<string, Source>, id: string, outputs: seq<Contract>) returns (sources: map<string, Source>)
    ensures sources == Registered(initial, id, outputs)
  {
    sources := initial;
    for k := 0 to |outputs|
      invariant sources == Registered(initial, id, outputs[..k])
    {
      assert outputs[..k + 1][..k] == outputs[..k];
      sources := sources[ContractKey(outputs[k]) := Source("", id)];
    }
    assert outputs[..|outputs|] == outputs;
  }

  lemma {:induction false} RegisteredMeaning(sources: map<string, Source>, id: string, outputs: seq<Contract>, key: string)
    ensures key in Registered(sources, id, outputs) <==> key in sources || exists c :: c in outputs && ContractKey(c) == key
    ensures (exists c :: c in outputs && ContractKey(c) == key) ==> Registered(sources, id, outputs)[key] == Source("", id)
    ensures key in sources && !(exists c :: c in outputs && ContractKey(c) == key) ==> Registered(sources, id, outputs)[key] == sources[key]
  {
    if outputs != [] {
      var n := |outputs| - 1;
      RegisteredMeaning(sources, id, outputs[..n], key);
      assert outputs == outputs[..n] + [outputs[n]];
      assert ContractKey(outputs[n]) == key ==> outputs[n] in outputs;
    }
  }

  /** Registering the outputs of the last stage keeps the sources backed. */
  lemma RegisteredBacked(registry: Registry, externals: map<string, string>, stages: seq<Stage>, sources: map<string, Source>, stage: Stage)
    requires stage.pluginId in registry && Backed(registry, externals, stages, sources)
    ensures Backed(registry, externals, stages + [stage], Registered(sources, stage.id, registry[stage.pluginId].outputs))
  {
    var longer, outputs := stages + [stage], registry[stage.pluginId].outputs;
    var after := Registered(sources, stage.id, outputs);
    forall key | key in after ensures SourceBacked(registry, externals, longer, key, after[key]) {
      RegisteredMeaning(sources, stage.id, outputs, key);
      if c :| c in outputs && ContractKey(c) == key {
        assert longer[|stages|] == stage && LatestBefore(registry, longer, |longer|, |stages|, c);
        assert LatestProducer(registry, longer, |longer|, stage.id, c);
      } else {
        SourceStillBacked(registry, externals, stages, key, sources[key], stage);
      }
    }
  }

  /** A source stays backed by a stage that does not declare its contract. */
  lemma SourceStillBacked(registry: Registry, externals: map<string, string>, stages: seq<Stage>, key: string, source: Source, stage: Stage)
    requires stage.pluginId in registry && SourceBacked(registry, externals, stages, key, source)
    requires forall c :: c in registry[stage.pluginId].outputs ==> ContractKey(c) != key
    ensures SourceBacked(registry, externals, stages + [stage], key, source)
  {
    var longer := stages + [stage];
    if source.externalId == "" {
      var c :| ContractKey(c) == key && LatestProducer(registry, stages, |stages|, source.stageId, c);
      var j: nat :| j < |stages| && LatestBefore(registry, stages, |stages|, j, c) && stages[j].id == source.stageId;
      forall k: nat | k < |longer| ensures Declares(registry, longer, k, c) <==> k < |stages| && Declares(registry, stages, k, c) {
        assert k < |stages| ==> longer[k] == stages[k];
      }
      assert LatestBefore(registry, longer, |longer|, j, c) && longer[j].id == source.stageId;
    } else {
      forall c | ContractKey(c) == key ensures !Produced(registry, longer, c) {
        ProducedStep(registry, stages, stage, c);
      }
    }
  }

  // ---- When a stage can be bound ----

  /** The sources are the existing artifacts and everything the stages declare. */
  ghost predicate SourcesKnown(registry: Registry, externals: map<string, string>, stages: seq<Stage>, sources: map<string, Source>) {
    forall key :: key in sources <==> key in externals || exists c :: ContractKey(c) == key && Produced(registry, stages, c)
  }

  /** The plugin's schema can be read, and each of its artifact inputs exists or is declared by
      one of the stages. */
  ghost predicate Bindable(registry: Registry, externals: map<string, string>, stages: seq<Stage>, m: Manifest) {
    && m.schema.Some?
    && forall name, c :: name in m.schema.value && m.schema.value[name] == ArtifactRef(c) ==>
         ContractKey(c) in externals || Produced(registry, stages, c)
  }

  lemma AvailableMeaning(registry: Registry, externals: map<string, string>, stages: seq<Stage>, sources: map<string, Source>, m: Manifest)
    requires IsRegistry(registry) && SourcesKnown(registry, externals, stages, sources)
    ensures Bindable(registry, externals, stages, m) <==> m.schema.Some? && Available(m.schema.value, sources)
  {
    if m.schema.Some? {
      var properties := m.schema.value;
      forall name, c | name in properties && properties[name] == ArtifactRef(c)
        ensures ContractKey(c) in sources <==> ContractKey(c) in externals || Produced(registry, stages, c)
      {
        if d :| ContractKey(d) == ContractKey(c) && Produced(registry, stages, d) {
          var j: nat :| j < |stages| && Declares(registry, stages, j, d);
          assert IsManifest(registry[stages[j].pluginId]);
          OutputKeyInjective(c, d);
        }
      }
      assert forall name :: name in properties && properties[name].ArtifactRef? ==> properties[name] == ArtifactRef(properties[name].contract);
    }
  }

  lemma ProducedStep(registry: Registry, stages: seq<Stage>, stage: Stage, c: Contract)
    requires stage.pluginId in registry
    ensures Produced(registry, stages + [stage], c) <==> Produced(registry, stages, c) || c in registry[stage.pluginId].outputs
  {
    var longer := stages + [stage];
    if j: nat :| j < |stages| && Declares(registry, stages, j, c) {
      assert Declares(registry, longer, j, c);
    }
    if c in registry[stage.pluginId].outputs {
      assert Declares(registry, longer, |stages|, c);
    }
    if j: nat :| j < |longer| && Declares(registry, longer, j, c) {
      assert j < |stages| ==> Declares(registry, stages, j, c);
    }
  }

  lemma RegisteredKnown(registry: Registry, externals: map<string, string>, stages: seq<Stage>, sources: map<string, Source>, stage: Stage)
    requires stage.pluginId in registry && SourcesKnown(registry, externals, stages, sources)
    ensures SourcesKnown(registry, externals, stages + [stage], Registered(sources, stage.id, registry[stage.pluginId].outputs))
  {
    var longer, outputs := stages + [stage], registry[stage.pluginId].outputs;
    var after := Registered(sources, stage.id, outputs);
    forall key ensures key in after <==> key in externals || exists c :: ContractKey(c) == key && Produced(registry, longer, c) {
      RegisteredMeaning(sources, stage.id, outputs, key);
      if c :| ContractKey(c) == key && Produced(registry, stages, c) {
        ProducedStep(registry, stages, stage, c);
      }
      if c :| c in outputs && ContractKey(c) == key {
        ProducedStep(registry, stages, stage, c);
      }
      if c :| ContractKey(c) == key && Produced(registry, longer, c) {
        ProducedStep(registry, stages, stage, c);
      }
    }
  }

  // ---- Components ----

  const CONNECTION: Contract := Contract("ClusterConnection", "v1alpha1")
  const OBSERVABILITY: Contract := Contract("ObservabilityCapability", "v1alpha1")
  const PLATFORM: Contract := Contract("ManagedPlatformCapability", "v1alpha1")
  const TARGETS: Contract := Contract("TargetBinding", "v1alpha1")

  const DESCHEDULER: string := "descheduler.kubernetes.install"
  const LOAD: string := "load.session.control"
  const METRICS: string := "metrics.timeseries.collect"

  const APPLICATION: string := "application"
  const PREPARE: string := "prepare"
  const DEPLOY: string := "deploy"

  /** A configured component; a configuration that is no JSON object is None. */
  datatype Component = Component(id: string, capability: string, pluginId: string, configuration: Option<map<string, string>>)

  function TargetsId(index: nat): (id: string)
    ensures id != [] && id[0] == 't'
  {
    "targets-" + Decimal(index + 1)
  }

  function CapabilityId(index: nat): (id: string)
    ensures id != [] && id[0] == 'c'
  {
    "capability-" + Decimal(index + 1)
  }

  predicate Needs(m: Manifest, c: Contract) {
    c in m.inputs
  }

  /** What the compiler asks of a component besides its inputs: a plugin that needs targets
      says which workloads it wants, and the configuration is a JSON object. */
  predicate ComponentReady(registry: Registry, component: Component)
    requires component.pluginId in registry
  {
    && (Needs(registry[component.pluginId], TARGETS) ==> registry[component.pluginId].requiredTrait != "")
    && component.configuration.Some?
  }

  /** The stages one component expands to. */
  function NamesOf(registry: Registry, component: Component, index: nat): seq<string>
    requires component.pluginId in registry
  {
    (if Needs(registry[component.pluginId], TARGETS) then [TargetsId(index)] else []) + [CapabilityId(index)]
  }

  lemma CapabilityIdInjective(m: nat, n: nat)
    requires CapabilityId(m) == CapabilityId(n)
    ensures m == n
  {
    assert CapabilityId(m)[|"capability-"|..] == Decimal(m + 1) && CapabilityId(n)[|"capability-"|..] == Decimal(n + 1);
    DecimalInjective(m + 1, n + 1);
  }

  lemma TargetsIdInjective(m: nat, n: nat)
    requires TargetsId(m) == TargetsId(n)
    ensures m == n
  {
    assert TargetsId(m)[|"targets-"|..] == Decimal(m + 1) && TargetsId(n)[|"targets-"|..] == Decimal(n + 1);
    DecimalInjective(m + 1, n + 1);
  }

  /** The stage takes its target binding from the targets stage of component `index`. */
  ghost predicate OwnTargets(registry: Registry, stage: Stage, index: nat) {
    stage.pluginId in registry && Needs(registry[stage.pluginId], TARGETS) ==>
      forall name, b :: HasInput(registry, stage, name, TARGETS) && b in stage.bindings && b.path == "/" + name ==> b.fromStage == TargetsId(index)
  }

  /** No source is produced by stage `id` any more. */
  predicate Forgotten(sources: map<string, Source>, id: string) {
    forall key :: key in sources && sources[key].externalId == "" ==> sources[key].stageId != id
  }

  predicate BindsFrom(stage: Stage, id: string) {
    exists b :: b in stage.bindings && b.fromStage == id
  }

  lemma {:induction false} RegisteredForgets(sources: map<string, Source>, id: string, outputs: seq<Contract>, other: string)
    requires Forgotten(sources, other) && id != other
    ensures Forgotten(Registered(sources, id, outputs), other)
  {
    if outputs != [] {
      RegisteredForgets(sources, id, outputs[..|outputs| - 1], other);
    }
  }

  lemma ForgottenNotBound(properties: map<string, Property>, sources: map<string, Source>, stage: Stage, id: string)
    requires Bound(properties, sources, stage.bindings) && Forgotten(sources, id)
    ensures !BindsFrom(stage, id)
  {
    forall b | b in stage.bindings ensures b.fromStage != id {
      var name :| OffersAs(properties, sources, name, b);
    }
  }

  function ResultOutput(stage: string, c: Contract): Output {
    Output(stage, "", c.artifactType, c.version)
  }

  function ResultContract(output: Output): Contract {
    Contract(output.artifactType, output.version)
  }

  /** A component with exactly one output makes it the result. */
  function ResultAfter(m: Manifest, index: nat, result: Option<Output>): Option<Output> {
    if |m.outputs| == 1 then Some(ResultOutput(CapabilityId(index), m.outputs[0])) else result
  }

  // ---- The compiler ----

  datatype State = State(stages: seq<Stage>, sources: map<string, Source>, result: Option<Output>)

  /** The state that the closures of experimentPipelineForCluster share: the stages so far,
      the latest producers and the result. */
  class Compiler {
    const registry: Registry
    const applicationRef: string
    const externals: map<string, string>
    var stages: seq<Stage>
    var sources: map<string, Source>
    var result: Option<Output>

    constructor (registry: Registry, applicationRef: string, externals: map<string, string>)
      requires IsRegistry(registry) && forall key :: key in externals ==> externals[key] != ""
      ensures Valid() && stages == [] && result == None && AllForgotten()
      ensures this.registry == registry && this.applicationRef == applicationRef && this.externals == externals
    {
      this.registry, this.applicationRef, this.externals := registry, applicationRef, externals;
      stages, result := [], None;
      sources := map key | key in externals :: Source(externals[key], "");
    }

    ghost predicate Valid()
      reads this
    {
      && IsRegistry(registry)
      && Typed(registry, externals, stages)
      && Backed(registry, externals, stages, sources)
      && SourcesKnown(registry, externals, stages, sources)
      && (result.Some? ==> ProducedBefore(registry, stages, |stages|, result.value.stage, ResultContract(result.value)))
    }

    ghost function Snapshot(): State
      reads this
    {
      State(stages, sources, result)
    }

    ghost predicate AllForgotten()
      reads this
    {
      forall key :: key in sources ==> sources[key].externalId != ""
    }

    /** Binds, appends and registers one stage. */
    method AppendStage(id: string, manifest: Manifest, title: string, initial: map<string, string>) returns (failure: Option<Failure>)
      requires Valid() && manifest.id in registry && registry[manifest.id] == manifest && id != APPLICATION
      modifies this`stages, this`sources
      ensures Valid()
      ensures failure.Some? ==> stages == old(stages) && sources == old(sources)
      ensures failure.None? <==> Bindable(registry, externals, old(stages), manifest)
      ensures failure.None? ==> manifest.schema.Some?
      ensures failure.None? ==> Appended(old(stages), stages, id, manifest.id)
      ensures failure.None? ==> Bound(manifest.schema.value, old(sources), stages[|stages| - 1].bindings)
      ensures failure.None? ==> sources == Registered(old(sources), id, manifest.outputs)
      ensures failure.None? ==> Made(registry, externals, applicationRef, title, initial, stages[|stages| - 1])
    {
      AvailableMeaning(registry, externals, stages, sources, manifest);
      if manifest.schema.None? {
        return Some(InvalidPlugin);
      }
      var ok, spec, bindings := BindProperties(initial, manifest.schema.value, sources, applicationRef);
      if !ok {
        return Some(MissingInput);
      }
      var stage := Stage(id, manifest.id, title, Spec(None, None, spec), [], bindings);
      NewStageTyped(registry, externals, stages, sources, applicationRef, initial, stage);
      FilledIsConfigured(registry, externals, stages, sources, applicationRef, initial, stage);
      AppendKeeps(registry, externals, stages, sources, stage, result);
      stages := stages + [stage];
      sources := RegisterOutputs(sources, id, manifest.outputs);
      return None;
    }

    /** The first stage: its spec is complete and nothing is bound. */
    method AppendApplication(manifest: Manifest, spec: map<string, string>)
      requires Valid() && manifest.id in registry && registry[manifest.id] == manifest
      modifies this`stages, this`sources
      ensures Valid()
      ensures Appended(old(stages), stages, APPLICATION, manifest.id)
      ensures stages[|stages| - 1] == Stage(APPLICATION, manifest.id, "Prepare application package", Spec(None, None, spec), [], [])
      ensures sources == Registered(old(sources), APPLICATION, manifest.outputs)
    {
      var stage := Stage(APPLICATION, manifest.id, "Prepare application package", Spec(None, None, spec), [], []);
      AppendKeeps(registry, externals, stages, sources, stage, result);
      stages := stages + [stage];
      sources := RegisterOutputs(sources, APPLICATION, manifest.outputs);
    }

    /** The targets stage of a component. */
    method AppendTargets(component: Component, index: nat, binding: Manifest, requiredTrait: string) returns (failure: Option<Failure>)
      requires Valid() && binding.id in registry && registry[binding.id] == binding
      modifies this`stages, this`sources
      ensures Valid()
      ensures failure.None? <==> Bindable(registry, externals, old(stages), binding)
      ensures failure.None? ==> Appended(old(stages), stages, TargetsId(index), binding.id)
      ensures failure.None? ==> AvoidsPrepare(old(stages), old(sources), stages, sources)
      ensures failure.None? && TARGETS in binding.outputs ==> FromTargets(sources, index)
      ensures failure.None? ==> Made(registry, externals, applicationRef, "Select targets for " + component.id, map["requiredTrait" := requiredTrait], stages[|stages| - 1])
    {
      failure := AppendStage(TargetsId(index), binding, "Select targets for " + component.id, map["requiredTrait" := requiredTrait]);
      if failure.None? {
        RegisteredMeaning(old(sources), TargetsId(index), binding.outputs, ContractKey(TARGETS));
        AppendAvoidsPrepare(old(stages), old(sources), stages, TargetsId(index), binding);
      }
    }

    /** A component with a single output makes it the result of the pipeline. */
    method RecordResult(index: nat, manifest: Manifest)
      requires Valid() && manifest.id in registry && registry[manifest.id] == manifest && stages != []
      requires stages[|stages| - 1].id == CapabilityId(index) && stages[|stages| - 1].pluginId == manifest.id
      modifies this`result
      ensures Valid() && result == ResultAfter(manifest, index, old(result))
    {
      if |manifest.outputs| == 1 {
        LastDeclares(registry, stages, manifest, manifest.outputs[0]);
        result := Some(ResultOutput(CapabilityId(index), manifest.outputs[0]));
      }
    }

    /** The capability stage of a component. */
    method AppendCapability(component: Component, index: nat, manifest: Manifest, spec: map<string, string>) returns (failure: Option<Failure>)
      requires Valid() && manifest.id in registry && registry[manifest.id] == manifest
      modifies this
      ensures Valid()
      ensures failure.None? <==> Bindable(registry, externals, old(stages), manifest)
      ensures failure.None? ==> CapabilityStep(registry, old(Snapshot()), Snapshot(), manifest, index)
      ensures failure.None? ==> Made(registry, externals, applicationRef, component.capability, spec, stages[|stages| - 1])
    {
      failure := AppendStage(CapabilityId(index), manifest, component.capability, spec);
      if failure.None? {
        CapabilityAppended(registry, old(stages), old(sources), stages, sources, index, manifest);
        RecordResult(index, manifest);
      }
    }

    /** The first half of the closure appendComponent: a targets stage if the plugin asks for one. */
    method AppendTargetsIfNeeded(component: Component, index: nat, binding: Manifest) returns (failure: Option<Failure>)
      requires Valid() && binding.id in registry && registry[binding.id] == binding
      requires component.pluginId in registry
      modifies this`stages, this`sources
      ensures Valid()
      ensures failure.None? ==> TargetsStep(registry, old(Snapshot()), Snapshot(), component, index, binding)
      ensures failure.None? && Needs(registry[component.pluginId], TARGETS) ==> TargetsMade(registry, externals, applicationRef, component, stages[|stages| - 1])
      ensures failure.Some? ==> !ComponentReady(registry, component) || Stuck(registry, externals, old(stages), component, index, binding)
    {
      var manifest := registry[component.pluginId];
      if !Needs(manifest, TARGETS) {
        return None;
      }
      if manifest.requiredTrait == "" {
        return Some(InvalidPlugin);
      }
      failure := AppendTargets(component, index, binding, manifest.requiredTrait);
    }

    /** The closure appendComponent. */
    method AppendComponent(component: Component, index: nat, binding: Manifest, timeline: bool) returns (failure: Option<Failure>)
      requires Valid() && binding.id in registry && registry[binding.id] == binding
      requires component.pluginId in registry
      modifies this
      ensures Valid()
      ensures failure.None? ==> ComponentStep(registry, old(Snapshot()), Snapshot(), component, index, binding)
      ensures failure.None? ==> ComponentMade(registry, externals, applicationRef, component, timeline, old(stages), stages)
      ensures failure.Some? ==> !ComponentReady(registry, component) || Stuck(registry, externals, old(stages), component, index, binding)
    {
      failure := AppendTargetsIfNeeded(component, index, binding);
      ghost var middle := Snapshot();
      if failure.Some? {
        return;
      }
      failure := AppendConfigured(component, index, timeline);
      if failure.None? {
        StepsMakeComponent(registry, old(Snapshot()), middle, Snapshot(), component, index, binding);
        ComponentIsMade(registry, externals, applicationRef, component, timeline, index, binding.id, old(stages), middle.stages, stages);
      } else if component.configuration.Some? {
        StuckBehind(registry, externals, old(stages), middle.stages, component, index, binding);
      }
    }

    /** The second half: the capability stage, from the saved configuration. */
    method AppendConfigured(component: Component, index: nat, timeline: bool) returns (failure: Option<Failure>)
      requires Valid() && component.pluginId in registry
      modifies this
      ensures Valid()
      ensures failure.None? <==> component.configuration.Some? && Bindable(registry, externals, old(stages), registry[component.pluginId])
      ensures failure.None? ==> CapabilityStep(registry, old(Snapshot()), Snapshot(), registry[component.pluginId], index)
      ensures failure.None? ==> CapabilityMade(registry, externals, applicationRef, component, timeline, stages[|stages| - 1])
    {
      if component.configuration.None? {
        return Some(InvalidSnapshot);
      }
      var spec := component.configuration.value;
      if component.capability == LOAD && timeline {
        spec := spec["networkTimeline" := "true"];
      }
      ConfigurationTold(component, timeline);
      failure := AppendCapability(component, index, registry[component.pluginId], spec);
      if failure.None? {
        CapabilityIsMade(registry, externals, applicationRef, component, timeline, spec, stages[|stages| - 1]);
      }
    }
  }

  lemma LastDeclares(registry: Registry, stages: seq<Stage>, manifest: Manifest, c: Contract)
    requires stages != [] && stages[|stages| - 1].pluginId == manifest.id && manifest.id in registry && registry[manifest.id] == manifest
    requires c in manifest.outputs
    ensures ProducedBefore(registry, stages, |stages|, stages[|stages| - 1].id, c)
  {
    assert Declares(registry, stages, |stages| - 1, c);
  }

  /** One stage was appended. */
  predicate Appended(before: seq<Stage>, after: seq<Stage>, id: string, pluginId: string) {
    && |after| == |before| + 1 && after[..|before|] == before
    && after[|before|].id == id && after[|before|].pluginId == pluginId
  }

  /** The latest target binding comes from the targets stage of component `index`. */
  predicate FromTargets(sources: map<string, Source>, index: nat) {
    ContractKey(TARGETS) in sources && sources[ContractKey(TARGETS)] == Source("", TargetsId(index))
  }

  /** The targets stage was appended, if the component needs one. */
  ghost predicate TargetsStep(registry: Registry, before: State, after: State, component: Component, index: nat, binding: Manifest)
    requires component.pluginId in registry
  {
    && TargetsAdded(registry, before.stages, after.stages, component, index, binding.id)
    && AvoidsPrepare(before.stages, before.sources, after.stages, after.sources) && after.result == before.result
    && (Needs(registry[component.pluginId], TARGETS) ==>
          registry[component.pluginId].requiredTrait != "" && (TARGETS in binding.outputs ==> FromTargets(after.sources, index)))
  }

  /** The capability stage was appended, for a plugin. */
  ghost predicate CapabilityStep(registry: Registry, before: State, after: State, manifest: Manifest, index: nat) {
    && Appended(before.stages, after.stages, CapabilityId(index), manifest.id)
    && AvoidsPrepare(before.stages, before.sources, after.stages, after.sources)
    && (FromTargets(before.sources, index) ==> OwnTargets(registry, after.stages[|before.stages|], index))
    && after.result == ResultAfter(manifest, index, before.result)
  }

  /** All stages of a component were appended. */
  ghost predicate ComponentStep(registry: Registry, before: State, after: State, component: Component, index: nat, binding: Manifest)
    requires component.pluginId in registry
  {
    && ComponentReady(registry, component)
    && Expands(registry, before.stages, after.stages, component, index, binding.id)
    && (TARGETS in binding.outputs ==> OwnTargets(registry, after.stages[|after.stages| - 1], index))
    && AvoidsPrepare(before.stages, before.sources, after.stages, after.sources)
    && after.result == ResultAfter(registry[component.pluginId], index, before.result)
  }

  lemma StepsMakeComponent(registry: Registry, before: State, middle: State, after: State, component: Component, index: nat, binding: Manifest)
    requires IsRegistry(registry) && component.pluginId in registry && component.configuration.Some?
    requires TargetsStep(registry, before, middle, component, index, binding)
    requires CapabilityStep(registry, middle, after, registry[component.pluginId], index)
    ensures ComponentStep(registry, before, after, component, index, binding)
  {
    ExpandsInSteps(registry, before.stages, middle.stages, after.stages, component, index, binding.id);
    AvoidsInSteps(before.stages, before.sources, middle.stages, middle.sources, after.stages, after.sources);
  }

  lemma ComponentIsMade(registry: Registry, externals: map<string, string>, applicationRef: string, component: Component, timeline: bool, index: nat,
                        bindingId: string, before: seq<Stage>, middle: seq<Stage>, after: seq<Stage>)
    requires component.pluginId in registry && TargetsAdded(registry, before, middle, component, index, bindingId)
    requires Needs(registry[component.pluginId], TARGETS) ==> |middle| > 0 && TargetsMade(registry, externals, applicationRef, component, middle[|middle| - 1])
    requires |after| == |middle| + 1 && after[..|middle|] == middle
    requires CapabilityMade(registry, externals, applicationRef, component, timeline, after[|after| - 1])
    ensures ComponentMade(registry, externals, applicationRef, component, timeline, before, after)
  {
    assert |middle| > 0 ==> after[|middle| - 1] == middle[|middle| - 1];
  }

  predicate TargetsAdded(registry: Registry, before: seq<Stage>, after: seq<Stage>, component: Component, index: nat, bindingId: string)
    requires component.pluginId in registry
  {
    if Needs(registry[component.pluginId], TARGETS) then Appended(before, after, TargetsId(index), bindingId) else after == before
  }

  /** A stage of the component cannot be bound: its targets stage, or its own stage behind that. */
  ghost predicate Stuck(registry: Registry, externals: map<string, string>, stages: seq<Stage>, component: Component, index: nat, binding: Manifest)
    requires component.pluginId in registry
  {
    || (Needs(registry[component.pluginId], TARGETS) && !Bindable(registry, externals, stages, binding))
    || exists middle :: TargetsAdded(registry, stages, middle, component, index, binding.id)
                        && !Bindable(registry, externals, middle, registry[component.pluginId])
  }

  lemma StuckBehind(registry: Registry, externals: map<string, string>, stages: seq<Stage>, middle: seq<Stage>, component: Component, index: nat, binding: Manifest)
    requires component.pluginId in registry && TargetsAdded(registry, stages, middle, component, index, binding.id)
    requires !Bindable(registry, externals, middle, registry[component.pluginId])
    ensures Stuck(registry, externals, stages, component, index, binding)
  {
  }

  /** The stages of one component were appended, with their plugins. */
  predicate Expands(registry: Registry, before: seq<Stage>, after: seq<Stage>, component: Component, index: nat, bindingId: string)
    requires component.pluginId in registry
  {
    && Extends(before, after) && |after| > |before|
    && StageIds(after) == StageIds(before) + NamesOf(registry, component, index)
    && after[|after| - 1].id == CapabilityId(index) && after[|after| - 1].pluginId == component.pluginId
    && forall k :: |before| <= k < |after| - 1 ==> after[k].id == TargetsId(index) && after[k].pluginId == bindingId
  }

  lemma ExpandsInSteps(registry: Registry, before: seq<Stage>, middle: seq<Stage>, after: seq<Stage>, component: Component, index: nat, bindingId: string)
    requires component.pluginId in registry && Appended(middle, after, CapabilityId(index), component.pluginId)
    requires TargetsAdded(registry, before, middle, component, index, bindingId)
    ensures Expands(registry, before, after, component, index, bindingId)
  {
    assert after[..|before|] == middle[..|before|];
    assert StageIds(after) == StageIds(middle) + [CapabilityId(index)];
    if Needs(registry[component.pluginId], TARGETS) {
      assert StageIds(middle) == StageIds(before) + [TargetsId(index)];
      assert after[|before|] == middle[|before|];
    }
  }

  /** Once no source comes from the prepare stage, nothing appended binds from it. */
  predicate AvoidsPrepare(before: seq<Stage>, known: map<string, Source>, after: seq<Stage>, sources: map<string, Source>) {
    Forgotten(known, PREPARE) ==>
      Forgotten(sources, PREPARE) && forall i :: |before| <= i < |after| ==> !BindsFrom(after[i], PREPARE)
  }

  lemma AvoidsInSteps(before: seq<Stage>, first: map<string, Source>, middle: seq<Stage>, second: map<string, Source>, after: seq<Stage>, third: map<string, Source>)
    requires AvoidsPrepare(before, first, middle, second) && AvoidsPrepare(middle, second, after, third)
    requires |before| <= |middle| && Extends(middle, after)
    ensures AvoidsPrepare(before, first, after, third)
  {
    if Forgotten(first, PREPARE) {
      forall i | |before| <= i < |after| ensures !BindsFrom(after[i], PREPARE) {
        if i < |middle| {
          assert after[i] == middle[i];
        }
      }
    }
  }

  lemma AppendAvoidsPrepare(before: seq<Stage>, known: map<string, Source>, after: seq<Stage>, id: string, manifest: Manifest)
    requires Appended(before, after, id, manifest.id) && id != PREPARE && manifest.schema.Some?
    requires Bound(manifest.schema.value, known, after[|before|].bindings)
    ensures AvoidsPrepare(before, known, after, Registered(known, id, manifest.outputs))
  {
    if Forgotten(known, PREPARE) {
      ForgottenNotBound(manifest.schema.value, known, after[|before|], PREPARE);
      RegisteredForgets(known, id, manifest.outputs, PREPARE);
    }
  }

  /** What appending a capability stage means for its bindings. */
  lemma CapabilityAppended(registry: Registry, before: seq<Stage>, known: map<string, Source>, after: seq<Stage>, sources: map<string, Source>,
                           index: nat, manifest: Manifest)
    requires Appended(before, after, CapabilityId(index), manifest.id) && sources == Registered(known, CapabilityId(index), manifest.outputs)
    requires manifest.id in registry && registry[manifest.id] == manifest && manifest.schema.Some?
    requires Bound(manifest.schema.value, known, after[|before|].bindings)
    ensures AvoidsPrepare(before, known, after, sources)
    ensures FromTargets(known, index) ==> OwnTargets(registry, after[|before|], index)
  {
    AppendAvoidsPrepare(before, known, after, CapabilityId(index), manifest);
    if FromTargets(known, index) {
      TargetsBound(registry, known, after[|before|], index);
    }
  }

  predicate Extends(before: seq<Stage>, after: seq<Stage>) {
    |before| <= |after| && after[..|before|] == before
  }

  /** With the targets stage registered last, the target binding comes from it. */
  lemma TargetsBound(registry: Registry, sources: map<string, Source>, stage: Stage, index: nat)
    requires stage.pluginId in registry && registry[stage.pluginId].schema.Some?
    requires Bound(registry[stage.pluginId].schema.value, sources, stage.bindings)
    requires FromTargets(sources, index)
    ensures OwnTargets(registry, stage, index)
  {
    var properties := registry[stage.pluginId].schema.value;
    forall name, b | HasInput(registry, stage, name, TARGETS) && b in stage.bindings && b.path == "/" + name
      ensures b.fromStage == TargetsId(index)
    {
      var other :| OffersAs(properties, sources, other, b);
      PathInjective(other, name);
    }
  }

  lemma AppendKeeps(registry: Registry, externals: map<string, string>, stages: seq<Stage>, sources: map<string, Source>, stage: Stage, result: Option<Output>)
    requires Typed(registry, externals, stages) && Backed(registry, externals, stages, sources) && stage.pluginId in registry
    requires SourcesKnown(registry, externals, stages, sources)
    requires StageTyped(registry, externals, stages + [stage], |stages|)
    requires result.Some? ==> ProducedBefore(registry, stages, |stages|, result.value.stage, ResultContract(result.value))
    ensures Typed(registry, externals, stages + [stage])
    ensures Backed(registry, externals, stages + [stage], Registered(sources, stage.id, registry[stage.pluginId].outputs))
    ensures SourcesKnown(registry, externals, stages + [stage], Registered(sources, stage.id, registry[stage.pluginId].outputs))
    ensures result.Some? ==> ProducedBefore(registry, stages + [stage], |stages| + 1, result.value.stage, ResultContract(result.value))
  {
    forall i: nat | i < |stages| ensures StageTyped(registry, externals, stages + [stage], i) {
      StageStillTyped(registry, externals, stages, i, stage);
    }
    RegisteredBacked(registry, externals, stages, sources, stage);
    RegisteredKnown(registry, externals, stages, sources, stage);
    if result.Some? {
      ProducedStill(registry, stages, |stages|, result.value.stage, ResultContract(result.value), [stage]);
      var j: nat :| j < |stages| && (stages + [stage])[j].id == result.value.stage && Declares(registry, stages + [stage], j, ResultContract(result.value));
    }
  }
}
