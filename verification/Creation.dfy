/** How a multi-cluster pipeline is assembled: internal/api/multiclusters.go prefixes the
    stages of every prepared member and appends the mesh, internal/api/multicluster_ssh.go
    rebinds the machine key to the first member, and the planner adds the barriers. */
module Creation {
  import opened Text
  import opened Pipelines
  import opened Scheduler
  import opened Planner
  import opened MultiCluster

  /** The stages prepareManagedCluster returns: the five phases, bound backwards. */
  predicate Prepared(stages: seq<Stage>) {
    && |stages| == 5
    && (forall k :: 0 <= k < 5 ==> stages[k].id == PHASES[k] && stages[k].dependsOn == [])
    && BackwardEdges(stages)
  }

  datatype Member = Member(name: string, stages: seq<Stage>)

  function PrefixedBindings(m: nat, bindings: seq<Binding>): (result: seq<Binding>)
    ensures |result| == |bindings|
  {
    seq(|bindings|, b requires 0 <= b < |bindings| => bindings[b].(fromStage := MemberPrefix(m) + bindings[b].fromStage))
  }

  function Prefixed(m: nat, name: string, stage: Stage): Stage {
    stage.(id := MemberPrefix(m) + stage.id,
           title := name + " · " + stage.title,
           bindings := PrefixedBindings(m, stage.bindings))
  }

  function MemberBlock(m: nat, member: Member): (block: seq<Stage>)
    ensures |block| == |member.stages|
  {
    seq(|member.stages|, k requires 0 <= k < |member.stages| => Prefixed(m, member.name, member.stages[k]))
  }

  function Blocks(members: seq<Member>): seq<Stage> {
    if members == [] then []
    else Blocks(members[..|members| - 1]) + MemberBlock(|members|, members[|members| - 1])
  }

  /** The artifacts the mesh reads from one member. */
  function MeshInputs(m: nat): seq<Binding>
    requires m >= 1
  {
    var path := "/members/" + Decimal(m - 1) + "/";
    [Binding(path + "connectionRef", MemberPrefix(m) + "kubernetes", "cluster-connection"),
     Binding(path + "observabilityRef", MemberPrefix(m) + "observability", "observability-capability"),
     Binding(path + "platformRef", MemberPrefix(m) + "platform", "managed-platform-capability"),
     Binding(path + "inventoryRef", MemberPrefix(m) + "kubernetes", "cluster-inventory")]
  }

  function MeshBindings(members: nat): seq<Binding> {
    if members == 0 then [] else MeshBindings(members - 1) + MeshInputs(members)
  }

  function MeshStage(members: nat, pluginId: string, spec: Spec): Stage {
    Stage(MESH, pluginId, "Connect and verify Cilium ClusterMesh", spec, [], MeshBindings(members))
  }

  function Assembled(members: seq<Member>, pluginId: string, spec: Spec): Definition {
    Definition(0, Blocks(members) + [MeshStage(|members|, pluginId, spec)], Output(MESH, "cluster-environment", "", ""))
  }

  /** The assembly loop of createMultiCluster. */
  method AssembleMembers(members: seq<Member>, pluginId: string, spec: Spec) returns (def: Definition)
    ensures def == Assembled(members, pluginId, spec)
  {
    var stages: seq<Stage> := [];
    var bindings: seq<Binding> := [];
    for index := 0 to |members|
      invariant stages == Blocks(members[..index])
      invariant bindings == MeshBindings(index)
    {
      var member := members[index];
      var prefix := MemberPrefix(index + 1);
      ghost var before := stages;
      ghost var block := MemberBlock(index + 1, member);
      for k := 0 to |member.stages|
        invariant stages == before + block[..k]
      {
        var stage := member.stages[k];
        var renamed := stage.bindings;
        for b := 0 to |renamed|
          invariant |renamed| == |stage.bindings|
          invariant forall c :: 0 <= c < b ==> renamed[c] == PrefixedBindings(index + 1, stage.bindings)[c]
          invariant forall c :: b <= c < |renamed| ==> renamed[c] == stage.bindings[c]
        {
          renamed := renamed[b := renamed[b].(fromStage := prefix + renamed[b].fromStage)];
        }
        assert renamed == PrefixedBindings(index + 1, stage.bindings);
        stage := stage.(id := prefix + stage.id, title := member.name + " · " + stage.title, bindings := renamed);
        assert block[..k + 1] == block[..k] + [stage];
        stages := stages + [stage];
      }
      assert block[..|member.stages|] == block;
      assert members[..index + 1][..index] == members[..index];
      bindings := bindings + MeshInputs(index + 1);
    }
    assert members[..|members|] == members;
    stages := stages + [Stage(MESH, pluginId, "Connect and verify Cilium ClusterMesh", spec, [], bindings)];
    def := Definition(0, stages, Output(MESH, "cluster-environment", "", ""));
  }

  // ---- The shared machine key ----

  const KEY_PATH: string := "/machineAccessRef"

  function WithoutKey(bindings: seq<Binding>): seq<Binding> {
    if bindings == [] then []
    else
      var rest := WithoutKey(bindings[..|bindings| - 1]);
      if bindings[|bindings| - 1].path != KEY_PATH then rest + [bindings[|bindings| - 1]] else rest
  }

  /** A later member reads the key of the first one; every other stage is unchanged. */
  function KeyConsumer(stage: Stage): Stage {
    stage.(spec := stage.spec.(fields := stage.spec.fields["machineAccessRef" := ""]),
           bindings := WithoutKey(stage.bindings) + [Binding(KEY_PATH, MachinesId(1), "machine-access")])
  }

  predicate IsLaterMachines(id: string, members: int) {
    exists m: nat :: 2 <= m <= members && id == MachinesId(m)
  }

  function SharedKeyStage(stage: Stage, members: int): Stage {
    if IsLaterMachines(stage.id, members) then KeyConsumer(stage) else stage
  }

  function SharedKey(def: Definition, members: int): Definition {
    def.(stages := seq(|def.stages|, i requires 0 <= i < |def.stages| => SharedKeyStage(def.stages[i], members)))
  }

  lemma MachinesIdInjective(m: nat, n: nat)
    requires MachinesId(m) == MachinesId(n)
    ensures m == n
  {
    MemberUnique(MachinesId(m), m, n);
  }

  /** The inner loop of withSharedMultiClusterSSHKey, for one stage. */
  method ShareKey(stage: Stage, members: int) returns (result: Stage)
    ensures result == SharedKeyStage(stage, members)
  {
    result := stage;
    if members < 2 {
      return;
    }
    for member := 2 to members + 1
      invariant result == if IsLaterMachines(stage.id, member - 1) then KeyConsumer(stage) else stage
    {
      if stage.id != MachinesId(member) {
        continue;
      }
      forall m: nat | 2 <= m < member ensures stage.id != MachinesId(m) {
        if stage.id == MachinesId(m) {
          MachinesIdInjective(m, member);
        }
      }
      var bindings: seq<Binding> := [];
      for b := 0 to |result.bindings|
        invariant bindings == WithoutKey(result.bindings[..b])
      {
        assert result.bindings[..b + 1][..b] == result.bindings[..b];
        if result.bindings[b].path != KEY_PATH {
          bindings := bindings + [result.bindings[b]];
        }
      }
      assert result.bindings[..|result.bindings|] == result.bindings;
      result := result.(spec := result.spec.(fields := result.spec.fields["machineAccessRef" := ""]),
                        bindings := bindings + [Binding(KEY_PATH, MachinesId(1), "machine-access")]);
    }
  }

  /** internal/api/multicluster_ssh.go: withSharedMultiClusterSSHKey. */
  method WithSharedMultiClusterSSHKey(def: Definition, members: int) returns (result: Definition)
    ensures result == SharedKey(def, members)
  {
    var stages := def.stages;
    for i := 0 to |stages|
      invariant |stages| == |def.stages|
      invariant forall k :: 0 <= k < i ==> stages[k] == SharedKeyStage(def.stages[k], members)
      invariant forall k :: i <= k < |stages| ==> stages[k] == def.stages[k]
    {
      var stage := ShareKey(stages[i], members);
      stages := stages[i := stage];
    }
    result := def.(stages := stages);
    assert result.stages == SharedKey(def, members).stages;
  }

  // ---- Layout of the created pipeline ----

  function Starts(members: nat): (starts: seq<nat>)
    ensures |starts| == members + 1
  {
    seq(members + 1, m => 5 * m)
  }

  lemma {:induction false} BlockAt(members: seq<Member>, m: nat, k: nat)
    requires forall x :: 0 <= x < |members| ==> |members[x].stages| == 5
    requires m < |members| && k < 5
    ensures |Blocks(members)| == 5 * |members|
    ensures Blocks(members)[5 * m + k] == Prefixed(m + 1, members[m].name, members[m].stages[k])
  {
    var rest := members[..|members| - 1];
    if m < |rest| {
      BlockAt(rest, m, k);
      assert rest[m] == members[m];
    } else {
      BlocksLength(rest);
    }
  }

  lemma {:induction false} BlocksLength(members: seq<Member>)
    requires forall x :: 0 <= x < |members| ==> |members[x].stages| == 5
    ensures |Blocks(members)| == 5 * |members|
  {
    if members != [] {
      BlocksLength(members[..|members| - 1]);
    }
  }

  ghost predicate AllPrepared(members: seq<Member>) {
    forall x :: 0 <= x < |members| ==> Prepared(members[x].stages)
  }

  /** The pipeline createMultiCluster hands to the planner. */
  function Created(members: seq<Member>, pluginId: string, spec: Spec): Definition {
    SharedKey(Assembled(members, pluginId, spec), |members|)
  }

  function PhaseId(m: nat, k: nat): string
    requires k < 5
  {
    MemberPrefix(m + 1) + PHASES[k]
  }

  function Position(m: nat, k: nat): nat {
    5 * m + k
  }

  /** Member blocks of the five phases, in order, followed by the mesh. */
  ghost predicate Phased(stages: seq<Stage>, members: nat) {
    && |stages| == 5 * members + 1
    && stages[5 * members].id == MESH
    && forall m: nat, k: nat :: m < members && k < 5 ==>
         Position(m, k) < |stages| && stages[Position(m, k)].id == PhaseId(m, k)
  }

  lemma Locate(p: nat, members: nat) returns (m: nat, k: nat)
    requires p < 5 * members
    ensures m < members && k < 5 && p == Position(m, k)
  {
    m, k := p / 5, p % 5;
  }

  lemma CreatedIdAt(members: seq<Member>, pluginId: string, spec: Spec, m: nat, k: nat)
    requires AllPrepared(members) && m < |members| && k < 5
    ensures Position(m, k) < |Created(members, pluginId, spec).stages|
    ensures Created(members, pluginId, spec).stages[Position(m, k)].id == PhaseId(m, k)
  {
    assert Prepared(members[m].stages);
    CreatedMemberStage(members, pluginId, spec, m, k);
  }

  lemma CreatedPhased(members: seq<Member>, pluginId: string, spec: Spec)
    requires AllPrepared(members)
    ensures Phased(Created(members, pluginId, spec).stages, |members|)
  {
    var stages := Created(members, pluginId, spec).stages;
    CreatedMesh(members, pluginId, spec);
    forall m: nat, k: nat | m < |members| && k < 5
      ensures Position(m, k) < |stages| && stages[Position(m, k)].id == PhaseId(m, k)
    {
      CreatedIdAt(members, pluginId, spec, m, k);
    }
  }

  lemma PhaseIdInjective(m: nat, k: nat, n: nat, l: nat)
    requires k < 5 && l < 5 && PhaseId(m, k) == PhaseId(n, l)
    ensures m == n && k == l
  {
    MemberUnique(PhaseId(m, k), m + 1, n + 1);
    var prefix := MemberPrefix(m + 1);
    assert PhaseId(m, k)[|prefix|..] == PHASES[k];
    assert PhaseId(n, l)[|prefix|..] == PHASES[l];
    PhasesDistinct(k, l);
  }

  lemma PhasesDistinct(j: nat, k: nat)
    requires j < 5 && k < 5 && PHASES[j] == PHASES[k]
    ensures j == k
  {
    assert PHASES[j][0] == PHASES[k][0] && |PHASES[j]| == |PHASES[k]|;
  }

  lemma PhaseIsNotMesh(m: nat, k: nat)
    requires k < 5
    ensures PhaseId(m, k) != MESH
  {
    MemberIsNotCleanup(PhaseId(m, k), m + 1);
  }

  lemma PhasedDistinct(stages: seq<Stage>, members: nat)
    requires Phased(stages, members)
    ensures Distinct(StageIds(stages))
  {
    forall p: nat, q: nat | p < q < |stages| ensures stages[p].id != stages[q].id {
      var m, k := Locate(p, members);
      if q < 5 * members {
        var n, l := Locate(q, members);
        if PhaseId(m, k) == PhaseId(n, l) {
          PhaseIdInjective(m, k, n, l);
        }
      } else {
        PhaseIsNotMesh(m, k);
      }
    }
  }

  /** The created pipeline has the layout the planner's guarantees need. */
  lemma PhasedLayout(stages: seq<Stage>, members: nat)
    requires Phased(stages, members) && members >= 1
    ensures Layout(stages, members, 0, Starts(members))
  {
    var starts := Starts(members);
    PhasedDistinct(stages, members);
    forall m: nat, i: nat | Block(starts, m, i) && i < |stages| ensures HasPrefix(stages[i].id, MemberPrefix(m)) {
      var n, k := Locate(i, members);
      assert n + 1 == m;
    }
    forall m: nat | 1 <= m <= members ensures HeadIsMachines(stages, starts, m) {
      assert Head(starts, m) == Position(m - 1, 0);
    }
  }

  // ---- Backward edges of the created pipeline ----

  lemma PhaseDeclared(stages: seq<Stage>, members: nat, m: nat, k: nat, i: nat)
    requires Phased(stages, members) && m < members && k < 5 && Position(m, k) < i
    ensures DeclaredBefore(stages, i, PhaseId(m, k))
  {
    assert stages[Position(m, k)].id == PhaseId(m, k);
  }

  /** A binding of a prepared stage stays backward after prefixing. */
  lemma MemberBindingBackward(stages: seq<Stage>, members: nat, m: nat, k: nat, source: seq<Stage>, b: Binding)
    requires Phased(stages, members) && m < members && k < 5 && Prepared(source)
    requires b in PrefixedBindings(m + 1, source[k].bindings)
    ensures DeclaredBefore(stages, Position(m, k), b.fromStage)
  {
    var prefixed := PrefixedBindings(m + 1, source[k].bindings);
    var x :| 0 <= x < |prefixed| && prefixed[x] == b;
    var original := source[k].bindings[x];
    assert BackwardEdgesAt(source, k) && original in source[k].bindings;
    var l :| 0 <= l < k && source[l].id == original.fromStage;
    PhaseDeclared(stages, members, m, l, Position(m, k));
  }

  lemma {:induction false} WithoutKeyIncluded(bindings: seq<Binding>, b: Binding)
    requires b in WithoutKey(bindings)
    ensures b in bindings && b.path != KEY_PATH
  {
    if bindings != [] {
      var rest := bindings[..|bindings| - 1];
      if b in WithoutKey(rest) {
        WithoutKeyIncluded(rest, b);
      }
    }
  }

  lemma MeshInputsBackward(stages: seq<Stage>, members: nat, m: nat, b: Binding)
    requires Phased(stages, members) && m < members && b in MeshInputs(m + 1)
    ensures DeclaredBefore(stages, 5 * members, b.fromStage)
  {
    PhaseDeclared(stages, members, m, 1, 5 * members);
    PhaseDeclared(stages, members, m, 3, 5 * members);
    PhaseDeclared(stages, members, m, 4, 5 * members);
  }

  lemma {:induction false} MeshBindingBackward(stages: seq<Stage>, members: nat, count: nat, b: Binding)
    requires Phased(stages, members) && count <= members && b in MeshBindings(count)
    ensures DeclaredBefore(stages, 5 * members, b.fromStage)
  {
    if b in MeshInputs(count) {
      MeshInputsBackward(stages, members, count - 1, b);
    } else {
      MeshBindingBackward(stages, members, count - 1, b);
    }
  }

  lemma LaterMachinesPosition(m: nat, k: nat, members: int)
    requires k < 5 && IsLaterMachines(PhaseId(m, k), members)
    ensures m > 0 && PhaseId(0, 0) == MachinesId(1)
  {
    var n: nat :| 2 <= n <= members && PhaseId(m, k) == MachinesId(n);
    MemberUnique(PhaseId(m, k), m + 1, n);
  }

  lemma SharedStageBackward(stages: seq<Stage>, members: nat, m: nat, k: nat, source: seq<Stage>, name: string)
    requires Phased(stages, members) && m < members && k < 5 && Prepared(source)
    requires stages[Position(m, k)] == SharedKeyStage(Prefixed(m + 1, name, source[k]), members)
    ensures BackwardEdgesAt(stages, Position(m, k))
  {
    var original, i := Prefixed(m + 1, name, source[k]), Position(m, k);
    forall b | b in stages[i].bindings ensures DeclaredBefore(stages, i, b.fromStage) {
      if b in original.bindings {
        MemberBindingBackward(stages, members, m, k, source, b);
      } else {
        assert b !in WithoutKey(original.bindings) by {
          if b in WithoutKey(original.bindings) {
            WithoutKeyIncluded(original.bindings, b);
          }
        }
        LaterMachinesPosition(m, k, members);
        PhaseDeclared(stages, members, 0, 0, i);
      }
    }
  }

  lemma CreatedMemberStage(members: seq<Member>, pluginId: string, spec: Spec, m: nat, k: nat)
    requires AllPrepared(members) && m < |members| && k < 5
    ensures Position(m, k) < |Created(members, pluginId, spec).stages|
    ensures Created(members, pluginId, spec).stages[Position(m, k)]
         == SharedKeyStage(Prefixed(m + 1, members[m].name, members[m].stages[k]), |members|)
  {
    BlocksLength(members);
    BlockAt(members, m, k);
    assert Assembled(members, pluginId, spec).stages[Position(m, k)] == Blocks(members)[Position(m, k)];
  }

  lemma MeshIsNotMachines(members: int)
    ensures !IsLaterMachines(MESH, members)
  {
    forall m: nat | 2 <= m <= members ensures MESH != MachinesId(m) {
      MemberIsNotCleanup(MachinesId(m), m);
    }
  }

  lemma CreatedMesh(members: seq<Member>, pluginId: string, spec: Spec)
    requires AllPrepared(members)
    ensures |Created(members, pluginId, spec).stages| == 5 * |members| + 1
    ensures Created(members, pluginId, spec).stages[5 * |members|] == MeshStage(|members|, pluginId, spec)
  {
    BlocksLength(members);
    MeshIsNotMachines(|members|);
  }

  lemma CreatedBackward(members: seq<Member>, pluginId: string, spec: Spec)
    requires AllPrepared(members)
    ensures BackwardEdges(Created(members, pluginId, spec).stages)
  {
    var stages := Created(members, pluginId, spec).stages;
    CreatedPhased(members, pluginId, spec);
    CreatedMesh(members, pluginId, spec);
    forall i: nat | i < |stages| ensures BackwardEdgesAt(stages, i) {
      if i < 5 * |members| {
        var m, k := Locate(i, |members|);
        CreatedMemberStage(members, pluginId, spec, m, k);
        SharedStageBackward(stages, |members|, m, k, members[m].stages, members[m].name);
      } else {
        forall b | b in stages[i].bindings ensures DeclaredBefore(stages, i, b.fromStage) {
          MeshBindingBackward(stages, |members|, |members|, b);
        }
      }
    }
  }

  // ---- End to end ----

  /** Every run of a freshly created multi-cluster pipeline keeps the promises of the
      planner: bounded overlap, serialized clones, the mesh last. */
  lemma CreatedPipelineGuarantees(members: seq<Member>, pluginId: string, spec: Spec, s: RunState)
    requires AllPrepared(members) && |members| >= 1
    requires Reachable(Planned(Created(members, pluginId, spec), |members|), s)
    ensures |s.stages| == 5 * |members| + 1
    ensures var lanes := Parallelism(Created(members, pluginId, spec).stages, |members|);
      lanes <= 4 && Guaranteed(lanes, 0, Starts(|members|), s)
  {
    var def := Created(members, pluginId, spec);
    CreatedPhased(members, pluginId, spec);
    PhasedLayout(def.stages, |members|);
    PlannedRunGuarantees(def, |members|, 0, Starts(|members|), s);
  }

  /** ...and it cannot deadlock: an idle, unfailed, unfinished run is given a stage. */
  lemma CreatedPipelineProgress(members: seq<Member>, pluginId: string, spec: Spec, s: RunState)
    requires AllPrepared(members) && |members| >= 1
    requires Reachable(Planned(Created(members, pluginId, spec), |members|), s)
    requires ActiveSet(s.stages) == {} && NoFailure(s.stages) && !AllSucceeded(s)
    ensures |s.stages| == |Planned(Created(members, pluginId, spec), |members|).stages|
    ensures Ready(Planned(Created(members, pluginId, spec), |members|), s.stages) != []
  {
    var def := Created(members, pluginId, spec);
    CreatedPhased(members, pluginId, spec);
    PhasedLayout(def.stages, |members|);
    CreatedBackward(members, pluginId, spec);
    PlannedEdgesBackward(def, |members|, 0, Starts(|members|));
    Progress(Planned(def, |members|), s);
  }

  // ---- The created pipeline, told by the prepared members alone ----

  /** The bindings read the same outputs into the same paths, from stages of the same member. */
  predicate ReadsOwn(prefix: string, prepared: seq<Binding>, bindings: seq<Binding>) {
    && |bindings| == |prepared|
    && forall b :: 0 <= b < |bindings| ==>
         bindings[b].path == prepared[b].path && bindings[b].fromOutput == prepared[b].fromOutput && bindings[b].fromStage == prefix + prepared[b].fromStage
  }

  predicate KeepsPrepared(prefix: string, name: string, prepared: Stage, stage: Stage) {
    && stage.id == prefix + prepared.id && stage.pluginId == prepared.pluginId && stage.title == name + " · " + prepared.title
    && stage.dependsOn == prepared.dependsOn && stage.spec.placement == prepared.spec.placement && stage.spec.sourceOperationId == prepared.spec.sourceOperationId
  }

  /** The only stages that the key sharing touches are the machines of the later members. */
  lemma PhaseIsLaterMachines(m: nat, k: nat, members: nat)
    requires m < members && k < 5
    ensures IsLaterMachines(PhaseId(m, k), members) <==> m > 0 && k == 0
  {
    if m > 0 && k == 0 {
      assert PhaseId(m, k) == MachinesId(m + 1);
    }
    if IsLaterMachines(PhaseId(m, k), members) {
      var n: nat :| 2 <= n <= members && PhaseId(m, k) == MachinesId(n);
      assert MachinesId(n) == PhaseId(n - 1, 0);
      PhaseIdInjective(m, k, n - 1, 0);
    }
  }

  /** Prepared machines read nothing. */
  lemma MachinesReadNothing(stages: seq<Stage>)
    requires Prepared(stages)
    ensures stages[0].bindings == []
  {
    var bindings := stages[0].bindings;
    assert BackwardEdgesAt(stages, 0);
    assert |bindings| == 0 || DeclaredBefore(stages, 0, bindings[0].fromStage);
  }

  /** Stage `k` of member `m`: the prepared one under the member's prefix, with every input
      from the same member. Only the machines of a later member have one more input, the
      machine key, and it comes from the machines of the first. */
  predicate MadeFrom(name: string, m: nat, k: nat, prepared: Stage, stage: Stage) {
    var prefix := "c" + Decimal(m + 1) + "-";
    && KeepsPrepared(prefix, name, prepared, stage)
    && if m > 0 && k == 0 then
         && prepared.bindings == [] && stage.bindings == [Binding("/machineAccessRef", "c1-machines", "machine-access")]
         && stage.spec.fields == prepared.spec.fields["machineAccessRef" := ""]
       else stage.spec == prepared.spec && ReadsOwn(prefix, prepared.bindings, stage.bindings)
  }

  /** The members' stages stand in front of the mesh, member by member, and each is made from
      the one its member prepared. */
  lemma CreatedStageMeaning(members: seq<Member>, pluginId: string, spec: Spec, m: nat, k: nat)
    requires AllPrepared(members) && m < |members| && k < 5
    ensures |Created(members, pluginId, spec).stages| == 5 * |members| + 1 && 5 * m + k < 5 * |members|
    ensures MadeFrom(members[m].name, m, k, members[m].stages[k], Created(members, pluginId, spec).stages[5 * m + k])
  {
    var prepared := members[m].stages[k];
    CreatedMemberStage(members, pluginId, spec, m, k);
    CreatedMesh(members, pluginId, spec);
    PhaseIsLaterMachines(m, k, |members|);
    MachinesReadNothing(members[m].stages);
    PrefixedKeeps(m, members[m].name, prepared);
    FirstMachines();
    assert Prefixed(m + 1, members[m].name, prepared).id == PhaseId(m, k);
  }

  lemma PrefixedKeeps(m: nat, name: string, prepared: Stage)
    ensures var prefix, stage := "c" + Decimal(m + 1) + "-", Prefixed(m + 1, name, prepared);
      && KeepsPrepared(prefix, name, prepared, stage) && stage.spec == prepared.spec && ReadsOwn(prefix, prepared.bindings, stage.bindings)
      && (prepared.bindings == [] ==> WithoutKey(stage.bindings) == [])
  {
    assert MemberPrefix(m + 1) == "c" + Decimal(m + 1) + "-";
  }

  lemma FirstMachines()
    ensures MachinesId(1) == "c1-machines"
  {
    assert Decimal(1) == "1";
  }

  /** The inputs at /members/m/ come from that member's Kubernetes, observability, platform and
      Kubernetes stages. */
  predicate ReadsMember(bindings: seq<Binding>, m: nat) {
    && 4 * m + 4 <= |bindings|
    && var path, prefix := "/members/" + Decimal(m) + "/", "c" + Decimal(m + 1) + "-";
       && bindings[4 * m] == Binding(path + "connectionRef", prefix + "kubernetes", "cluster-connection")
       && bindings[4 * m + 1] == Binding(path + "observabilityRef", prefix + "observability", "observability-capability")
       && bindings[4 * m + 2] == Binding(path + "platformRef", prefix + "platform", "managed-platform-capability")
       && bindings[4 * m + 3] == Binding(path + "inventoryRef", prefix + "kubernetes", "cluster-inventory")
  }

  lemma ReadsMemberStays(bindings: seq<Binding>, more: seq<Binding>, m: nat)
    requires ReadsMember(bindings, m)
    ensures ReadsMember(bindings + more, m)
  {
  }

  lemma LastMemberRead(bindings: seq<Binding>, m: nat)
    requires |bindings| == 4 * m
    ensures ReadsMember(bindings + MeshInputs(m + 1), m)
  {
    assert MemberPrefix(m + 1) == "c" + Decimal(m + 1) + "-";
  }

  lemma {:induction false} MeshBindingsAt(members: nat, m: nat)
    requires m < members
    ensures ReadsMember(MeshBindings(members), m)
  {
    if m < members - 1 {
      MeshBindingsAt(members - 1, m);
      ReadsMemberStays(MeshBindings(members - 1), MeshInputs(members), m);
    } else {
      MeshBindingsLength(m);
      LastMemberRead(MeshBindings(m), m);
    }
  }

  lemma {:induction false} MeshBindingsLength(members: nat)
    ensures |MeshBindings(members)| == 4 * members
  {
    if members > 0 {
      MeshBindingsLength(members - 1);
    }
  }

  /** The last stage is the mesh. Its inputs come in groups of four, one group per member in
      order. Its environment is what the pipeline yields. */
  lemma CreatedMeshMeaning(members: seq<Member>, pluginId: string, spec: Spec)
    requires AllPrepared(members)
    ensures |Created(members, pluginId, spec).stages| == 5 * |members| + 1
    ensures Created(members, pluginId, spec).result == Output("mesh", "cluster-environment", "", "")
    ensures var mesh := Created(members, pluginId, spec).stages[5 * |members|];
      && mesh.id == "mesh" && mesh.pluginId == pluginId && mesh.spec == spec && mesh.dependsOn == []
      && |mesh.bindings| == 4 * |members| && forall m: nat :: m < |members| ==> ReadsMember(mesh.bindings, m)
  {
    CreatedMesh(members, pluginId, spec);
    MeshBindingsLength(|members|);
    forall m: nat | m < |members| ensures ReadsMember(MeshBindings(|members|), m) {
      MeshBindingsAt(|members|, m);
    }
  }

  // ---- Key sharing, told by the stages alone ----

  /** The places in front of `b` whose input is not the machine key. */
  ghost function OtherInputsBefore(bindings: seq<Binding>, b: nat): set<nat>
    requires b <= |bindings|
  {
    set c: nat | c < b && bindings[c].path != "/machineAccessRef"
  }

  lemma {:induction false} WithoutKeyCounts(bindings: seq<Binding>)
    ensures |WithoutKey(bindings)| == |OtherInputsBefore(bindings, |bindings|)|
  {
    if bindings != [] {
      var n := |bindings| - 1;
      var rest := bindings[..n];
      WithoutKeyCounts(rest);
      assert OtherInputsBefore(bindings, n) == OtherInputsBefore(rest, n);
      assert OtherInputsBefore(bindings, n + 1) == OtherInputsBefore(bindings, n) + (if bindings[n].path != KEY_PATH then {n} else {});
    } else {
      assert OtherInputsBefore(bindings, 0) == {};
    }
  }

  /** Every input but the key stays, in order. */
  lemma {:induction false} WithoutKeyAt(bindings: seq<Binding>, b: nat)
    requires b < |bindings| && bindings[b].path != "/machineAccessRef"
    ensures |OtherInputsBefore(bindings, b)| < |WithoutKey(bindings)| && WithoutKey(bindings)[|OtherInputsBefore(bindings, b)|] == bindings[b]
  {
    var n := |bindings| - 1;
    var rest := bindings[..n];
    WithoutKeyCounts(rest);
    assert OtherInputsBefore(bindings, b) == OtherInputsBefore(rest, b);
    if b < n {
      WithoutKeyAt(rest, b);
    }
  }

  ghost predicate LaterMachines(id: string, members: int) {
    exists m: nat :: 2 <= m <= members && id == "c" + Decimal(m) + "-machines"
  }

  lemma LaterMachinesMeaning(id: string, members: int)
    ensures IsLaterMachines(id, members) <==> LaterMachines(id, members)
  {
    if m: nat :| 2 <= m <= members && id == "c" + Decimal(m) + "-machines" {
      assert id == MachinesId(m);
    }
    if m: nat :| 2 <= m <= members && id == MachinesId(m) {
      assert id == "c" + Decimal(m) + "-machines";
    }
  }

  /** All inputs but the key, in order, and then the key of member 1. */
  ghost predicate ReadsSharedKey(before: seq<Binding>, bindings: seq<Binding>) {
    && |bindings| == |OtherInputsBefore(before, |before|)| + 1
    && bindings[|bindings| - 1] == Binding("/machineAccessRef", "c1-machines", "machine-access")
    && forall b: nat :: b < |before| && before[b].path != "/machineAccessRef" ==>
         |OtherInputsBefore(before, b)| < |bindings| - 1 && bindings[|OtherInputsBefore(before, b)|] == before[b]
  }

  lemma KeyConsumerReads(bindings: seq<Binding>)
    ensures ReadsSharedKey(bindings, WithoutKey(bindings) + [Binding("/machineAccessRef", "c1-machines", "machine-access")])
  {
    WithoutKeyCounts(bindings);
    forall b: nat | b < |bindings| && bindings[b].path != "/machineAccessRef"
      ensures |OtherInputsBefore(bindings, b)| < |WithoutKey(bindings)| && WithoutKey(bindings)[|OtherInputsBefore(bindings, b)|] == bindings[b]
    {
      WithoutKeyAt(bindings, b);
    }
  }

  /** Key sharing makes the machines of members 2 and up read the key of member 1, and leaves
      everything else alone. */
  lemma SharedKeyMeaning(def: Definition, members: int, i: nat)
    requires i < |def.stages|
    ensures var before, result := def.stages[i], SharedKey(def, members);
      && result == def.(stages := result.stages) && |result.stages| == |def.stages|
      && var stage := result.stages[i];
         if LaterMachines(before.id, members) then
           && stage == before.(spec := stage.spec, bindings := stage.bindings)
           && stage.spec == before.spec.(fields := before.spec.fields["machineAccessRef" := ""])
           && ReadsSharedKey(before.bindings, stage.bindings)
         else stage == before
  {
    LaterMachinesMeaning(def.stages[i].id, members);
    FirstMachines();
    KeyConsumerReads(def.stages[i].bindings);
  }
}
