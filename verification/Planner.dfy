/** The multi-cluster planner of internal/api/multicluster_scheduling.go. */
module Planner {
  import opened Text
  import opened Pipelines

  const CLEANUP: string := "cleanup-"
  const MESH: string := "mesh"

  function MemberPrefix(member: nat): string {
    "c" + Decimal(member) + "-"
  }

  function MachinesId(member: nat): string {
    MemberPrefix(member) + "machines"
  }

  predicate IsCleanup(id: string) {
    HasPrefix(id, CLEANUP)
  }

  /** A stage belongs to at most one member, however many digits member numbers have. */
  lemma MemberUnique(id: string, m: nat, n: nat)
    requires HasPrefix(id, MemberPrefix(m)) && HasPrefix(id, MemberPrefix(n))
    ensures m == n
  {
    var rest := id[1..];
    assert MemberPrefix(m)[1..] == Decimal(m) + ['-'];
    assert MemberPrefix(n)[1..] == Decimal(n) + ['-'];
    assert HasPrefix(rest, Decimal(m) + ['-']) && HasPrefix(rest, Decimal(n) + ['-']);
    TerminatedFieldUnique(Decimal(m), Decimal(n), '-', rest);
    DecimalInjective(m, n);
  }

  lemma MemberIsNotCleanup(id: string, m: nat)
    requires HasPrefix(id, MemberPrefix(m))
    ensures !IsCleanup(id) && id != MESH
  {
    assert id[1] == MemberPrefix(m)[1] == Decimal(m)[0];
    assert CLEANUP[1] == 'l';
    assert id[0] == MemberPrefix(m)[0] == 'c';
  }

  // ---- Parallelism from the placement ----

  predicate IsMachinesStage(id: string) {
    HasPrefix(id, "c") && !IsCleanup(id) && HasSuffix(id, "-machines")
  }

  function PlacedNodes(placement: Placement): seq<string> {
    if placement.machineNodes == [] then [placement.node] else placement.machineNodes
  }

  function TargetsOf(stage: Stage): set<string> {
    if IsMachinesStage(stage.id) && stage.spec.placement.Some? then
      var placement := stage.spec.placement.value;
      set node | node in PlacedNodes(placement) && node != "" :: placement.connectionRef + "/" + node
    else {}
  }

  /** The distinct Proxmox servers the member machines are placed on. */
  function Targets(stages: seq<Stage>): set<string> {
    if stages == [] then {} else Targets(stages[..|stages| - 1]) + TargetsOf(stages[|stages| - 1])
  }

  function Max(a: int, b: int): int { if a < b then b else a }
  function Min(a: int, b: int): int { if a < b then a else b }

  /** Two lanes for a single server, one per server beyond that, at most four and
      never more than there are members. */
  function Parallelism(stages: seq<Stage>, members: int): (p: nat)
    ensures 1 <= p <= 4
    ensures members >= 1 ==> p <= members
    ensures members >= 2 ==> p >= 2
  {
    Max(1, Min(Min(members, 4), Max(2, |Targets(stages)|)))
  }

  // ---- Dependencies ----

  function Add(dependencies: seq<string>, dependency: string): seq<string> {
    if dependency == "" || dependency in dependencies then dependencies else dependencies + [dependency]
  }

  function AddAll(dependencies: seq<string>, wanted: seq<string>): seq<string>
    decreases |wanted|
  {
    if wanted == [] then dependencies else AddAll(Add(dependencies, wanted[0]), wanted[1..])
  }

  /** The identifier of the last stage before `i` with this prefix, or "". */
  function LastBefore(stages: seq<Stage>, i: nat, prefix: string): string
    requires i <= |stages|
  {
    if i == 0 then ""
    else if HasPrefix(stages[i - 1].id, prefix) then stages[i - 1].id
    else LastBefore(stages, i - 1, prefix)
  }

  /** What stage `i` waits for as a stage of `member`: the member's previous stage and,
      for its machines, the cleanup, the previous clone and the lane it takes over. */
  function MemberWants(stages: seq<Stage>, i: nat, member: nat, parallelism: nat): seq<string>
    requires i < |stages| && parallelism >= 1
  {
    if !HasPrefix(stages[i].id, MemberPrefix(member)) then []
    else
      [LastBefore(stages, i, MemberPrefix(member))] +
      if stages[i].id != MachinesId(member) then []
      else
        [LastBefore(stages, i, CLEANUP)]
        + (if member > 1 then [MachinesId(member - 1)] else [])
        + (if member > parallelism then [LastBefore(stages, i, MemberPrefix(member - parallelism))] else [])
  }

  function MembersWant(stages: seq<Stage>, i: nat, members: nat, parallelism: nat): seq<string>
    requires i < |stages| && parallelism >= 1
  {
    if members == 0 then []
    else MembersWant(stages, i, members - 1, parallelism) + MemberWants(stages, i, members, parallelism)
  }

  function MeshWants(stages: seq<Stage>, i: nat, members: nat): seq<string>
    requires i <= |stages|
  {
    if members == 0 then []
    else MeshWants(stages, i, members - 1) + [LastBefore(stages, i, MemberPrefix(members))]
  }

  function Wants(stages: seq<Stage>, i: nat, members: nat, parallelism: nat): seq<string>
    requires i < |stages| && parallelism >= 1
  {
    if IsCleanup(stages[i].id) then [LastBefore(stages, i, CLEANUP)]
    else MembersWant(stages, i, members, parallelism)
         + if stages[i].id == MESH then MeshWants(stages, i, members) else []
  }

  function PlannedStage(stages: seq<Stage>, i: nat, members: nat, parallelism: nat): Stage
    requires i < |stages| && parallelism >= 1
  {
    stages[i].(dependsOn := AddAll(stages[i].dependsOn, Wants(stages, i, members, parallelism)))
  }

  function PlannedStages(stages: seq<Stage>, members: nat, parallelism: nat): (planned: seq<Stage>)
    requires parallelism >= 1
    ensures |planned| == |stages|
  {
    seq(|stages|, i requires 0 <= i < |stages| => PlannedStage(stages, i, members, parallelism))
  }

  function Planned(def: Definition, members: int): Definition {
    var parallelism := Parallelism(def.stages, members);
    def.(maxParallelStages := parallelism,
         stages := PlannedStages(def.stages, if members < 0 then 0 else members, parallelism))
  }

  // ---- The planner ----

  lemma AddAllConcat(dependencies: seq<string>, a: seq<string>, b: seq<string>)
    ensures AddAll(dependencies, a + b) == AddAll(AddAll(dependencies, a), b)
    decreases |a|
  {
    if a == [] {
      assert a + b == b;
    } else {
      assert (a + b)[1..] == a[1..] + b;
      AddAllConcat(Add(dependencies, a[0]), a[1..], b);
    }
  }

  lemma AddAllOne(dependencies: seq<string>, d: string)
    ensures AddAll(dependencies, [d]) == Add(dependencies, d)
  {
    assert [d][1..] == [];
  }

  /** The body of the first loop: the servers one machines stage is placed on. */
  method StageTargets(stage: Stage) returns (targets: set<string>)
    ensures targets == TargetsOf(stage)
  {
    targets := {};
    if !HasPrefix(stage.id, "c") || HasPrefix(stage.id, CLEANUP) || !HasSuffix(stage.id, "-machines") {
      return;
    }
    if stage.spec.placement.None? {
      return;
    }
    var machines := stage.spec.placement.value;
    var nodes := machines.machineNodes;
    if |nodes| == 0 {
      nodes := [machines.node];
    }
    for n := 0 to |nodes|
      invariant targets == set node | node in nodes[..n] && node != "" :: machines.connectionRef + "/" + node
    {
      assert nodes[..n + 1] == nodes[..n] + [nodes[n]];
      if nodes[n] != "" {
        targets := targets + {machines.connectionRef + "/" + nodes[n]};
      }
    }
    assert nodes[..|nodes|] == PlacedNodes(machines);
  }

  /** The first loop of withParallelClusterProvisioning. */
  method CountTargets(stages: seq<Stage>) returns (targets: set<string>)
    ensures targets == Targets(stages)
  {
    targets := {};
    for k := 0 to |stages|
      invariant targets == Targets(stages[..k])
    {
      assert stages[..k + 1][..k] == stages[..k];
      var placed := StageTargets(stages[k]);
      targets := targets + placed;
    }
    assert stages[..|stages|] == stages;
  }

  /** The body of the second loop for one member: extends the dependencies of stage `i`
      and moves that member's `previous` entry. */
  method AddMemberDependencies(stages: seq<Stage>, i: nat, member: nat, parallelism: nat,
                               dependsOn: seq<string>, previous: map<nat, string>, cleanupTail: string)
    returns (dependsOn': seq<string>, previous': map<nat, string>)
    requires i < |stages| && parallelism >= 1 && member >= 1
    requires cleanupTail == LastBefore(stages, i, CLEANUP)
    requires Tracks(stages, i, previous, member)
    requires member > parallelism ==> Tracks(stages, i + 1, previous, member - parallelism)
    ensures dependsOn' == AddAll(dependsOn, MemberWants(stages, i, member, parallelism))
    ensures previous' == if HasPrefix(stages[i].id, MemberPrefix(member)) then previous[member := stages[i].id] else previous
  {
    dependsOn', previous' := dependsOn, previous;
    var id := stages[i].id;
    if !HasPrefix(id, MemberPrefix(member)) {
      return;
    }
    var own := Lookup(previous, member);
    dependsOn' := Add(dependsOn', own);
    previous' := previous'[member := id];
    AddAllOne(dependsOn, own);
    if id == MachinesId(member) {
      ghost var base := dependsOn';
      dependsOn' := Add(dependsOn', cleanupTail);
      AddAllOne(base, cleanupTail);
      ghost var clone := if member > 1 then [MachinesId(member - 1)] else [];
      if member > 1 {
        AddAllOne(dependsOn', MachinesId(member - 1));
        dependsOn' := Add(dependsOn', MachinesId(member - 1));
      }
      AddAllConcat(base, [cleanupTail], clone);
      ghost var lane := if member > parallelism then [LastBefore(stages, i, MemberPrefix(member - parallelism))] else [];
      if member > parallelism {
        var donor := Lookup(previous', member - parallelism);
        OtherMemberUnmoved(stages, i, member, member - parallelism);
        AddAllOne(dependsOn', donor);
        dependsOn' := Add(dependsOn', donor);
      }
      AddAllConcat(base, [cleanupTail] + clone, lane);
      AddAllConcat(dependsOn, [own], [cleanupTail] + clone + lane);
    }
  }

  function Lookup(previous: map<nat, string>, member: nat): string {
    if member in previous then previous[member] else ""
  }

  /** The code's `previous` map records the last stage of `member` before position `i`. */
  predicate Tracks(stages: seq<Stage>, i: nat, previous: map<nat, string>, member: nat)
    requires i <= |stages|
  {
    Lookup(previous, member) == LastBefore(stages, i, MemberPrefix(member))
  }

  predicate TracksAll(stages: seq<Stage>, i: nat, previous: map<nat, string>, lo: nat, hi: nat)
    requires i <= |stages|
  {
    forall m: nat :: lo <= m < hi ==> Tracks(stages, i, previous, m)
  }

  lemma TracksStep(stages: seq<Stage>, i: nat, previous: map<nat, string>, member: nat, hi: nat)
    requires i < |stages| && 1 <= member < hi
    requires TracksAll(stages, i + 1, previous, 1, member) && TracksAll(stages, i, previous, member, hi)
    ensures var previous' := if HasPrefix(stages[i].id, MemberPrefix(member)) then previous[member := stages[i].id] else previous;
      TracksAll(stages, i + 1, previous', 1, member + 1) && TracksAll(stages, i, previous', member + 1, hi)
  {
    var previous' := if HasPrefix(stages[i].id, MemberPrefix(member)) then previous[member := stages[i].id] else previous;
    assert Tracks(stages, i, previous, member);
    assert Tracks(stages, i + 1, previous', member);
    var next := i + 1;
    forall m: nat | 1 <= m < member ensures Tracks(stages, next, previous', m) {
      assert Tracks(stages, next, previous, m);
    }
    forall m: nat | member + 1 <= m < hi ensures Tracks(stages, i, previous', m) {
      assert Tracks(stages, i, previous, m);
    }
  }

  lemma CleanupTracks(stages: seq<Stage>, i: nat, previous: map<nat, string>, members: nat)
    requires i < |stages| && IsCleanup(stages[i].id) && TracksAll(stages, i, previous, 1, members + 1)
    ensures TracksAll(stages, i + 1, previous, 1, members + 1)
  {
    var next := i + 1;
    forall m: nat | 1 <= m < members + 1 ensures Tracks(stages, next, previous, m) {
      CleanupIsNoMember(stages, i, m);
      assert Tracks(stages, i, previous, m);
    }
  }

  lemma OtherMemberUnmoved(stages: seq<Stage>, i: nat, member: nat, other: nat)
    requires i < |stages| && HasPrefix(stages[i].id, MemberPrefix(member)) && other != member
    ensures LastBefore(stages, i + 1, MemberPrefix(other)) == LastBefore(stages, i, MemberPrefix(other))
  {
    if HasPrefix(stages[i].id, MemberPrefix(other)) {
      MemberUnique(stages[i].id, member, other);
    }
  }

  lemma MembersWantStep(stages: seq<Stage>, i: nat, member: nat, parallelism: nat)
    requires i < |stages| && parallelism >= 1 && member >= 1
    ensures AddAll(stages[i].dependsOn, MembersWant(stages, i, member, parallelism))
         == AddAll(AddAll(stages[i].dependsOn, MembersWant(stages, i, member - 1, parallelism)), MemberWants(stages, i, member, parallelism))
  {
    AddAllConcat(stages[i].dependsOn, MembersWant(stages, i, member - 1, parallelism), MemberWants(stages, i, member, parallelism));
  }

  /** One turn of the member loop, with the loop's own bookkeeping. */
  method AddNextMember(stages: seq<Stage>, i: nat, done: nat, members: nat, parallelism: nat,
                       dependsOn: seq<string>, previous: map<nat, string>, cleanupTail: string)
    returns (dependsOn': seq<string>, previous': map<nat, string>)
    requires i < |stages| && parallelism >= 1 && done < members
    requires cleanupTail == LastBefore(stages, i, CLEANUP)
    requires dependsOn == AddAll(stages[i].dependsOn, MembersWant(stages, i, done, parallelism))
    requires TracksAll(stages, i + 1, previous, 1, done + 1) && TracksAll(stages, i, previous, done + 1, members + 1)
    ensures dependsOn' == AddAll(stages[i].dependsOn, MembersWant(stages, i, done + 1, parallelism))
    ensures TracksAll(stages, i + 1, previous', 1, done + 2) && TracksAll(stages, i, previous', done + 2, members + 1)
  {
    var member := done + 1;
    MembersWantStep(stages, i, member, parallelism);
    assert Tracks(stages, i, previous, member);
    assert member > parallelism ==> Tracks(stages, i + 1, previous, member - parallelism);
    TracksStep(stages, i, previous, member, members + 1);
    dependsOn', previous' := AddMemberDependencies(stages, i, member, parallelism, dependsOn, previous, cleanupTail);
  }

  /** The member loop of the second pass. */
  method AddMembersDependencies(stages: seq<Stage>, i: nat, members: nat, parallelism: nat,
                                previous: map<nat, string>, cleanupTail: string)
    returns (dependsOn: seq<string>, previous': map<nat, string>)
    requires i < |stages| && parallelism >= 1
    requires cleanupTail == LastBefore(stages, i, CLEANUP)
    requires TracksAll(stages, i, previous, 1, members + 1)
    ensures dependsOn == AddAll(stages[i].dependsOn, MembersWant(stages, i, members, parallelism))
    ensures TracksAll(stages, i + 1, previous', 1, members + 1)
  {
    dependsOn, previous' := stages[i].dependsOn, previous;
    for done := 0 to members
      invariant dependsOn == AddAll(stages[i].dependsOn, MembersWant(stages, i, done, parallelism))
      invariant TracksAll(stages, i + 1, previous', 1, done + 1) && TracksAll(stages, i, previous', done + 1, members + 1)
    {
      dependsOn, previous' := AddNextMember(stages, i, done, members, parallelism, dependsOn, previous', cleanupTail);
    }
  }

  /** The mesh waits for the last stage of every member. */
  method AddMeshDependencies(stages: seq<Stage>, i: nat, members: nat, dependsOn: seq<string>, previous: map<nat, string>)
    returns (dependsOn': seq<string>)
    requires i < |stages| && stages[i].id == MESH
    requires TracksAll(stages, i + 1, previous, 1, members + 1)
    ensures dependsOn' == AddAll(dependsOn, MeshWants(stages, i, members))
  {
    dependsOn' := dependsOn;
    for member := 1 to members + 1
      invariant dependsOn' == AddAll(dependsOn, MeshWants(stages, i, member - 1))
    {
      var tail := Lookup(previous, member);
      assert Tracks(stages, i + 1, previous, member);
      MeshIsNoMember(stages, i, member);
      AddAllConcat(dependsOn, MeshWants(stages, i, member - 1), [tail]);
      AddAllOne(dependsOn', tail);
      dependsOn' := Add(dependsOn', tail);
    }
  }

  lemma MeshIsNoMember(stages: seq<Stage>, i: nat, member: nat)
    requires i < |stages| && stages[i].id == MESH
    ensures LastBefore(stages, i + 1, MemberPrefix(member)) == LastBefore(stages, i, MemberPrefix(member))
  {
    if HasPrefix(stages[i].id, MemberPrefix(member)) {
      MemberIsNotCleanup(stages[i].id, member);
    }
  }

  lemma CleanupIsNoMember(stages: seq<Stage>, i: nat, member: nat)
    requires i < |stages| && IsCleanup(stages[i].id)
    ensures LastBefore(stages, i + 1, MemberPrefix(member)) == LastBefore(stages, i, MemberPrefix(member))
  {
    if HasPrefix(stages[i].id, MemberPrefix(member)) {
      MemberIsNotCleanup(stages[i].id, member);
    }
  }

  /** One iteration of the second loop: the dependencies of stage `i`, and the code's
      `previous` and `cleanupTail` after it. */
  method PlanStage(stages: seq<Stage>, i: nat, members: nat, parallelism: nat,
                   previous: map<nat, string>, cleanupTail: string)
    returns (planned: Stage, previous': map<nat, string>, cleanupTail': string)
    requires i < |stages| && parallelism >= 1
    requires cleanupTail == LastBefore(stages, i, CLEANUP)
    requires TracksAll(stages, i, previous, 1, members + 1)
    ensures planned == PlannedStage(stages, i, members, parallelism)
    ensures cleanupTail' == LastBefore(stages, i + 1, CLEANUP)
    ensures TracksAll(stages, i + 1, previous', 1, members + 1)
  {
    if HasPrefix(stages[i].id, CLEANUP) {
      planned := stages[i].(dependsOn := Add(stages[i].dependsOn, cleanupTail));
      AddAllOne(stages[i].dependsOn, cleanupTail);
      previous', cleanupTail' := previous, stages[i].id;
      CleanupTracks(stages, i, previous, members);
      return;
    }
    cleanupTail' := cleanupTail;
    var dependsOn;
    dependsOn, previous' := AddMembersDependencies(stages, i, members, parallelism, previous, cleanupTail);
    ghost var wanted := MembersWant(stages, i, members, parallelism);
    if stages[i].id == MESH {
      AddAllConcat(stages[i].dependsOn, wanted, MeshWants(stages, i, members));
      dependsOn := AddMeshDependencies(stages, i, members, dependsOn, previous');
    } else {
      assert wanted + [] == wanted;
    }
    planned := stages[i].(dependsOn := dependsOn);
  }

  /** The second loop of withParallelClusterProvisioning, over all stages. */
  method PlanStages(source: seq<Stage>, members: nat, parallelism: nat) returns (stages: seq<Stage>)
    requires parallelism >= 1
    ensures stages == PlannedStages(source, members, parallelism)
  {
    stages := source;
    var previous: map<nat, string> := map[];
    var cleanupTail := "";
    ghost var target := PlannedStages(source, members, parallelism);
    for i := 0 to |source|
      invariant |stages| == |source|
      invariant forall k :: 0 <= k < i ==> stages[k] == target[k]
      invariant cleanupTail == LastBefore(source, i, CLEANUP)
      invariant TracksAll(source, i, previous, 1, members + 1)
    {
      var planned;
      planned, previous, cleanupTail := PlanStage(source, i, members, parallelism, previous, cleanupTail);
      assert planned == target[i];
      stages := stages[i := planned];
    }
    assert stages == target;
  }

  /** internal/api/multicluster_scheduling.go: withParallelClusterProvisioning. */
  method WithParallelClusterProvisioning(def: Definition, members: int) returns (result: Definition)
    ensures result == Planned(def, members)
  {
    var targets := CountTargets(def.stages);
    var parallelism: nat := Max(1, Min(Min(members, 4), Max(2, |targets|)));
    var stages := PlanStages(def.stages, if members < 0 then 0 else members, parallelism);
    result := def.(maxParallelStages := parallelism, stages := stages);
  }

  // ---- What planning does to a stage graph ----

  lemma {:induction false} AddAllMembers(dependencies: seq<string>, wanted: seq<string>)
    ensures forall d :: d in AddAll(dependencies, wanted) <==> d in dependencies || (d != "" && d in wanted)
    decreases |wanted|
  {
    if wanted != [] {
      AddAllMembers(Add(dependencies, wanted[0]), wanted[1..]);
      assert wanted == [wanted[0]] + wanted[1..];
    }
  }

  lemma {:induction false} AddAllNothingNew(dependencies: seq<string>, wanted: seq<string>)
    requires forall d :: d in wanted && d != "" ==> d in dependencies
    ensures AddAll(dependencies, wanted) == dependencies
    decreases |wanted|
  {
    if wanted != [] {
      assert wanted == [wanted[0]] + wanted[1..];
      AddAllNothingNew(dependencies, wanted[1..]);
    }
  }

  predicate SameIds(a: seq<Stage>, b: seq<Stage>) {
    |a| == |b| && forall i :: 0 <= i < |a| ==> a[i].id == b[i].id
  }

  /** Two stage lists with the same names and specs. */
  predicate SameShape(a: seq<Stage>, b: seq<Stage>) {
    && |a| == |b|
    && forall i :: 0 <= i < |a| ==> a[i].id == b[i].id && a[i].spec == b[i].spec
  }

  lemma {:induction false} LastBeforeShape(a: seq<Stage>, b: seq<Stage>, i: nat, prefix: string)
    requires SameIds(a, b) && i <= |a|
    ensures LastBefore(a, i, prefix) == LastBefore(b, i, prefix)
  {
    if i > 0 {
      LastBeforeShape(a, b, i - 1, prefix);
    }
  }

  lemma MemberWantsShape(a: seq<Stage>, b: seq<Stage>, i: nat, member: nat, parallelism: nat)
    requires SameIds(a, b) && i < |a| && parallelism >= 1
    ensures MemberWants(a, i, member, parallelism) == MemberWants(b, i, member, parallelism)
  {
    LastBeforeShape(a, b, i, MemberPrefix(member));
    LastBeforeShape(a, b, i, CLEANUP);
    if member > parallelism {
      LastBeforeShape(a, b, i, MemberPrefix(member - parallelism));
    }
  }

  lemma {:induction false} WantsShape(a: seq<Stage>, b: seq<Stage>, i: nat, members: nat, parallelism: nat)
    requires SameIds(a, b) && i < |a| && parallelism >= 1
    ensures MembersWant(a, i, members, parallelism) == MembersWant(b, i, members, parallelism)
    ensures MeshWants(a, i, members) == MeshWants(b, i, members)
    ensures Wants(a, i, members, parallelism) == Wants(b, i, members, parallelism)
  {
    LastBeforeShape(a, b, i, CLEANUP);
    if members > 0 {
      WantsShape(a, b, i, members - 1, parallelism);
      MemberWantsShape(a, b, i, members, parallelism);
      LastBeforeShape(a, b, i, MemberPrefix(members));
    }
  }

  lemma {:induction false} TargetsShape(a: seq<Stage>, b: seq<Stage>)
    requires SameShape(a, b)
    ensures Targets(a) == Targets(b)
  {
    if a != [] {
      TargetsShape(a[..|a| - 1], b[..|b| - 1]);
    }
  }

  /** Planning a planned pipeline changes nothing. */
  lemma PlannerIdempotent(def: Definition, members: int)
    ensures Planned(Planned(def, members), members) == Planned(def, members)
  {
    var once := Planned(def, members);
    var count: nat := if members < 0 then 0 else members;
    var parallelism := Parallelism(def.stages, members);
    assert SameShape(def.stages, once.stages);
    TargetsShape(def.stages, once.stages);
    forall i | 0 <= i < |once.stages|
      ensures PlannedStage(once.stages, i, count, parallelism) == once.stages[i]
    {
      var wanted := Wants(def.stages, i, count, parallelism);
      WantsShape(def.stages, once.stages, i, count, parallelism);
      AddAllMembers(def.stages[i].dependsOn, wanted);
      AddAllNothingNew(once.stages[i].dependsOn, wanted);
    }
    assert Planned(once, members).stages == once.stages;
  }

  // ---- The plan, told by the stages alone ----

  /** The stage of some member that provisions its machines. */
  predicate ProvisionsMachines(id: string) {
    |id| >= 9 && id[0] == 'c' && id[|id| - 9..] == "-machines" && !("cleanup-" <= id)
  }

  /** The stage places a machine on this server, written "connection/node". */
  predicate PlacesOn(stage: Stage, node: string, server: string) {
    && ProvisionsMachines(stage.id) && stage.spec.placement.Some? && node != ""
    && var placement := stage.spec.placement.value;
       && server == placement.connectionRef + "/" + node
       && if |placement.machineNodes| == 0 then node == placement.node else node in placement.machineNodes
  }

  ghost predicate IsServer(stages: seq<Stage>, server: string) {
    exists k: nat, node :: k < |stages| && PlacesOn(stages[k], node, server)
  }

  lemma TargetsOfMeaning(stage: Stage, server: string)
    ensures server in TargetsOf(stage) <==> exists node :: PlacesOn(stage, node, server)
  {
    assert ProvisionsMachines(stage.id) <==> IsMachinesStage(stage.id);
    if server in TargetsOf(stage) {
      var placement := stage.spec.placement.value;
      var node :| node in PlacedNodes(placement) && node != "" && server == placement.connectionRef + "/" + node;
      assert PlacesOn(stage, node, server);
    }
  }

  lemma {:induction false} TargetsMeaning(stages: seq<Stage>, server: string)
    ensures server in Targets(stages) <==> IsServer(stages, server)
  {
    if stages != [] {
      var n := |stages| - 1;
      TargetsMeaning(stages[..n], server);
      TargetsOfMeaning(stages[n], server);
      if server in Targets(stages[..n]) {
        var k: nat, node :| k < n && PlacesOn(stages[..n][k], node, server);
        assert PlacesOn(stages[k], node, server);
      } else if IsServer(stages, server) {
        var k: nat, node :| k < |stages| && PlacesOn(stages[k], node, server);
        assert k < n ==> PlacesOn(stages[..n][k], node, server);
      }
    }
  }

  /** The number of lanes: one for fewer than two members, and otherwise the least of the
      members, four, and the servers that the machines are placed on, taken to be at least two. */
  lemma LanesMeaning(def: Definition, members: int, servers: set<string>)
    requires forall server :: server in servers <==> IsServer(def.stages, server)
    ensures var lanes, spread := Planned(def, members).maxParallelStages, if |servers| < 2 then 2 else |servers|;
      if members < 2 then lanes == 1
      else lanes <= members && lanes <= 4 && lanes <= spread && (lanes == members || lanes == 4 || lanes == spread)
  {
    forall server ensures server in Targets(def.stages) <==> server in servers {
      TargetsMeaning(def.stages, server);
    }
    assert Targets(def.stages) == servers;
  }

  /** A server is one node of one connection, unless connections are named with a slash. */
  lemma ServerNamesOnePair(a: Stage, b: Stage, node: string, other: string, server: string)
    requires PlacesOn(a, node, server) && PlacesOn(b, other, server)
    requires '/' !in a.spec.placement.value.connectionRef && '/' !in b.spec.placement.value.connectionRef
    ensures a.spec.placement.value.connectionRef == b.spec.placement.value.connectionRef && node == other
  {
    var x, y := a.spec.placement.value.connectionRef, b.spec.placement.value.connectionRef;
    assert HasPrefix(server, x + ['/']) && HasPrefix(server, y + ['/']);
    TerminatedFieldUnique(x, y, '/', server);
    assert server[|x| + 1..] == node && server[|y| + 1..] == other;
  }

  /** `id` names the last stage in front of `i` whose name starts with `prefix`. */
  predicate IsLast(stages: seq<Stage>, i: nat, prefix: string, id: string) {
    exists j :: 0 <= j < i && j < |stages| && IsLastAt(stages, i, prefix, id, j)
  }

  predicate IsLastAt(stages: seq<Stage>, i: nat, prefix: string, id: string, j: nat)
    requires j < |stages|
  {
    stages[j].id == id && prefix <= id && forall k :: j < k < i && k < |stages| ==> !(prefix <= stages[k].id)
  }

  lemma {:induction false} LastBeforeMeaning(stages: seq<Stage>, i: nat, prefix: string, id: string)
    requires i <= |stages| && prefix != "" && id != ""
    ensures LastBefore(stages, i, prefix) == id <==> IsLast(stages, i, prefix, id)
  {
    if i > 0 {
      LastBeforeMeaning(stages, i - 1, prefix, id);
      if HasPrefix(stages[i - 1].id, prefix) {
        assert stages[i - 1].id == id ==> IsLastAt(stages, i, prefix, id, i - 1);
      } else {
        LastPassesOver(stages, i, prefix, id);
      }
    }
  }

  lemma LastPassesOver(stages: seq<Stage>, i: nat, prefix: string, id: string)
    requires 0 < i <= |stages| && !(prefix <= stages[i - 1].id)
    ensures IsLast(stages, i, prefix, id) <==> IsLast(stages, i - 1, prefix, id)
  {
    if IsLast(stages, i, prefix, id) {
      var j :| 0 <= j < i && j < |stages| && IsLastAt(stages, i, prefix, id, j);
      assert j < i - 1 && IsLastAt(stages, i - 1, prefix, id, j);
    }
    if IsLast(stages, i - 1, prefix, id) {
      var j :| 0 <= j < i - 1 && j < |stages| && IsLastAt(stages, i - 1, prefix, id, j);
      assert IsLastAt(stages, i, prefix, id, j);
    }
  }

  /** What the stage at `i` waits for because it belongs to member `m`: the member's stage in
      front of it; the machines also wait for the last cleanup, for the machines of the member
      before, and for the last stage of the member whose lane they take. */
  predicate WaitsAsMember(stages: seq<Stage>, i: nat, m: nat, lanes: int, d: string)
    requires i < |stages| && m >= 1
  {
    && "c" + Decimal(m) + "-" <= stages[i].id
    && (|| IsLast(stages, i, "c" + Decimal(m) + "-", d)
        || (stages[i].id == "c" + Decimal(m) + "-machines"
            && (|| IsLast(stages, i, "cleanup-", d)
                || (m > 1 && d == "c" + Decimal(m - 1) + "-machines")
                || (lanes >= 1 && m > lanes && IsLast(stages, i, "c" + Decimal(m - lanes) + "-", d)))))
  }

  ghost predicate Waits(stages: seq<Stage>, i: nat, members: int, lanes: int, d: string)
    requires i < |stages|
  {
    if "cleanup-" <= stages[i].id then IsLast(stages, i, "cleanup-", d)
    else
      WaitsAsSome(stages, i, members, lanes, d) || (stages[i].id == "mesh" && WaitsForSome(stages, i, members, d))
  }

  ghost predicate WaitsAsSome(stages: seq<Stage>, i: nat, members: int, lanes: int, d: string)
    requires i < |stages|
  {
    exists m: nat :: 1 <= m <= members && WaitsAsMember(stages, i, m, lanes, d)
  }

  /** `d` is the last stage of some member. */
  ghost predicate WaitsForSome(stages: seq<Stage>, i: nat, members: int, d: string) {
    exists m: nat :: 1 <= m <= members && IsLast(stages, i, "c" + Decimal(m) + "-", d)
  }

  lemma MemberWantsMeaning(stages: seq<Stage>, i: nat, m: nat, parallelism: nat, d: string)
    requires i < |stages| && parallelism >= 1 && m >= 1 && d != ""
    ensures d in MemberWants(stages, i, m, parallelism) <==> WaitsAsMember(stages, i, m, parallelism, d)
  {
    assert MachinesId(m) == "c" + Decimal(m) + "-machines" && (m > 1 ==> MachinesId(m - 1) == "c" + Decimal(m - 1) + "-machines");
    LastBeforeMeaning(stages, i, MemberPrefix(m), d);
    LastBeforeMeaning(stages, i, CLEANUP, d);
    if m > parallelism {
      LastBeforeMeaning(stages, i, MemberPrefix(m - parallelism), d);
    }
  }

  lemma {:induction false} MembersWantMeaning(stages: seq<Stage>, i: nat, members: nat, parallelism: nat, d: string)
    requires i < |stages| && parallelism >= 1 && d != ""
    ensures d in MembersWant(stages, i, members, parallelism) <==> WaitsAsSome(stages, i, members, parallelism, d)
  {
    if members > 0 {
      MembersWantMeaning(stages, i, members - 1, parallelism, d);
      MemberWantsMeaning(stages, i, members, parallelism, d);
      OneMoreMember(stages, i, members, parallelism, d);
    }
  }

  lemma OneMoreMember(stages: seq<Stage>, i: nat, members: nat, lanes: int, d: string)
    requires i < |stages| && members > 0
    ensures WaitsAsSome(stages, i, members, lanes, d) <==> WaitsAsSome(stages, i, members - 1, lanes, d) || WaitsAsMember(stages, i, members, lanes, d)
    ensures WaitsForSome(stages, i, members, d) <==> WaitsForSome(stages, i, members - 1, d) || IsLast(stages, i, "c" + Decimal(members) + "-", d)
  {
  }

  lemma {:induction false} MeshWantsMeaning(stages: seq<Stage>, i: nat, members: nat, d: string)
    requires i < |stages| && d != ""
    ensures d in MeshWants(stages, i, members) <==> WaitsForSome(stages, i, members, d)
  {
    if members > 0 {
      MeshWantsMeaning(stages, i, members - 1, d);
      LastBeforeMeaning(stages, i, MemberPrefix(members), d);
      OneMoreMember(stages, i, members, 1, d);
    }
  }

  lemma {:induction false} AddAllKeeps(dependencies: seq<string>, wanted: seq<string>)
    ensures dependencies <= AddAll(dependencies, wanted)
    ensures Distinct(dependencies) ==> Distinct(AddAll(dependencies, wanted))
    decreases |wanted|
  {
    if wanted != [] {
      AddAllKeeps(Add(dependencies, wanted[0]), wanted[1..]);
    }
  }

  /** Planning only adds dependencies, behind those a stage had, and exactly the ones above. */
  lemma PlannedMeaning(def: Definition, members: int, i: nat, d: string)
    requires i < |def.stages|
    ensures var planned := Planned(def, members);
      && |planned.stages| == |def.stages| && planned.result == def.result
      && planned.stages[i] == def.stages[i].(dependsOn := planned.stages[i].dependsOn)
      && def.stages[i].dependsOn <= planned.stages[i].dependsOn
      && (Distinct(def.stages[i].dependsOn) ==> Distinct(planned.stages[i].dependsOn))
      && (d in planned.stages[i].dependsOn <==>
            d in def.stages[i].dependsOn || (d != "" && Waits(def.stages, i, members, planned.maxParallelStages, d)))
  {
    var lanes := Parallelism(def.stages, members);
    var count: nat := if members < 0 then 0 else members;
    var wanted := Wants(def.stages, i, count, lanes);
    AddAllKeeps(def.stages[i].dependsOn, wanted);
    AddAllMembers(def.stages[i].dependsOn, wanted);
    if d != "" {
      WantsMeaning(def.stages, i, count, lanes, d);
    }
  }

  lemma WantsMeaning(stages: seq<Stage>, i: nat, members: nat, parallelism: nat, d: string)
    requires i < |stages| && parallelism >= 1 && d != ""
    ensures d in Wants(stages, i, members, parallelism) <==> Waits(stages, i, members, parallelism, d)
  {
    assert IsCleanup(stages[i].id) <==> "cleanup-" <= stages[i].id;
    if IsCleanup(stages[i].id) {
      LastBeforeMeaning(stages, i, CLEANUP, d);
    } else {
      MembersWantMeaning(stages, i, members, parallelism, d);
      MeshWantsMeaning(stages, i, members, d);
    }
  }
}
