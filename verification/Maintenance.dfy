/** Node maintenance of a managed cluster: maintenanceMachines in
    internal/api/cluster_maintenance.go with the naming, placement and profile helpers of
    internal/api/clusters.go. */
module Maintenance {
  import opened Text

  datatype Capacity = Capacity(cores: int, memoryMiB: int, diskGiB: int)

  /** The labels and taints of a pool, compared as a whole. */
  datatype Placement = Placement(text: string, valid: bool)

  datatype Pool = Pool(name: string, count: int, zones: seq<string>, capacity: Capacity, placement: Placement)

  /** A text that is no IPv4 address is None. */
  datatype Cluster = Cluster(
    name: string,
    controlPlanes: nat,
    controlPlaneCapacity: Capacity,
    management: Pool,
    pools: seq<Pool>,
    machineNodes: map<string, string>,
    addressStart: Option<nat>,
    prefixLength: int,
    gateway: string)

  datatype Input = Input(pools: seq<Pool>, machineNodes: map<string, string>, newVMIDStart: int, newAddressStart: Option<nat>)

  datatype Machine = Machine(vmid: int, name: string, node: string, address: string, capacity: Capacity)

  datatype Refusal =
    | InvalidPlacement
    | InvalidPools
    | ExistingPoolChanged
    | InvalidCapacity
    | TooManyMachines
    | UnknownMachine
    | InvalidServer
    | FixedNodeReplaced
    | AllocationTaken
    | NothingChanged

  datatype Outcome<+T> = Ok(value: T) | Refused(reason: Refusal)

  const CONTROL_PLANE: string := "control-plane"

  // ---- Machine names ----

  function MachineName(cluster: string, pool: string, index: nat): string {
    cluster + "-" + pool + "-" + Decimal(index)
  }

  /** The names of machines 1 to count of a pool. */
  function PoolNames(cluster: string, pool: string, count: int): seq<string> {
    if count <= 0 then [] else PoolNames(cluster, pool, count - 1) + [MachineName(cluster, pool, count)]
  }

  function PoolsNames(cluster: string, pools: seq<Pool>): seq<string> {
    if pools == [] then []
    else PoolsNames(cluster, pools[..|pools| - 1]) + PoolNames(cluster, pools[|pools| - 1].name, pools[|pools| - 1].count)
  }

  function FixedNames(c: Cluster): seq<string> {
    PoolNames(c.name, CONTROL_PLANE, c.controlPlanes) + PoolNames(c.name, c.management.name, c.management.count)
  }

  /** internal/api/clusters.go: managedClusterMachineNames. */
  function MachineNames(c: Cluster): seq<string> {
    FixedNames(c) + PoolsNames(c.name, c.pools)
  }

  method AppendPool(names: seq<string>, cluster: string, pool: string, count: int) returns (result: seq<string>)
    ensures result == names + PoolNames(cluster, pool, count)
  {
    result := names;
    if count >= 1 {
      for index := 1 to count + 1
        invariant result == names + PoolNames(cluster, pool, index - 1)
      {
        result := result + [MachineName(cluster, pool, index)];
      }
    }
  }

  method AppendPools(names: seq<string>, cluster: string, pools: seq<Pool>) returns (result: seq<string>)
    ensures result == names + PoolsNames(cluster, pools)
  {
    result := names;
    for p := 0 to |pools|
      invariant result == names + PoolsNames(cluster, pools[..p])
    {
      assert pools[..p + 1][..p] == pools[..p];
      result := AppendPool(result, cluster, pools[p].name, pools[p].count);
    }
    assert pools[..|pools|] == pools;
  }

  method ManagedClusterMachineNames(c: Cluster) returns (names: seq<string>)
    ensures names == MachineNames(c)
  {
    names := AppendPool([], c.name, CONTROL_PLANE, c.controlPlanes);
    names := AppendPool(names, c.name, c.management.name, c.management.count);
    names := AppendPools(names, c.name, c.pools);
  }

  /** The pool and the index can be read off a machine name, dashes in pool names or not. */
  lemma MachineNameInjective(cluster: string, pool: string, index: nat, pool': string, index': nat)
    requires MachineName(cluster, pool, index) == MachineName(cluster, pool', index')
    ensures pool == pool' && index == index'
  {
    var s, n := MachineName(cluster, pool, index), |cluster| + 1;
    var d, d' := Decimal(index), Decimal(index');
    DecimalFree(index, '-');
    DecimalFree(index', '-');
    assert s[n..] == pool + "-" + d && s[n..] == pool' + "-" + d';
    var t := s[n..];
    LastDash(pool, d, t);
    LastDash(pool', d', t);
    assert |pool| == |pool'| by {
      assert t[|pool|] == '-' && t[|pool'|] == '-';
    }
    assert t[..|pool|] == pool && t[..|pool'|] == pool';
    assert t[|pool| + 1..] == d && t[|pool'| + 1..] == d';
    DecimalInjective(index, index');
  }

  lemma LastDash(pool: string, d: string, t: string)
    requires t == pool + "-" + d && '-' !in d
    ensures t[|pool|] == '-' && forall i :: |pool| < i < |t| ==> t[i] != '-'
  {
    forall i | |pool| < i < |t| ensures t[i] != '-' {
      assert t[i] == d[i - |pool| - 1];
    }
  }

  lemma {:induction false} PoolNamesAt(cluster: string, pool: string, count: int)
    ensures |PoolNames(cluster, pool, count)| == if count <= 0 then 0 else count
    ensures forall k :: 0 <= k < |PoolNames(cluster, pool, count)| ==> PoolNames(cluster, pool, count)[k] == MachineName(cluster, pool, k + 1)
  {
    if count > 0 {
      PoolNamesAt(cluster, pool, count - 1);
    }
  }

  lemma PoolNamesDistinct(cluster: string, pool: string, count: int)
    ensures Distinct(PoolNames(cluster, pool, count))
  {
    PoolNamesAt(cluster, pool, count);
    var names := PoolNames(cluster, pool, count);
    forall i, j | 0 <= i < j < |names| ensures names[i] != names[j] {
      if names[i] == names[j] {
        MachineNameInjective(cluster, pool, i + 1, pool, j + 1);
      }
    }
  }

  lemma PoolsApart(cluster: string, a: string, m: int, b: string, n: int)
    requires a != b
    ensures Apart(PoolNames(cluster, a, m), PoolNames(cluster, b, n))
  {
    PoolNamesAt(cluster, a, m);
    PoolNamesAt(cluster, b, n);
    var x, y := PoolNames(cluster, a, m), PoolNames(cluster, b, n);
    forall i, j | 0 <= i < |x| && 0 <= j < |y| ensures x[i] != y[j] {
      if x[i] == y[j] {
        MachineNameInjective(cluster, a, i + 1, b, j + 1);
      }
    }
  }

  function PoolIds(pools: seq<Pool>): (ids: seq<string>)
    ensures |ids| == |pools| && forall i :: 0 <= i < |pools| ==> ids[i] == pools[i].name
  {
    seq(|pools|, i requires 0 <= i < |pools| => pools[i].name)
  }

  lemma {:induction false} PoolApartFromAll(cluster: string, name: string, count: int, pools: seq<Pool>)
    requires name !in PoolIds(pools)
    ensures Apart(PoolNames(cluster, name, count), PoolsNames(cluster, pools))
  {
    if pools != [] {
      var n := |pools| - 1;
      assert PoolIds(pools)[n] == pools[n].name && PoolIds(pools[..n]) == PoolIds(pools)[..n];
      PoolApartFromAll(cluster, name, count, pools[..n]);
      PoolsApart(cluster, name, count, pools[n].name, pools[n].count);
    }
  }

  lemma {:induction false} PoolsNamesDistinct(cluster: string, pools: seq<Pool>)
    requires Distinct(PoolIds(pools))
    ensures Distinct(PoolsNames(cluster, pools))
  {
    if pools != [] {
      var n := |pools| - 1;
      var ids := PoolIds(pools);
      assert PoolIds(pools[..n]) == ids[..n];
      PoolsNamesDistinct(cluster, pools[..n]);
      PoolNamesDistinct(cluster, pools[n].name, pools[n].count);
      PoolApartFromAll(cluster, pools[n].name, pools[n].count, pools[..n]);
      DistinctAppend(PoolsNames(cluster, pools[..n]), PoolNames(cluster, pools[n].name, pools[n].count));
    }
  }

  /** The two fixed pools have distinct machine names exactly if they do not share a name
      while both hold machines. */
  lemma FixedNamesDistinct(c: Cluster)
    ensures Distinct(FixedNames(c)) <==> c.management.name != CONTROL_PLANE || c.controlPlanes == 0 || c.management.count <= 0
  {
    var a, b := PoolNames(c.name, CONTROL_PLANE, c.controlPlanes), PoolNames(c.name, c.management.name, c.management.count);
    PoolNamesAt(c.name, CONTROL_PLANE, c.controlPlanes);
    PoolNamesAt(c.name, c.management.name, c.management.count);
    PoolNamesDistinct(c.name, CONTROL_PLANE, c.controlPlanes);
    PoolNamesDistinct(c.name, c.management.name, c.management.count);
    if c.management.name != CONTROL_PLANE {
      PoolsApart(c.name, CONTROL_PLANE, c.controlPlanes, c.management.name, c.management.count);
      DistinctAppend(a, b);
    } else if a != [] && b != [] {
      assert (a + b)[0] == (a + b)[|a|];
    } else {
      assert a + b == a || a + b == b;
    }
  }

  /** Application pools are named apart from each other and from the fixed pools. */
  predicate PoolsNamedApart(c: Cluster) {
    Distinct(PoolIds(c.pools)) && CONTROL_PLANE !in PoolIds(c.pools) && c.management.name !in PoolIds(c.pools)
  }

  /** With application pools named apart, all machine names are distinct exactly if the
      management pool does not take the name of the control plane. */
  lemma MachineNamesDistinct(c: Cluster)
    requires PoolsNamedApart(c)
    ensures Distinct(MachineNames(c)) <==> c.management.name != CONTROL_PLANE || c.controlPlanes == 0 || c.management.count <= 0
  {
    var fixed, rest := FixedNames(c), PoolsNames(c.name, c.pools);
    FixedNamesDistinct(c);
    PoolsNamesDistinct(c.name, c.pools);
    PoolApartFromAll(c.name, CONTROL_PLANE, c.controlPlanes, c.pools);
    PoolApartFromAll(c.name, c.management.name, c.management.count, c.pools);
    assert Apart(fixed, rest);
    if Distinct(fixed) {
      DistinctAppend(fixed, rest);
    } else {
      var i, j :| 0 <= i < j < |fixed| && fixed[i] == fixed[j];
      assert (fixed + rest)[i] == (fixed + rest)[j];
    }
  }

  // ---- Profiles ----

  function Repeated(count: int, capacity: Capacity): seq<Capacity> {
    if count <= 0 then [] else Repeated(count - 1, capacity) + [capacity]
  }

  function PoolsProfiles(pools: seq<Pool>): seq<Capacity> {
    if pools == [] then []
    else PoolsProfiles(pools[..|pools| - 1]) + Repeated(pools[|pools| - 1].count, pools[|pools| - 1].capacity)
  }

  function FixedProfiles(c: Cluster): seq<Capacity> {
    Repeated(c.controlPlanes, c.controlPlaneCapacity) + Repeated(c.management.count, c.management.capacity)
  }

  function Profiles(c: Cluster): seq<Capacity> {
    FixedProfiles(c) + PoolsProfiles(c.pools)
  }

  /** internal/api/clusters.go: appendManagedMachineProfiles. */
  method AppendProfiles(profiles: seq<Capacity>, count: int, capacity: Capacity) returns (result: seq<Capacity>)
    ensures result == profiles + Repeated(count, capacity)
  {
    result := profiles;
    if count >= 1 {
      for k := 0 to count
        invariant result == profiles + Repeated(k, capacity)
      {
        result := result + [capacity];
      }
    }
  }

  method ManagedProfiles(c: Cluster) returns (profiles: seq<Capacity>)
    ensures profiles == Profiles(c)
  {
    profiles := AppendProfiles([], c.controlPlanes, c.controlPlaneCapacity);
    profiles := AppendProfiles(profiles, c.management.count, c.management.capacity);
    ghost var fixed := profiles;
    for p := 0 to |c.pools|
      invariant profiles == fixed + PoolsProfiles(c.pools[..p])
    {
      assert c.pools[..p + 1][..p] == c.pools[..p];
      profiles := AppendProfiles(profiles, c.pools[p].count, c.pools[p].capacity);
    }
    assert c.pools[..|c.pools|] == c.pools;
  }

  lemma {:induction false} RepeatedAt(count: int, capacity: Capacity)
    ensures |Repeated(count, capacity)| == if count <= 0 then 0 else count
    ensures forall k :: 0 <= k < |Repeated(count, capacity)| ==> Repeated(count, capacity)[k] == capacity
  {
    if count > 0 {
      RepeatedAt(count - 1, capacity);
    }
  }

  /** Slot `k` of the application machines is machine `index` of a pool and has its capacity. */
  predicate SlotOf(cluster: string, pools: seq<Pool>, k: nat, pool: Pool, index: nat) {
    && k < |PoolsNames(cluster, pools)| && k < |PoolsProfiles(pools)|
    && pool in pools && 1 <= index <= pool.count
    && PoolsNames(cluster, pools)[k] == MachineName(cluster, pool.name, index) && PoolsProfiles(pools)[k] == pool.capacity
  }

  lemma {:induction false} PoolSlots(cluster: string, pools: seq<Pool>, k: nat) returns (pool: Pool, index: nat)
    requires k < |PoolsNames(cluster, pools)|
    ensures |PoolsProfiles(pools)| == |PoolsNames(cluster, pools)|
    ensures SlotOf(cluster, pools, k, pool, index)
  {
    var n := |pools| - 1;
    var before, last := pools[..n], pools[n];
    PoolLengths(cluster, before);
    PoolNamesAt(cluster, last.name, last.count);
    RepeatedAt(last.count, last.capacity);
    var m := |PoolsNames(cluster, before)|;
    if k < m {
      pool, index := PoolSlots(cluster, before, k);
    } else {
      pool, index := last, k - m + 1;
      assert PoolsNames(cluster, pools)[k] == PoolNames(cluster, last.name, last.count)[k - m];
      assert PoolsProfiles(pools)[k] == Repeated(last.count, last.capacity)[k - m];
    }
  }

  lemma {:induction false} PoolLengths(cluster: string, pools: seq<Pool>)
    ensures |PoolsProfiles(pools)| == |PoolsNames(cluster, pools)|
  {
    if pools != [] {
      var n := |pools| - 1;
      PoolLengths(cluster, pools[..n]);
      PoolNamesAt(cluster, pools[n].name, pools[n].count);
      RepeatedAt(pools[n].count, pools[n].capacity);
    }
  }

  /** How many machines the pools hold together. */
  function Total(pools: seq<Pool>): int {
    if pools == [] then 0 else Total(pools[..|pools| - 1]) + pools[|pools| - 1].count
  }

  /** The fixed machines: the control plane first, then the management pool, each with the
      capacity that was saved for it. */
  lemma FixedSlots(c: Cluster, k: nat)
    requires c.management.count >= 0 && k < c.controlPlanes + c.management.count
    ensures k < |MachineNames(c)| && k < |Profiles(c)|
    ensures k < c.controlPlanes ==> MachineNames(c)[k] == c.name + "-control-plane-" + Decimal(k + 1) && Profiles(c)[k] == c.controlPlaneCapacity
    ensures k >= c.controlPlanes ==>
              && MachineNames(c)[k] == c.name + "-" + c.management.name + "-" + Decimal(k - c.controlPlanes + 1)
              && Profiles(c)[k] == c.management.capacity
  {
    PoolNamesAt(c.name, CONTROL_PLANE, c.controlPlanes);
    PoolNamesAt(c.name, c.management.name, c.management.count);
    RepeatedAt(c.controlPlanes, c.controlPlaneCapacity);
    RepeatedAt(c.management.count, c.management.capacity);
    assert c.name + "-" + CONTROL_PLANE + "-" == c.name + "-control-plane-";
  }

  /** The last pool's machines stand behind all others. */
  lemma LastPoolPositions(cluster: string, pools: seq<Pool>, index: nat)
    requires pools != [] && (forall i :: 0 <= i < |pools| ==> pools[i].count >= 0) && 1 <= index <= pools[|pools| - 1].count
    ensures var last, before := pools[|pools| - 1], Total(pools[..|pools| - 1]);
      && 0 <= before && before + index <= |PoolsNames(cluster, pools)| == |PoolsProfiles(pools)|
      && PoolsNames(cluster, pools)[before + index - 1] == MachineName(cluster, last.name, index)
      && PoolsProfiles(pools)[before + index - 1] == last.capacity
  {
    var n := |pools| - 1;
    PoolsLength(cluster, pools[..n]);
    PoolNamesAt(cluster, pools[n].name, pools[n].count);
    RepeatedAt(pools[n].count, pools[n].capacity);
  }

  lemma {:induction false} PoolPlaces(cluster: string, pools: seq<Pool>, p: nat, index: nat)
    requires (forall i :: 0 <= i < |pools| ==> pools[i].count >= 0) && p < |pools| && 1 <= index <= pools[p].count
    ensures 0 <= Total(pools[..p]) && Total(pools[..p]) + index <= |PoolsNames(cluster, pools)| == |PoolsProfiles(pools)|
    ensures PoolsNames(cluster, pools)[Total(pools[..p]) + index - 1] == MachineName(cluster, pools[p].name, index)
    ensures PoolsProfiles(pools)[Total(pools[..p]) + index - 1] == pools[p].capacity
  {
    var n := |pools| - 1;
    PoolLengths(cluster, pools);
    if p < n {
      assert pools[..n][..p] == pools[..p];
      PoolPlaces(cluster, pools[..n], p, index);
      NamesBehind(cluster, pools);
    } else {
      LastPoolPositions(cluster, pools, index);
    }
  }

  lemma NamesBehind(cluster: string, pools: seq<Pool>)
    requires pools != []
    ensures PoolsNames(cluster, pools[..|pools| - 1]) <= PoolsNames(cluster, pools)
    ensures PoolsProfiles(pools[..|pools| - 1]) <= PoolsProfiles(pools)
  {
  }

  /** The application machines: behind the fixed ones, pool by pool in the saved order, and
      within a pool by index. */
  lemma PoolPositions(c: Cluster, p: nat, index: nat)
    requires c.management.count >= 0 && (forall i :: 0 <= i < |c.pools| ==> c.pools[i].count >= 0)
    requires p < |c.pools| && 1 <= index <= c.pools[p].count
    ensures var k := c.controlPlanes + c.management.count + Total(c.pools[..p]) + index - 1;
      && 0 <= k < |MachineNames(c)| == |Profiles(c)|
      && MachineNames(c)[k] == c.name + "-" + c.pools[p].name + "-" + Decimal(index) && Profiles(c)[k] == c.pools[p].capacity
  {
    PoolPlaces(c.name, c.pools, p, index);
    OneProfilePerName(c);
  }

  lemma {:induction false} PoolsLength(cluster: string, pools: seq<Pool>)
    requires forall i :: 0 <= i < |pools| ==> pools[i].count >= 0
    ensures 0 <= Total(pools) == |PoolsNames(cluster, pools)| == |PoolsProfiles(pools)|
  {
    if pools != [] {
      var n := |pools| - 1;
      PoolsLength(cluster, pools[..n]);
      PoolNamesAt(cluster, pools[n].name, pools[n].count);
      RepeatedAt(pools[n].count, pools[n].capacity);
    }
  }

  /** There is one profile per machine name. */
  lemma OneProfilePerName(c: Cluster)
    ensures |Profiles(c)| == |MachineNames(c)| && |FixedProfiles(c)| == |FixedNames(c)|
    ensures c.management.count >= 0 ==> |FixedNames(c)| == c.controlPlanes + c.management.count
  {
    PoolLengths(c.name, c.pools);
    PoolNamesAt(c.name, CONTROL_PLANE, c.controlPlanes);
    PoolNamesAt(c.name, c.management.name, c.management.count);
    RepeatedAt(c.controlPlanes, c.controlPlaneCapacity);
    RepeatedAt(c.management.count, c.management.capacity);
  }

  // ---- Servers ----

  predicate IsSpace(c: char) {
    c == ' ' || c == '\t' || c == '\n' || c == '\r'
  }

  function Trimmed(s: string): string {
    if s == [] then []
    else if IsSpace(s[0]) then Trimmed(s[1..])
    else if IsSpace(s[|s| - 1]) then Trimmed(s[..|s| - 1])
    else s
  }

  lemma {:induction false} TrimmedTwice(s: string)
    ensures Trimmed(Trimmed(s)) == Trimmed(s)
  {
    if s != [] {
      if IsSpace(s[0]) {
        TrimmedTwice(s[1..]);
      } else if IsSpace(s[|s| - 1]) {
        TrimmedTwice(s[..|s| - 1]);
      }
    }
  }

  predicate Blank(s: string) {
    forall i :: 0 <= i < |s| ==> IsSpace(s[i])
  }

  /** `s` without the blanks around it. */
  predicate IsCore(s: string, core: string, before: string, after: string) {
    && s == before + core + after && Blank(before) && Blank(after)
    && (core != [] ==> !IsSpace(core[0]) && !IsSpace(core[|core| - 1]))
  }

  lemma {:induction false} TrimmedMeaning(s: string) returns (before: string, after: string)
    ensures IsCore(s, Trimmed(s), before, after)
  {
    before, after := [], [];
    if s != [] {
      if IsSpace(s[0]) {
        before, after := TrimmedMeaning(s[1..]);
        assert s == [s[0]] + s[1..];
        before := [s[0]] + before;
      } else if IsSpace(s[|s| - 1]) {
        before, after := TrimmedMeaning(s[..|s| - 1]);
        assert s == s[..|s| - 1] + [s[|s| - 1]];
        after := after + [s[|s| - 1]];
      } else {
        assert s == [] + s + [];
      }
    }
  }

  predicate IsServer(s: string) {
    1 <= |s| <= 64 && forall i :: 0 <= i < |s| ==> 'A' <= s[i] <= 'Z' || 'a' <= s[i] <= 'z' || IsDigit(s[i]) || s[i] in "._-"
  }

  function ServerFor(machineNodes: map<string, string>, defaultNode: string, name: string): string {
    Trimmed(if name in machineNodes then machineNodes[name] else defaultNode)
  }

  predicate OnlyKnown(machineNodes: map<string, string>, names: seq<string>) {
    forall name :: name in machineNodes ==> name in names
  }

  predicate ServersValid(machineNodes: map<string, string>, defaultNode: string, names: seq<string>) {
    forall i :: 0 <= i < |names| ==> IsServer(ServerFor(machineNodes, defaultNode, names[i]))
  }

  /** The map after the machines in `done` were given their servers. */
  ghost predicate Assigned(machineNodes: map<string, string>, initial: map<string, string>, defaultNode: string, done: set<string>) {
    && machineNodes.Keys == initial.Keys + done
    && forall name :: name in machineNodes ==>
         machineNodes[name] == if name in done then ServerFor(initial, defaultNode, name) else initial[name]
  }

  lemma AssignedLookup(machineNodes: map<string, string>, initial: map<string, string>, defaultNode: string, done: set<string>, name: string)
    requires Assigned(machineNodes, initial, defaultNode, done)
    ensures ServerFor(machineNodes, defaultNode, name) == ServerFor(initial, defaultNode, name)
  {
    TrimmedTwice(if name in initial then initial[name] else defaultNode);
  }

  /** One turn of that loop. */
  method AssignServer(ghost initial: map<string, string>, defaultNode: string, ghost done: set<string>, name: string, machineNodes: map<string, string>)
    returns (ok: bool, node: string, machineNodes': map<string, string>)
    requires Assigned(machineNodes, initial, defaultNode, done)
    ensures node == ServerFor(initial, defaultNode, name) && (ok <==> IsServer(node))
    ensures Assigned(machineNodes', initial, defaultNode, if ok then done + {name} else done)
  {
    AssignedLookup(machineNodes, initial, defaultNode, done, name);
    node := ServerFor(machineNodes, defaultNode, name);
    ok := IsServer(node);
    machineNodes' := if ok then machineNodes[name := node] else machineNodes;
  }

  /** The servers of the machines so far, all valid. */
  predicate ServersOf(nodes: seq<string>, initial: map<string, string>, defaultNode: string, names: seq<string>)
    requires |nodes| <= |names|
  {
    forall i :: 0 <= i < |nodes| ==> nodes[i] == ServerFor(initial, defaultNode, names[i]) && IsServer(nodes[i])
  }

  lemma ServersOfStep(nodes: seq<string>, initial: map<string, string>, defaultNode: string, names: seq<string>, node: string)
    requires |nodes| < |names| && ServersOf(nodes, initial, defaultNode, names)
    requires node == ServerFor(initial, defaultNode, names[|nodes|]) && IsServer(node)
    ensures ServersOf(nodes + [node], initial, defaultNode, names)
  {
  }

  function Elements(names: seq<string>): set<string> {
    set name | name in names
  }

  lemma ElementsStep(names: seq<string>, k: nat)
    requires k < |names|
    ensures Elements(names[..k + 1]) == Elements(names[..k]) + {names[k]}
  {
    assert names[..k + 1] == names[..k] + [names[k]];
  }

  /** The map after the first `n` machines were given their servers. */
  ghost predicate FilledUpTo(machineNodes: map<string, string>, initial: map<string, string>, defaultNode: string, names: seq<string>, n: nat) {
    n <= |names| && Assigned(machineNodes, initial, defaultNode, Elements(names[..n]))
  }

  /** The assignment loop of managedClusterMachineNodes. */
  method AssignServers(initial: map<string, string>, defaultNode: string, names: seq<string>)
    returns (ok: bool, nodes: seq<string>, machineNodes: map<string, string>)
    ensures ok <==> ServersValid(initial, defaultNode, names)
    ensures ok ==> |nodes| == |names| && ServersOf(nodes, initial, defaultNode, names)
    ensures exists n: nat :: FilledUpTo(machineNodes, initial, defaultNode, names, n) && (ok ==> n == |names|)
  {
    machineNodes, nodes := initial, [];
    for index := 0 to |names|
      invariant |nodes| == index && ServersOf(nodes, initial, defaultNode, names)
      invariant FilledUpTo(machineNodes, initial, defaultNode, names, index)
    {
      var node;
      ok, node, machineNodes := AssignServer(initial, defaultNode, Elements(names[..index]), names[index], machineNodes);
      if !ok {
        assert FilledUpTo(machineNodes, initial, defaultNode, names, index);
        return;
      }
      ElementsStep(names, index);
      ServersOfStep(nodes, initial, defaultNode, names, node);
      nodes := nodes + [node];
    }
    return true, nodes, machineNodes;
  }

  /** internal/api/clusters.go: managedClusterMachineNodes. The caller's map comes back with
      an explicit server for every machine, or as far as the loop got. */
  method ManagedClusterMachineNodes(c: Cluster, defaultNode: string) returns (outcome: Outcome<seq<string>>, machineNodes: map<string, string>)
    ensures outcome.Ok? <==> OnlyKnown(c.machineNodes, MachineNames(c)) && ServersValid(c.machineNodes, defaultNode, MachineNames(c))
    ensures outcome == Refused(UnknownMachine) <==> !OnlyKnown(c.machineNodes, MachineNames(c))
    ensures outcome.Refused? ==> outcome.reason == UnknownMachine || outcome.reason == InvalidServer
    ensures outcome.Ok? ==>
      && |outcome.value| == |MachineNames(c)|
      && forall i :: 0 <= i < |outcome.value| ==> outcome.value[i] == ServerFor(c.machineNodes, defaultNode, MachineNames(c)[i])
    ensures outcome == Refused(UnknownMachine) ==> machineNodes == c.machineNodes
    ensures exists n: nat :: FilledUpTo(machineNodes, c.machineNodes, defaultNode, MachineNames(c), n) && (outcome.Ok? ==> n == |MachineNames(c)|)
  {
    var names := ManagedClusterMachineNames(c);
    if exists name :: name in c.machineNodes && name !in names {
      assert FilledUpTo(c.machineNodes, c.machineNodes, defaultNode, names, 0);
      return Refused(UnknownMachine), c.machineNodes;
    }
    var ok, nodes, filled := AssignServers(c.machineNodes, defaultNode, names);
    return if ok then Ok(nodes) else Refused(InvalidServer), filled;
  }
}
