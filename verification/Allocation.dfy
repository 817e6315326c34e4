/** The allocation half of maintenanceMachines in internal/api/cluster_maintenance.go: which
    pools are accepted, and which VMIDs and addresses new machines get. */
module Allocation {
  import opened Text
  import opened Addresses
  import opened Maintenance

  // ---- Pools ----

  predicate ValidPool(p: Pool) {
    && ShortName(p.name) && 1 <= p.count <= 12 && 1 <= |p.zones| <= 12
    && Distinct(p.zones) && forall i :: 0 <= i < |p.zones| ==> ShortName(p.zones[i])
  }

  predicate ValidCapacity(c: Capacity, templateDiskGiB: int) {
    1 <= c.cores <= 32 && 1024 <= c.memoryMiB <= 131072 && templateDiskGiB <= c.diskGiB <= 2048
  }

  /** internal/api/clusters.go: validManagedPool. */
  method ValidManagedPool(p: Pool) returns (ok: bool)
    ensures ok <==> ValidPool(p)
  {
    if !ShortName(p.name) || p.count < 1 || p.count > 12 || |p.zones| == 0 || |p.zones| > 12 {
      return false;
    }
    var seen: set<string> := {};
    for z := 0 to |p.zones|
      invariant forall i :: 0 <= i < z ==> ShortName(p.zones[i]) && p.zones[i] in seen
      invariant forall zone :: zone in seen ==> exists i :: 0 <= i < z && p.zones[i] == zone
      invariant forall i, j :: 0 <= i < j < z ==> p.zones[i] != p.zones[j]
    {
      if !ShortName(p.zones[z]) || p.zones[z] in seen {
        return false;
      }
      seen := seen + {p.zones[z]};
    }
    return true;
  }

  /** The last saved pool of a name, as in a Go map filled in a loop. */
  function OldPool(pools: seq<Pool>, name: string): Option<Pool> {
    if pools == [] then None
    else if pools[|pools| - 1].name == name then Some(pools[|pools| - 1])
    else OldPool(pools[..|pools| - 1], name)
  }

  predicate PoolAccepted(saved: Cluster, pools: seq<Pool>, i: nat)
    requires i < |pools|
  {
    var p := pools[i];
    && p.placement.valid && ValidPool(p)
    && p.name != CONTROL_PLANE && p.name != saved.management.name && (forall k :: 0 <= k < i ==> pools[k].name != p.name)
    && match OldPool(saved.pools, p.name)
       case Some(before) => before.capacity == p.capacity && before.zones == p.zones
       case None => ValidCapacity(p.capacity, 8)
  }

  predicate PoolsAccepted(saved: Cluster, pools: seq<Pool>) {
    && (forall i: nat :: i < |pools| ==> PoolAccepted(saved, pools, i))
    && saved.controlPlanes + saved.management.count + Total(pools) <= 12
  }

  method IndexPools(pools: seq<Pool>) returns (byName: map<string, Pool>)
    ensures forall name :: OldPool(pools, name) == if name in byName then Some(byName[name]) else None
  {
    byName := map[];
    for k := 0 to |pools|
      invariant forall name :: OldPool(pools[..k], name) == if name in byName then Some(byName[name]) else None
    {
      assert pools[..k + 1][..k] == pools[..k];
      byName := byName[pools[k].name := pools[k]];
    }
    assert pools[..|pools|] == pools;
  }

  /** The body of the pool loop. */
  method CheckPool(saved: Cluster, pools: seq<Pool>, i: nat, byName: map<string, Pool>, seen: set<string>) returns (refusal: Option<Refusal>)
    requires i < |pools|
    requires forall name :: OldPool(saved.pools, name) == if name in byName then Some(byName[name]) else None
    requires forall name :: name in seen <==> name == CONTROL_PLANE || name == saved.management.name || name in PoolIds(pools[..i])
    ensures refusal.None? <==> PoolAccepted(saved, pools, i)
    ensures refusal != Some(NothingChanged)
  {
    var p := pools[i];
    SeenBefore(pools, i, p.name);
    if !p.placement.valid {
      return Some(InvalidPlacement);
    }
    var ok := ValidManagedPool(p);
    if !ok || p.name in seen {
      return Some(InvalidPools);
    }
    assert OldPool(saved.pools, p.name) == if p.name in byName then Some(byName[p.name]) else None;
    if p.name in byName {
      if byName[p.name].capacity != p.capacity || byName[p.name].zones != p.zones {
        return Some(ExistingPoolChanged);
      }
    } else if !ValidCapacity(p.capacity, 8) {
      return Some(InvalidCapacity);
    }
    return None;
  }

  lemma SeenBefore(pools: seq<Pool>, i: nat, name: string)
    requires i <= |pools|
    ensures name in PoolIds(pools[..i]) <==> exists k :: 0 <= k < i && pools[k].name == name
  {
    var ids := PoolIds(pools[..i]);
    assert forall k :: 0 <= k < i ==> ids[k] == pools[k].name;
    if k :| 0 <= k < i && pools[k].name == name {
      assert ids[k] == name;
    }
  }

  /** The pool loop of maintenanceMachines. */
  method CheckPools(saved: Cluster, pools: seq<Pool>) returns (refusal: Option<Refusal>)
    ensures refusal.None? <==> PoolsAccepted(saved, pools)
    ensures refusal != Some(NothingChanged)
  {
    var seen := {CONTROL_PLANE, saved.management.name};
    var byName := IndexPools(saved.pools);
    var total := saved.controlPlanes + saved.management.count;
    for i := 0 to |pools|
      invariant forall k: nat :: k < i ==> PoolAccepted(saved, pools, k)
      invariant forall name :: name in seen <==> name == CONTROL_PLANE || name == saved.management.name || name in PoolIds(pools[..i])
      invariant total == saved.controlPlanes + saved.management.count + Total(pools[..i])
    {
      refusal := CheckPool(saved, pools, i, byName, seen);
      if refusal.Some? {
        return;
      }
      assert pools[..i + 1][..i] == pools[..i] && PoolIds(pools[..i + 1]) == PoolIds(pools[..i]) + [pools[i].name];
      seen := seen + {pools[i].name};
      total := total + pools[i].count;
    }
    assert pools[..|pools|] == pools;
    return if total > 12 then Some(TooManyMachines) else None;
  }

  /** Accepted pools are named apart from each other and from the fixed pools. */
  lemma AcceptedNamedApart(saved: Cluster, desired: Cluster)
    requires PoolsAccepted(saved, desired.pools) && desired.management == saved.management
    ensures PoolsNamedApart(desired)
  {
    var ids := PoolIds(desired.pools);
    forall i: nat, j: nat | i < j < |ids| ensures ids[i] != ids[j] {
      assert PoolAccepted(saved, desired.pools, j);
    }
    forall i: nat | i < |ids| ensures ids[i] != CONTROL_PLANE && ids[i] != saved.management.name {
      assert PoolAccepted(saved, desired.pools, i);
    }
  }

  // ---- Allocation ----

  /** `text` is how addresses are written, here always Dotted; the loop only needs that it tells
      addresses apart. */
  ghost predicate Injective(text: nat -> string) {
    forall a, b :: text(a) == text(b) ==> a == b
  }

  /** The last previous machine of a name. */
  function Find(previous: seq<Machine>, name: string): Option<Machine> {
    if previous == [] then None
    else if previous[|previous| - 1].name == name then Some(previous[|previous| - 1])
    else Find(previous[..|previous| - 1], name)
  }

  function VMIDs(machines: seq<Machine>): (ids: seq<int>)
    ensures |ids| == |machines| && forall i :: 0 <= i < |ids| ==> ids[i] == machines[i].vmid
  {
    seq(|machines|, i requires 0 <= i < |machines| => machines[i].vmid)
  }

  function AddressesOf(machines: seq<Machine>): (addresses: seq<string>)
    ensures |addresses| == |machines| && forall i :: 0 <= i < |addresses| ==> addresses[i] == machines[i].address
  {
    seq(|machines|, i requires 0 <= i < |machines| => machines[i].address)
  }

  /** How many of the first `i` names are new. */
  function NewBefore(previous: seq<Machine>, names: seq<string>, i: nat): nat
    requires i <= |names|
  {
    if i == 0 then 0 else NewBefore(previous, names, i - 1) + if Find(previous, names[i - 1]).None? then 1 else 0
  }

  /** The cluster subnet; an invalid one contains nothing. */
  function Subnet(saved: Cluster): Option<Prefix> {
    if saved.addressStart.Some? && saved.addressStart.value < SPACE && 0 <= saved.prefixLength <= 32
    then Some(Prefix(saved.addressStart.value, saved.prefixLength)) else None
  }

  /** The address may be handed out, as far as the subnet is concerned. */
  predicate InSubnet(text: nat -> string, saved: Cluster, a: nat) {
    && Subnet(saved).Some? && IsPrefix(Subnet(saved).value)
    && Contains(Subnet(saved).value, a)
    && text(a) != saved.gateway
    && a != Base(Subnet(saved).value)
    && Contains(Subnet(saved).value, a + 1)
  }

  predicate VMIDInRange(id: int) {
    100 <= id <= 999999999
  }

  /** The k-th new machine may be created at slot `i`. */
  predicate MayCreate(text: nat -> string, saved: Cluster, input: Input, previous: seq<Machine>, i: nat, k: nat) {
    && i >= saved.controlPlanes + saved.management.count
    && VMIDInRange(input.newVMIDStart + k) && input.newVMIDStart + k !in VMIDs(previous)
    && input.newAddressStart.Some?
    && InSubnet(text, saved, input.newAddressStart.value + k)
    && text(input.newAddressStart.value + k) !in AddressesOf(previous)
  }

  predicate SlotAllowed(text: nat -> string, saved: Cluster, input: Input, previous: seq<Machine>, names: seq<string>, i: nat)
    requires i < |names|
  {
    Find(previous, names[i]).None? ==> MayCreate(text, saved, input, previous, i, NewBefore(previous, names, i))
  }

  /** The machine of slot `i`: a retained one keeps everything but its server, the k-th new
      one gets the k-th VMID and address after the requested start. */
  function SlotMachine(text: nat -> string, input: Input, previous: seq<Machine>, names: seq<string>, nodes: seq<string>, profiles: seq<Capacity>, i: nat): Machine
    requires i < |names| == |nodes| == |profiles|
  {
    match Find(previous, names[i])
    case Some(m) => m.(node := nodes[i])
    case None =>
      var k := NewBefore(previous, names, i);
      var start := if input.newAddressStart.Some? then input.newAddressStart.value else 0;
      Machine(input.newVMIDStart + k, names[i], nodes[i], text(start + k), profiles[i])
  }

  ghost predicate Indexes(byName: map<string, Machine>, previous: seq<Machine>) {
    forall name :: Find(previous, name) == if name in byName then Some(byName[name]) else None
  }

  method IndexMachines(previous: seq<Machine>) returns (byName: map<string, Machine>, usedIds: set<int>, usedAddresses: set<string>)
    ensures Indexes(byName, previous)
    ensures usedIds == (set id | id in VMIDs(previous)) && usedAddresses == (set a | a in AddressesOf(previous))
  {
    byName, usedIds, usedAddresses := map[], {}, {};
    for k := 0 to |previous|
      invariant Indexes(byName, previous[..k])
      invariant usedIds == set id | id in VMIDs(previous[..k])
      invariant usedAddresses == set a | a in AddressesOf(previous[..k])
    {
      var m := previous[k];
      assert previous[..k + 1][..k] == previous[..k];
      assert VMIDs(previous[..k + 1]) == VMIDs(previous[..k]) + [m.vmid];
      assert AddressesOf(previous[..k + 1]) == AddressesOf(previous[..k]) + [m.address];
      byName := byName[m.name := m];
      usedIds := usedIds + {m.vmid};
      usedAddresses := usedAddresses + {m.address};
    }
    assert previous[..|previous|] == previous;
  }

  function HandedIds(start: int, k: nat): set<int> {
    if k == 0 then {} else HandedIds(start, k - 1) + {start + k - 1}
  }

  lemma {:induction false} HandedIdsBelow(start: int, k: nat, id: int)
    requires start + k <= id
    ensures id !in HandedIds(start, k)
  {
    if k > 0 {
      HandedIdsBelow(start, k - 1, id);
    }
  }

  /** The texts of the k addresses from `start` on. */
  function Handed(text: nat -> string, start: nat, k: nat): set<string> {
    if k == 0 then {} else Handed(text, start, k - 1) + {text(start + k - 1)}
  }

  lemma {:induction false} HandedBelow(text: nat -> string, start: nat, k: nat, a: nat)
    requires Injective(text) && start + k <= a
    ensures text(a) !in Handed(text, start, k)
  {
    if k > 0 {
      HandedBelow(text, start, k - 1, a);
    }
  }

  /** The variables of the allocation loop. */
  datatype Cursor = Cursor(nextId: int, nextAddress: Option<nat>, usedIds: set<int>, usedAddresses: set<string>)

  /** The cursor after k machines were created: the used sets hold what the previous machines
      had, also those that go away, and what was handed out. */
  ghost predicate CursorAt(text: nat -> string, input: Input, previous: seq<Machine>, c: Cursor, k: nat) {
    && c.nextId == input.newVMIDStart + k
    && c.usedIds == (set id | id in VMIDs(previous)) + HandedIds(input.newVMIDStart, k)
    && c.usedAddresses == (set a | a in AddressesOf(previous)) + (if input.newAddressStart.Some? then Handed(text, input.newAddressStart.value, k) else {})
    && c.nextAddress == if input.newAddressStart.Some? then Some(input.newAddressStart.value + k) else None
  }

  /** One turn of the allocation loop for a name that did not exist. */
  method Create(text: nat -> string, saved: Cluster, c: Cursor, i: nat, name: string, node: string, profile: Capacity,
                ghost input: Input, ghost previous: seq<Machine>, ghost k: nat)
    returns (refusal: Option<Refusal>, machine: Machine, c': Cursor)
    requires CursorAt(text, input, previous, c, k) && Injective(text)
    ensures refusal.None? <==> MayCreate(text, saved, input, previous, i, k)
    ensures refusal != Some(NothingChanged)
    ensures refusal.None? ==> CursorAt(text, input, previous, c', k + 1)
    ensures refusal.None? ==> input.newAddressStart.Some?
    ensures refusal.None? ==> machine == Machine(input.newVMIDStart + k, name, node, text(input.newAddressStart.value + k), profile)
  {
    machine, c' := Machine(c.nextId, name, node, "", profile), c;
    HandedIdsBelow(input.newVMIDStart, k, input.newVMIDStart + k);
    if i < saved.controlPlanes + saved.management.count {
      return Some(FixedNodeReplaced), machine, c';
    }
    if c.nextId < 100 || c.nextId > 999999999 || c.nextId in c.usedIds || c.nextAddress.None? {
      return Some(AllocationTaken), machine, c';
    }
    var address := text(c.nextAddress.value);
    HandedBelow(text, input.newAddressStart.value, k, input.newAddressStart.value + k);
    if !InSubnet(text, saved, c.nextAddress.value) || address in c.usedAddresses {
      return Some(AllocationTaken), machine, c';
    }
    machine := Machine(c.nextId, name, node, address, profile);
    c' := Cursor(c.nextId + 1, Some(c.nextAddress.value + 1), c.usedIds + {c.nextId}, c.usedAddresses + {address});
    return None, machine, c';
  }

  /** The slots below `i` were allowed and filled. */
  ghost predicate Filled(text: nat -> string, saved: Cluster, input: Input, previous: seq<Machine>, names: seq<string>, nodes: seq<string>, profiles: seq<Capacity>, result: seq<Machine>)
    requires |result| <= |names| == |nodes| == |profiles|
  {
    forall j: nat :: j < |result| ==>
      SlotAllowed(text, saved, input, previous, names, j) && result[j] == SlotMachine(text, input, previous, names, nodes, profiles, j)
  }

  lemma FilledStep(text: nat -> string, saved: Cluster, input: Input, previous: seq<Machine>, names: seq<string>, nodes: seq<string>, profiles: seq<Capacity>, result: seq<Machine>, m: Machine)
    requires |result| < |names| == |nodes| == |profiles|
    requires Filled(text, saved, input, previous, names, nodes, profiles, result)
    requires SlotAllowed(text, saved, input, previous, names, |result|) && m == SlotMachine(text, input, previous, names, nodes, profiles, |result|)
    ensures Filled(text, saved, input, previous, names, nodes, profiles, result + [m])
  {
  }

  /** One turn of the allocation loop. */
  method FillSlot(text: nat -> string, saved: Cluster, input: Input, previous: seq<Machine>, names: seq<string>, nodes: seq<string>, profiles: seq<Capacity>,
                  i: nat, byName: map<string, Machine>, c: Cursor)
    returns (refusal: Option<Refusal>, machine: Machine, c': Cursor)
    requires i < |names| == |nodes| == |profiles| && Injective(text)
    requires Find(previous, names[i]) == if names[i] in byName then Some(byName[names[i]]) else None
    requires CursorAt(text, input, previous, c, NewBefore(previous, names, i))
    ensures refusal.None? <==> SlotAllowed(text, saved, input, previous, names, i)
    ensures refusal != Some(NothingChanged)
    ensures refusal.None? ==> machine == SlotMachine(text, input, previous, names, nodes, profiles, i)
    ensures refusal.None? ==> CursorAt(text, input, previous, c', NewBefore(previous, names, i + 1))
  {
    if names[i] in byName {
      return None, byName[names[i]].(node := nodes[i]), c;
    }
    refusal, machine, c' := Create(text, saved, c, i, names[i], nodes[i], profiles[i], input, previous, NewBefore(previous, names, i));
  }

  predicate AllAllowed(text: nat -> string, saved: Cluster, input: Input, previous: seq<Machine>, names: seq<string>) {
    forall i: nat :: i < |names| ==> SlotAllowed(text, saved, input, previous, names, i)
  }

  /** The next slot is filled, or refused. */
  method AppendSlot(text: nat -> string, saved: Cluster, input: Input, previous: seq<Machine>, names: seq<string>, nodes: seq<string>, profiles: seq<Capacity>,
                    result: seq<Machine>, byName: map<string, Machine>, c: Cursor)
    returns (refusal: Option<Refusal>, result': seq<Machine>, c': Cursor)
    requires |result| < |names| == |nodes| == |profiles| && Injective(text) && Indexes(byName, previous)
    requires Filled(text, saved, input, previous, names, nodes, profiles, result)
    requires CursorAt(text, input, previous, c, NewBefore(previous, names, |result|))
    ensures refusal.Some? ==> !AllAllowed(text, saved, input, previous, names)
    ensures refusal != Some(NothingChanged)
    ensures refusal.None? ==>
      && |result'| == |result| + 1 && Filled(text, saved, input, previous, names, nodes, profiles, result')
      && CursorAt(text, input, previous, c', NewBefore(previous, names, |result'|))
  {
    var m;
    result' := result;
    assert Find(previous, names[|result|]) == if names[|result|] in byName then Some(byName[names[|result|]]) else None;
    refusal, m, c' := FillSlot(text, saved, input, previous, names, nodes, profiles, |result|, byName, c);
    if refusal.Some? {
      assert !SlotAllowed(text, saved, input, previous, names, |result|);
    } else {
      FilledStep(text, saved, input, previous, names, nodes, profiles, result, m);
      result' := result + [m];
    }
  }

  lemma CursorStarts(text: nat -> string, input: Input, previous: seq<Machine>, names: seq<string>, usedIds: set<int>, usedAddresses: set<string>)
    requires usedIds == (set id | id in VMIDs(previous)) && usedAddresses == (set a | a in AddressesOf(previous))
    ensures CursorAt(text, input, previous, Cursor(input.newVMIDStart, input.newAddressStart, usedIds, usedAddresses), NewBefore(previous, names, 0))
  {
  }

  /** The allocation loop of maintenanceMachines. */
  method Allocate(text: nat -> string, saved: Cluster, input: Input, previous: seq<Machine>, names: seq<string>, nodes: seq<string>, profiles: seq<Capacity>)
    returns (outcome: Outcome<seq<Machine>>)
    requires |names| == |nodes| == |profiles| && Injective(text)
    ensures outcome.Ok? <==> AllAllowed(text, saved, input, previous, names)
    ensures outcome != Refused(NothingChanged)
    ensures outcome.Ok? ==> |outcome.value| == |names| && Filled(text, saved, input, previous, names, nodes, profiles, outcome.value)
  {
    var byName, usedIds, usedAddresses := IndexMachines(previous);
    var cursor := Cursor(input.newVMIDStart, input.newAddressStart, usedIds, usedAddresses);
    var result: seq<Machine> := [];
    CursorStarts(text, input, previous, names, usedIds, usedAddresses);
    for i := 0 to |names|
      invariant |result| == i && Filled(text, saved, input, previous, names, nodes, profiles, result)
      invariant CursorAt(text, input, previous, cursor, NewBefore(previous, names, i))
    {
      var refusal;
      refusal, result, cursor := AppendSlot(text, saved, input, previous, names, nodes, profiles, result, byName, cursor);
      if refusal.Some? {
        return Refused(refusal.value);
      }
    }
    return Ok(result);
  }

  // ---- The whole operation ----

  /** Addresses are written as their dotted texts. */
  ghost predicate WritesDotted(text: nat -> string) {
    forall a: nat, s :: a < SPACE ==> (Writes(s, a) <==> s == text(a))
  }

  lemma DottedWritesDotted()
    ensures WritesDotted(Dotted)
  {
    forall a: nat, s | a < SPACE ensures Writes(s, a) <==> s == Dotted(a) {
      WritesMeaning(s, a);
    }
  }

  lemma DottedIsInjective()
    ensures Injective(Dotted)
  {
    forall a, b | Dotted(a) == Dotted(b) ensures a == b {
      DottedInjective(a, b);
    }
  }

  function Desired(saved: Cluster, input: Input): Cluster {
    saved.(pools := input.pools, machineNodes := input.machineNodes)
  }

  /** Everything maintenanceMachines demands, apart from some change being made. */
  ghost predicate Acceptable(saved: Cluster, input: Input, previous: seq<Machine>, defaultNode: string) {
    var desired := Desired(saved, input);
    && PoolsAccepted(saved, input.pools)
    && OnlyKnown(input.machineNodes, MachineNames(desired)) && ServersValid(input.machineNodes, defaultNode, MachineNames(desired))
    && AllAllowed(Dotted, saved, input, previous, MachineNames(desired))
  }

  /** The machines it returns. */
  ghost predicate IsAllocation(saved: Cluster, input: Input, previous: seq<Machine>, defaultNode: string, result: seq<Machine>) {
    IsAllocationIn(Dotted, saved, input, previous, defaultNode, result)
  }

  ghost predicate IsAllocationIn(text: nat -> string, saved: Cluster, input: Input, previous: seq<Machine>, defaultNode: string, result: seq<Machine>) {
    var desired := Desired(saved, input);
    var names := MachineNames(desired);
    && |result| == |names| == |Profiles(desired)|
    && Filled(text, saved, input, previous, names, Servers(input, defaultNode, names), Profiles(desired), result)
  }

  function Servers(input: Input, defaultNode: string, names: seq<string>): (servers: seq<string>)
    ensures |servers| == |names|
  {
    seq(|names|, i requires 0 <= i < |names| => ServerFor(input.machineNodes, defaultNode, names[i]))
  }

  /** The request changes neither the pools nor any machine. */
  ghost predicate ChangesNothing(saved: Cluster, input: Input, previous: seq<Machine>, defaultNode: string) {
    saved.pools == input.pools && IsAllocation(saved, input, previous, defaultNode, previous)
  }

  lemma AllocationUnique(saved: Cluster, input: Input, previous: seq<Machine>, defaultNode: string, a: seq<Machine>, b: seq<Machine>)
    requires IsAllocation(saved, input, previous, defaultNode, a) && IsAllocation(saved, input, previous, defaultNode, b)
    ensures a == b
  {
  }

  /** The cluster that comes back: the requested pools, and a server for every machine if the
      request is acceptable. */
  ghost predicate IsDesired(saved: Cluster, input: Input, previous: seq<Machine>, defaultNode: string, desired: Cluster) {
    && desired == Desired(saved, input).(machineNodes := desired.machineNodes)
    && (Acceptable(saved, input, previous, defaultNode) ==>
          Assigned(desired.machineNodes, input.machineNodes, defaultNode, Elements(MachineNames(Desired(saved, input)))))
  }

  /** internal/api/cluster_maintenance.go: maintenanceMachines. */
  method MaintenanceMachines(saved: Cluster, input: Input, previous: seq<Machine>, defaultNode: string)
    returns (desired: Cluster, outcome: Outcome<seq<Machine>>)
    ensures IsDesired(saved, input, previous, defaultNode, desired)
    ensures outcome.Ok? <==> Acceptable(saved, input, previous, defaultNode) && !ChangesNothing(saved, input, previous, defaultNode)
    ensures outcome == Refused(NothingChanged) <==> Acceptable(saved, input, previous, defaultNode) && ChangesNothing(saved, input, previous, defaultNode)
    ensures outcome.Ok? ==> IsAllocation(saved, input, previous, defaultNode, outcome.value)
  {
    desired := Desired(saved, input);
    var refusal := CheckPools(saved, input.pools);
    if refusal.Some? {
      return desired, Refused(refusal.value);
    }
    var placed, machineNodes := ManagedClusterMachineNodes(desired, defaultNode);
    var names := ManagedClusterMachineNames(desired);
    ghost var n: nat :| FilledUpTo(machineNodes, input.machineNodes, defaultNode, names, n) && (placed.Ok? ==> n == |names|);
    assert names[..|names|] == names;
    desired := desired.(machineNodes := machineNodes);
    if placed.Refused? {
      return desired, Refused(placed.reason);
    }
    var profiles := ManagedProfiles(desired);
    OneProfilePerName(desired);
    DottedIsInjective();
    assert placed.value == Servers(input, defaultNode, names);
    outcome := Allocate(Dotted, saved, input, previous, names, placed.value, profiles);
    if outcome.Ok? {
      outcome := RefuseUnchanged(saved, input, previous, defaultNode, outcome.value);
    }
  }

  /** The last check. */
  method RefuseUnchanged(saved: Cluster, input: Input, previous: seq<Machine>, defaultNode: string, result: seq<Machine>)
    returns (outcome: Outcome<seq<Machine>>)
    requires IsAllocation(saved, input, previous, defaultNode, result)
    ensures outcome == if ChangesNothing(saved, input, previous, defaultNode) then Refused(NothingChanged) else Ok(result)
  {
    if IsAllocation(saved, input, previous, defaultNode, previous) {
      AllocationUnique(saved, input, previous, defaultNode, previous, result);
    }
    return if saved.pools == input.pools && previous == result then Refused(NothingChanged) else Ok(result);
  }

  // ---- What every allocation guarantees ----

  predicate DistinctMachines(machines: seq<Machine>) {
    && Distinct(VMIDs(machines)) && Distinct(AddressesOf(machines))
    && forall i, j :: 0 <= i < j < |machines| ==> machines[i].name != machines[j].name
  }

  lemma {:induction false} FindMeaning(previous: seq<Machine>, name: string)
    ensures Find(previous, name).Some? ==> Find(previous, name).value in previous && Find(previous, name).value.name == name
    ensures Find(previous, name).None? ==> forall m :: m in previous ==> m.name != name
  {
    if previous != [] {
      var n := |previous| - 1;
      assert previous == previous[..n] + [previous[n]];
      FindMeaning(previous[..n], name);
    }
  }

  lemma {:induction false} NewBeforeRises(previous: seq<Machine>, names: seq<string>, i: nat, j: nat)
    requires i < j <= |names|
    ensures NewBefore(previous, names, i) <= NewBefore(previous, names, j)
    ensures Find(previous, names[i]).None? ==> NewBefore(previous, names, i) < NewBefore(previous, names, j)
  {
    if i < j - 1 {
      NewBeforeRises(previous, names, i, j - 1);
    }
  }

  /** Two machines of a duplicate-free list that differ in name differ in VMID and address. */
  lemma DistinctPair(previous: seq<Machine>, m: Machine, n: Machine)
    requires DistinctMachines(previous) && m in previous && n in previous && m.name != n.name
    ensures m.vmid != n.vmid && m.address != n.address
  {
    var i :| 0 <= i < |previous| && previous[i] == m;
    var j :| 0 <= j < |previous| && previous[j] == n;
    var ids, addresses := VMIDs(previous), AddressesOf(previous);
    assert i < j ==> ids[i] != ids[j] && addresses[i] != addresses[j];
    assert j < i ==> ids[j] != ids[i] && addresses[j] != addresses[i];
  }

  lemma InVMIDs(previous: seq<Machine>, m: Machine)
    requires m in previous
    ensures m.vmid in VMIDs(previous) && m.address in AddressesOf(previous)
  {
    var i :| 0 <= i < |previous| && previous[i] == m;
    assert VMIDs(previous)[i] == m.vmid && AddressesOf(previous)[i] == m.address;
  }

  /** Slots of different names get different VMIDs and addresses. */
  lemma SlotsApart(text: nat -> string, saved: Cluster, input: Input, previous: seq<Machine>, names: seq<string>, nodes: seq<string>,
                   profiles: seq<Capacity>, i: nat, j: nat)
    requires i < j < |names| == |nodes| == |profiles| && Injective(text) && DistinctMachines(previous) && names[i] != names[j]
    requires SlotAllowed(text, saved, input, previous, names, i) && SlotAllowed(text, saved, input, previous, names, j)
    ensures SlotMachine(text, input, previous, names, nodes, profiles, i).vmid != SlotMachine(text, input, previous, names, nodes, profiles, j).vmid
    ensures SlotMachine(text, input, previous, names, nodes, profiles, i).address != SlotMachine(text, input, previous, names, nodes, profiles, j).address
  {
    var x, y := Find(previous, names[i]), Find(previous, names[j]);
    FindMeaning(previous, names[i]);
    FindMeaning(previous, names[j]);
    NewBeforeRises(previous, names, i, j);
    if x.Some? && y.Some? {
      DistinctPair(previous, x.value, y.value);
    } else if x.Some? {
      InVMIDs(previous, x.value);
    } else if y.Some? {
      InVMIDs(previous, y.value);
    }
  }

  /** The number lies in the subnet, and is neither its first nor its last one. */
  predicate StrictlyInside(saved: Cluster, a: nat) {
    && saved.addressStart.Some? && saved.addressStart.value < 0x1_0000_0000 && 0 <= saved.prefixLength <= 32
    && var p := Prefix(saved.addressStart.value, saved.prefixLength);
       Base(p) < a < Base(p) + Size(p) - 1
  }

  predicate Unrelated(previous: seq<Machine>, m: Machine) {
    forall earlier :: earlier in previous ==> earlier.name != m.name && earlier.vmid != m.vmid && earlier.address != m.address
  }

  /** The names in front of `i` that no previous machine has. */
  ghost function NewNames(previous: seq<Machine>, names: seq<string>, i: nat): set<nat>
    requires i <= |names|
  {
    set j: nat | j < i && forall m :: m in previous ==> m.name != names[j]
  }

  lemma {:induction false} NewBeforeCounts(previous: seq<Machine>, names: seq<string>, i: nat)
    requires i <= |names|
    ensures NewBefore(previous, names, i) == |NewNames(previous, names, i)|
  {
    if i > 0 {
      NewBeforeCounts(previous, names, i - 1);
      FindMeaning(previous, names[i - 1]);
      if Find(previous, names[i - 1]).None? {
        assert NewNames(previous, names, i) == NewNames(previous, names, i - 1) + {i - 1};
      } else {
        assert NewNames(previous, names, i) == NewNames(previous, names, i - 1);
      }
    } else {
      assert NewNames(previous, names, 0) == {};
    }
  }

  /** The VMID and the address number that a new machine of slot `i` gets: the first ones asked
      for, and one more for every new machine in front of it. */
  ghost predicate NumberedAt(input: Input, previous: seq<Machine>, names: seq<string>, i: nat, vmid: int, a: nat)
    requires i < |names|
  {
    var k := |NewNames(previous, names, i)|;
    vmid == input.newVMIDStart + k && input.newAddressStart == Some(a - k)
  }

  predicate Retained(previous: seq<Machine>, m: Machine) {
    exists earlier :: earlier in previous && earlier.name == m.name && m == earlier.(node := m.node)
  }

  /** `m` is machine `index` of a pool: it has that pool's name in its own, and its capacity. */
  predicate IsMachineOf(cluster: string, pool: Pool, index: nat, m: Machine) {
    1 <= index <= pool.count && m.name == cluster + "-" + pool.name + "-" + Decimal(index) && m.capacity == pool.capacity
  }

  ghost predicate OfPool(cluster: string, pools: seq<Pool>, m: Machine) {
    exists pool, index :: pool in pools && IsMachineOf(cluster, pool, index, m)
  }

  /** A new machine belongs to the pool in its name and has its capacity; its VMID is in range
      and was not used, and its address is the text of a number strictly inside the subnet, was
      not used and is not the gateway. */
  ghost predicate NewSlotSound(saved: Cluster, input: Input, previous: seq<Machine>, names: seq<string>, i: nat, m: Machine)
    requires i < |names|
  {
    NumberSound(saved, input, previous, names, i, m) && OfPool(saved.name, input.pools, m)
  }

  ghost predicate NumberSound(saved: Cluster, input: Input, previous: seq<Machine>, names: seq<string>, i: nat, m: Machine)
    requires i < |names|
  {
    && Unrelated(previous, m) && 100 <= m.vmid <= 999999999 && m.address != saved.gateway
    && NumberedInside(saved, input, previous, names, i, m)
  }

  ghost predicate NumberedInside(saved: Cluster, input: Input, previous: seq<Machine>, names: seq<string>, i: nat, m: Machine)
    requires i < |names|
  {
    exists a: nat :: NumberedAt(input, previous, names, i, m.vmid, a) && Writes(m.address, a) && StrictlyInside(saved, a)
  }

  /** The machine runs on the server that was assigned to its name, or else on the default one,
      without the blanks around it. */
  ghost predicate OnItsServer(input: Input, defaultNode: string, m: Machine) {
    var server := if m.name in input.machineNodes then input.machineNodes[m.name] else defaultNode;
    exists before, after :: IsCore(server, m.node, before, after)
  }

  /** What a slot promises: the desired name on its server; retained machines keep everything
      else, and the others are new. */
  ghost predicate SlotSound(saved: Cluster, input: Input, previous: seq<Machine>, defaultNode: string, names: seq<string>, i: nat, m: Machine)
    requires i < |names|
  {
    && m.name == names[i] && OnItsServer(input, defaultNode, m)
    && (Retained(previous, m) || NewSlotSound(saved, input, previous, names, i, m))
  }

  lemma SlotServer(text: nat -> string, saved: Cluster, input: Input, previous: seq<Machine>, defaultNode: string, result: seq<Machine>, i: nat)
    requires IsAllocationIn(text, saved, input, previous, defaultNode, result) && i < |result|
    ensures result[i].name == MachineNames(Desired(saved, input))[i] && OnItsServer(input, defaultNode, result[i])
  {
    var name := MachineNames(Desired(saved, input))[i];
    FindMeaning(previous, name);
    var before, after := TrimmedMeaning(if name in input.machineNodes then input.machineNodes[name] else defaultNode);
  }

  lemma RetainedSound(text: nat -> string, saved: Cluster, input: Input, previous: seq<Machine>, defaultNode: string, result: seq<Machine>, i: nat)
    requires IsAllocationIn(text, saved, input, previous, defaultNode, result) && i < |result|
    requires Find(previous, MachineNames(Desired(saved, input))[i]).Some?
    ensures Retained(previous, result[i])
  {
    var name := MachineNames(Desired(saved, input))[i];
    FindMeaning(previous, name);
    var m := Find(previous, name).value;
    assert result[i] == m.(node := result[i].node);
  }

  /** What is allowed as far as the subnet is concerned: exactly the numbers strictly inside it
      whose text is not the gateway. */
  lemma InSubnetMeaning(text: nat -> string, saved: Cluster, a: nat)
    ensures InSubnet(text, saved, a) <==> StrictlyInside(saved, a) && text(a) != saved.gateway
  {
    if Subnet(saved).Some? {
      var p := Subnet(saved).value;
      ContainsInterval(p, a);
      ContainsInterval(p, a + 1);
    }
  }

  lemma InsideFits(saved: Cluster, a: nat)
    requires StrictlyInside(saved, a)
    ensures a < SPACE
  {
    BaseFits(Prefix(saved.addressStart.value, saved.prefixLength));
  }

  /** A machine with the name and the profile of an application slot belongs to a pool. */
  lemma NewOfPool(c: Cluster, i: nat, m: Machine)
    requires |FixedNames(c)| <= i < |MachineNames(c)| && |Profiles(c)| == |MachineNames(c)|
    requires m.name == MachineNames(c)[i] && m.capacity == Profiles(c)[i]
    ensures OfPool(c.name, c.pools, m)
  {
    OneProfilePerName(c);
    var k := i - |FixedNames(c)|;
    var pool, index := PoolSlots(c.name, c.pools, k);
    assert Profiles(c)[i] == PoolsProfiles(c.pools)[k] && MachineNames(c)[i] == PoolsNames(c.name, c.pools)[k];
    assert IsMachineOf(c.name, pool, index, m);
  }

  /** The address of a new machine, as text and as number. */
  lemma NewAddress(text: nat -> string, saved: Cluster, a: nat)
    requires InSubnet(text, saved, a) && WritesDotted(text)
    ensures StrictlyInside(saved, a) && text(a) != saved.gateway && Writes(text(a), a)
  {
    InSubnetMeaning(text, saved, a);
    InsideFits(saved, a);
    assert Writes(text(a), a);
  }

  lemma NewUnrelated(previous: seq<Machine>, m: Machine)
    requires Find(previous, m.name).None? && m.vmid !in VMIDs(previous) && m.address !in AddressesOf(previous)
    ensures Unrelated(previous, m)
  {
    FindMeaning(previous, m.name);
    forall earlier | earlier in previous ensures earlier.vmid != m.vmid && earlier.address != m.address {
      InVMIDs(previous, earlier);
    }
  }

  lemma NumberDue(input: Input, previous: seq<Machine>, names: seq<string>, i: nat)
    requires i < |names| && input.newAddressStart.Some?
    ensures var k := NewBefore(previous, names, i);
      NumberedAt(input, previous, names, i, input.newVMIDStart + k, input.newAddressStart.value + k)
  {
    NewBeforeCounts(previous, names, i);
  }

  /** The number of a new machine. */
  lemma NewNumber(text: nat -> string, saved: Cluster, input: Input, previous: seq<Machine>, names: seq<string>, i: nat, m: Machine, a: nat)
    requires i < |names| && InSubnet(text, saved, a) && WritesDotted(text) && m.address == text(a)
    requires NumberedAt(input, previous, names, i, m.vmid, a)
    ensures NumberedInside(saved, input, previous, names, i, m) && m.address != saved.gateway
  {
    NewAddress(text, saved, a);
  }

  lemma NewUsable(text: nat -> string, saved: Cluster, input: Input, previous: seq<Machine>, names: seq<string>, i: nat, m: Machine)
    requires i < |names| && WritesDotted(text) && MayCreate(text, saved, input, previous, i, NewBefore(previous, names, i))
    requires m.vmid == input.newVMIDStart + NewBefore(previous, names, i) && m.address == text(input.newAddressStart.value + NewBefore(previous, names, i))
    ensures NumberedInside(saved, input, previous, names, i, m) && m.address != saved.gateway
  {
    NumberDue(input, previous, names, i);
    NewNumber(text, saved, input, previous, names, i, m, input.newAddressStart.value + NewBefore(previous, names, i));
  }

  lemma NewUnused(text: nat -> string, saved: Cluster, input: Input, previous: seq<Machine>, names: seq<string>, i: nat, m: Machine)
    requires i < |names| && MayCreate(text, saved, input, previous, i, NewBefore(previous, names, i)) && m.name == names[i] && Find(previous, names[i]).None?
    requires m.vmid == input.newVMIDStart + NewBefore(previous, names, i) && m.address == text(input.newAddressStart.value + NewBefore(previous, names, i))
    ensures Unrelated(previous, m) && VMIDInRange(m.vmid)
  {
    NewUnrelated(previous, m);
  }

  lemma NewSlot(text: nat -> string, saved: Cluster, input: Input, previous: seq<Machine>, names: seq<string>, nodes: seq<string>, profiles: seq<Capacity>, i: nat)
    requires i < |names| == |nodes| == |profiles| && WritesDotted(text)
    requires SlotAllowed(text, saved, input, previous, names, i) && Find(previous, names[i]).None?
    ensures var m := SlotMachine(text, input, previous, names, nodes, profiles, i);
      && m.name == names[i] && m.capacity == profiles[i] && NumberSound(saved, input, previous, names, i, m)
      && i >= saved.controlPlanes + saved.management.count
  {
    var m := SlotMachine(text, input, previous, names, nodes, profiles, i);
    NewUsable(text, saved, input, previous, names, i, m);
    NewUnused(text, saved, input, previous, names, i, m);
  }

  lemma NewSound(text: nat -> string, saved: Cluster, input: Input, previous: seq<Machine>, defaultNode: string, result: seq<Machine>, i: nat)
    requires IsAllocationIn(text, saved, input, previous, defaultNode, result) && i < |result| && saved.management.count >= 0 && WritesDotted(text)
    requires Find(previous, MachineNames(Desired(saved, input))[i]).None?
    ensures NewSlotSound(saved, input, previous, MachineNames(Desired(saved, input)), i, result[i])
  {
    var desired := Desired(saved, input);
    NewSlot(text, saved, input, previous, MachineNames(desired), Servers(input, defaultNode, MachineNames(desired)), Profiles(desired), i);
    OneProfilePerName(desired);
    NewOfPool(desired, i, result[i]);
  }

  lemma AllocationSoundIn(text: nat -> string, saved: Cluster, input: Input, previous: seq<Machine>, defaultNode: string, result: seq<Machine>, i: nat)
    requires IsAllocationIn(text, saved, input, previous, defaultNode, result) && i < |result| && saved.management.count >= 0 && WritesDotted(text)
    ensures SlotSound(saved, input, previous, defaultNode, MachineNames(Desired(saved, input)), i, result[i])
  {
    SlotServer(text, saved, input, previous, defaultNode, result, i);
    if Find(previous, MachineNames(Desired(saved, input))[i]).Some? {
      RetainedSound(text, saved, input, previous, defaultNode, result, i);
    } else {
      NewSound(text, saved, input, previous, defaultNode, result, i);
    }
  }

  /** The result lists the desired names in order, and every slot keeps its promise. */
  lemma AllocationSound(saved: Cluster, input: Input, previous: seq<Machine>, defaultNode: string, result: seq<Machine>, i: nat)
    requires IsAllocation(saved, input, previous, defaultNode, result) && i < |result| && saved.management.count >= 0
    ensures SlotSound(saved, input, previous, defaultNode, MachineNames(Desired(saved, input)), i, result[i])
  {
    DottedWritesDotted();
    AllocationSoundIn(Dotted, saved, input, previous, defaultNode, result, i);
  }

  /** A new machine may be created at slot `i`: it is no fixed machine, and the VMID and address
      it is due are in range, not taken and, for the address, usable. */
  ghost predicate MayBeNew(saved: Cluster, input: Input, previous: seq<Machine>, names: seq<string>, i: nat)
    requires i < |names|
  {
    && i >= saved.controlPlanes + saved.management.count
    && exists vmid, a: nat :: NumberedAt(input, previous, names, i, vmid, a) && IsFree(saved, previous, vmid, a)
  }

  ghost predicate IsFree(saved: Cluster, previous: seq<Machine>, vmid: int, a: nat) {
    && 100 <= vmid <= 999999999 && StrictlyInside(saved, a) && !Writes(saved.gateway, a)
    && forall m :: m in previous ==> m.vmid != vmid && !Writes(m.address, a)
  }

  /** Slots are allowed exactly if every desired name without a previous machine may be new. */
  lemma AllowedMeaningIn(text: nat -> string, saved: Cluster, input: Input, previous: seq<Machine>, names: seq<string>)
    requires WritesDotted(text)
    ensures AllAllowed(text, saved, input, previous, names) <==>
            forall i: nat :: i < |names| && (forall m :: m in previous ==> m.name != names[i]) ==> MayBeNew(saved, input, previous, names, i)
  {
    forall i: nat | i < |names|
      ensures SlotAllowed(text, saved, input, previous, names, i) <==>
              ((forall m :: m in previous ==> m.name != names[i]) ==> MayBeNew(saved, input, previous, names, i))
    {
      FindMeaning(previous, names[i]);
      if Find(previous, names[i]).None? {
        MayCreateMeaning(text, saved, input, previous, names, i);
      } else {
        assert Find(previous, names[i]).value in previous;
      }
    }
  }

  /** The number that slot `i` is due is unique. */
  lemma NumberedOnce(input: Input, previous: seq<Machine>, names: seq<string>, i: nat, vmid: int, a: nat)
    requires i < |names| && NumberedAt(input, previous, names, i, vmid, a)
    ensures input.newAddressStart.Some? && vmid == input.newVMIDStart + NewBefore(previous, names, i)
    ensures a == input.newAddressStart.value + NewBefore(previous, names, i)
  {
    NewBeforeCounts(previous, names, i);
  }

  lemma MayCreateMeaning(text: nat -> string, saved: Cluster, input: Input, previous: seq<Machine>, names: seq<string>, i: nat)
    requires i < |names| && WritesDotted(text)
    ensures MayCreate(text, saved, input, previous, i, NewBefore(previous, names, i)) <==> MayBeNew(saved, input, previous, names, i)
  {
    var k := NewBefore(previous, names, i);
    if MayCreate(text, saved, input, previous, i, k) {
      var vmid, a := input.newVMIDStart + k, input.newAddressStart.value + k;
      NewBeforeCounts(previous, names, i);
      InSubnetMeaning(text, saved, a);
      FreeMeaning(text, saved, previous, vmid, a);
      assert NumberedAt(input, previous, names, i, vmid, a) && IsFree(saved, previous, vmid, a);
    }
    if MayBeNew(saved, input, previous, names, i) {
      var vmid, a: nat :| NumberedAt(input, previous, names, i, vmid, a) && IsFree(saved, previous, vmid, a);
      NumberedOnce(input, previous, names, i, vmid, a);
      InSubnetMeaning(text, saved, a);
      FreeMeaning(text, saved, previous, vmid, a);
    }
  }

  lemma FreeMeaning(text: nat -> string, saved: Cluster, previous: seq<Machine>, vmid: int, a: nat)
    requires StrictlyInside(saved, a) && WritesDotted(text)
    ensures IsFree(saved, previous, vmid, a) <==>
            VMIDInRange(vmid) && text(a) != saved.gateway && vmid !in VMIDs(previous) && text(a) !in AddressesOf(previous)
  {
    InsideFits(saved, a);
    var ids, addresses := VMIDs(previous), AddressesOf(previous);
    forall m | m in previous ensures m.vmid in ids && m.address in addresses && (Writes(m.address, a) <==> m.address == text(a)) {
      InVMIDs(previous, m);
    }
    assert forall j :: 0 <= j < |previous| ==> previous[j] in previous;
    assert vmid in ids ==> exists j :: 0 <= j < |previous| && previous[j].vmid == vmid;
    assert text(a) in addresses ==> exists j :: 0 <= j < |previous| && previous[j].address == text(a);
  }

  lemma AllowedMeaning(saved: Cluster, input: Input, previous: seq<Machine>, names: seq<string>)
    ensures AllAllowed(Dotted, saved, input, previous, names) <==>
            forall i: nat :: i < |names| && (forall m :: m in previous ==> m.name != names[i]) ==> MayBeNew(saved, input, previous, names, i)
  {
    DottedWritesDotted();
    AllowedMeaningIn(Dotted, saved, input, previous, names);
  }

  /** An accepted set of pools leaves existing ones as they are, and room for at most twelve
      machines in all. */
  lemma AcceptedPools(saved: Cluster, pools: seq<Pool>, p: Pool, known: Pool)
    requires PoolsAccepted(saved, pools) && p in pools && known in saved.pools && known.name == p.name && Distinct(PoolIds(saved.pools))
    ensures p.capacity == known.capacity && p.zones == known.zones
    ensures saved.management.count >= 0 ==> |MachineNames(saved.(pools := pools))| <= 12
  {
    var i: nat :| i < |pools| && pools[i] == p;
    assert PoolAccepted(saved, pools, i);
    OldPoolMeaning(saved.pools, known);
    OneProfilePerName(saved.(pools := pools));
    forall j: nat | j < |pools| ensures pools[j].count >= 0 {
      assert PoolAccepted(saved, pools, j);
    }
    PoolsLength(saved.name, pools);
  }

  lemma {:induction false} OldPoolMeaning(pools: seq<Pool>, known: Pool)
    requires known in pools && Distinct(PoolIds(pools))
    ensures OldPool(pools, known.name) == Some(known)
  {
    var n := |pools| - 1;
    var ids := PoolIds(pools);
    assert forall i :: 0 <= i < n ==> ids[i] != ids[n];
    if pools[n].name != known.name {
      assert pools == pools[..n] + [pools[n]] && PoolIds(pools[..n]) == ids[..n];
      OldPoolMeaning(pools[..n], known);
    }
  }

  /** The condition under which the management pool cannot be told from the control plane. */
  predicate NamesClash(saved: Cluster) {
    saved.management.name == CONTROL_PLANE && saved.controlPlanes >= 1 && saved.management.count >= 1
  }

  /** From distinct machines, maintenance makes distinct machines exactly if the management
      pool does not take the name of the control plane. */
  lemma AllocationDistinct(saved: Cluster, input: Input, previous: seq<Machine>, defaultNode: string, result: seq<Machine>)
    requires IsAllocation(saved, input, previous, defaultNode, result) && PoolsAccepted(saved, input.pools)
    requires DistinctMachines(previous) && saved.management.count >= 0
    ensures DistinctMachines(result) <==> !NamesClash(saved)
  {
    var desired := Desired(saved, input);
    var names := MachineNames(desired);
    AcceptedNamedApart(saved, desired);
    MachineNamesDistinct(desired);
    DottedIsInjective();
    forall i: nat | i < |result| ensures result[i].name == names[i] {
      AllocationSound(saved, input, previous, defaultNode, result, i);
    }
    if NamesClash(saved) {
      var i, j :| 0 <= i < j < |names| && names[i] == names[j];
      assert result[i].name == result[j].name;
    } else {
      forall i: nat, j: nat | i < j < |result| ensures result[i].vmid != result[j].vmid && result[i].address != result[j].address {
        SlotsApart(Dotted, saved, input, previous, names, Servers(input, defaultNode, names), Profiles(desired), i, j);
      }
    }
  }
}
