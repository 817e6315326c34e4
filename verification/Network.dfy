/** Pod and service networks of a multi-cluster environment: the validation in
    internal/api/multiclusters.go, and the peer lookup of components/mentat/mesh.go that
    relies on it. */
module Network {
  import opened Text
  import opened Addresses

  // ---- Overlapping networks ----

  /** netip.Prefix.Overlaps: the two agree in the bits of the shorter prefix. */
  predicate Overlaps(p: Prefix, q: Prefix)
    requires IsPrefix(p) && IsPrefix(q)
  {
    var size := if p.bits < q.bits then Size(p) else Size(q);
    Floor(p.address, size) == Floor(q.address, size)
  }

  lemma MulAssoc(a: int, b: int, c: int)
    ensures a * (b * c) == (a * b) * c
  {
  }

  /** A multiple of n at or below a is at or below the floor of a. */
  lemma FloorIsGreatest(k: int, n: nat, a: nat)
    requires n >= 1 && k * n <= a
    ensures k * n <= Floor(a, n)
  {
    FloorMultiple(a, n);
    if k > a / n {
      MultiplesApart(a / n, k, n);
    }
  }

  lemma FloorTwice(a: nat, n: nat, k: nat)
    requires n >= 1 && k >= 1 && k * n >= 1
    ensures Floor(Floor(a, n), k * n) == Floor(a, k * n)
  {
    var m := k * n;
    FloorMultiple(a, m);
    var j := a / m;
    MulAssoc(j, k, n);
    FloorIsGreatest(j * k, n, a);
    FloorUnique(j, m, Floor(a, n));
  }

  /** Addresses that agree in more leading bits agree in fewer. */
  lemma FloorCoarser(a: nat, b: nat, n: nat, k: nat)
    requires n >= 1 && k >= 1 && k * n >= 1 && Floor(a, n) == Floor(b, n)
    ensures Floor(a, k * n) == Floor(b, k * n)
  {
    FloorTwice(a, n, k);
    FloorTwice(b, n, k);
  }

  lemma ContainsCoarser(p: Prefix, q: Prefix, a: nat)
    requires IsPrefix(p) && IsPrefix(q) && p.bits <= q.bits && Contains(q, a)
    ensures Floor(a, Size(p)) == Floor(q.address, Size(p))
  {
    Pow2Sum(q.bits - p.bits, 32 - q.bits);
    FloorCoarser(a, q.address, Size(q), Pow2(q.bits - p.bits));
  }

  /** Two networks overlap exactly if they share an address. */
  lemma OverlapsMeaning(p: Prefix, q: Prefix)
    requires IsPrefix(p) && IsPrefix(q)
    ensures Overlaps(p, q) <==> exists a: nat :: Contains(p, a) && Contains(q, a)
  {
    if Overlaps(p, q) {
      if p.bits < q.bits {
        assert Contains(p, q.address) && Contains(q, q.address);
      } else {
        assert Contains(p, p.address) && Contains(q, p.address);
      }
    }
    if a: nat :| Contains(p, a) && Contains(q, a) {
      if p.bits < q.bits {
        ContainsCoarser(p, q, a);
      } else {
        ContainsCoarser(q, p, a);
      }
    }
  }

  // ---- Validation ----

  /** A CIDR that is no IPv4 prefix is None. */
  datatype Member = Member(name: string, clusterId: int, nested: bool, pod: Option<Prefix>, service: Option<Prefix>)

  predicate IsName(s: string) {
    ShortName(s) && s[|s| - 1] != '-'
  }

  predicate IsNetwork(cidr: Option<Prefix>) {
    cidr.Some? && IsPrefix(cidr.value) && 16 <= cidr.value.bits <= 24 && cidr.value.address == Base(cidr.value)
  }

  predicate MemberValid(members: seq<Member>, i: nat)
    requires i < |members|
  {
    var m := members[i];
    && IsName(m.name) && m.name != "default" && (forall k :: 0 <= k < i ==> members[k].name != m.name)
    && 1 <= m.clusterId <= 255 && (forall k :: 0 <= k < i ==> members[k].clusterId != m.clusterId)
    && !m.nested && IsNetwork(m.pod) && IsNetwork(m.service)
  }

  /** Network `2 i` is the pod network of member `i`, network `2 i + 1` its service network. */
  function Cidrs(members: seq<Member>): seq<Option<Prefix>> {
    if members == [] then [] else Cidrs(members[..|members| - 1]) + [members[|members| - 1].pod, members[|members| - 1].service]
  }

  predicate Disjoint(a: Option<Prefix>, b: Option<Prefix>) {
    IsNetwork(a) && IsNetwork(b) && !Overlaps(a.value, b.value)
  }

  predicate AllDisjoint(cidrs: seq<Option<Prefix>>) {
    forall i, j :: 0 <= i < j < |cidrs| ==> Disjoint(cidrs[i], cidrs[j])
  }

  predicate Accepted(name: string, members: seq<Member>) {
    && IsName(name) && 2 <= |members| <= 6
    && (forall i: nat :: i < |members| ==> MemberValid(members, i))
    && AllDisjoint(Cidrs(members))
  }

  lemma {:induction false} CidrsAt(members: seq<Member>, i: nat)
    requires i < |members|
    ensures |Cidrs(members)| == 2 * |members|
    ensures Cidrs(members)[2 * i] == members[i].pod && Cidrs(members)[2 * i + 1] == members[i].service
  {
    var n := |members| - 1;
    if i < n {
      CidrsAt(members[..n], i);
    } else if n > 0 {
      CidrsAt(members[..n], 0);
    }
  }

  /** The inner loop: one network against all earlier ones. */
  method CheckNetwork(cidr: Option<Prefix>, networks: seq<Prefix>) returns (ok: bool)
    requires forall k :: 0 <= k < |networks| ==> IsNetwork(Some(networks[k]))
    ensures ok <==> IsNetwork(cidr) && forall k :: 0 <= k < |networks| ==> Disjoint(Some(networks[k]), cidr)
  {
    if !IsNetwork(cidr) {
      return false;
    }
    for k := 0 to |networks|
      invariant forall j :: 0 <= j < k ==> Disjoint(Some(networks[j]), cidr)
    {
      if Overlaps(networks[k], cidr.value) {
        assert !Disjoint(Some(networks[k]), cidr);
        return false;
      }
    }
    return true;
  }

  function Known(networks: seq<Prefix>): (cidrs: seq<Option<Prefix>>)
    ensures |cidrs| == |networks| && forall k :: 0 <= k < |networks| ==> cidrs[k] == Some(networks[k])
  {
    seq(|networks|, k requires 0 <= k < |networks| => Some(networks[k]))
  }

  lemma DisjointAppend(cidrs: seq<Option<Prefix>>, cidr: Option<Prefix>)
    requires AllDisjoint(cidrs) && forall k :: 0 <= k < |cidrs| ==> Disjoint(cidrs[k], cidr)
    ensures AllDisjoint(cidrs + [cidr])
  {
  }

  lemma DisjointPrefix(cidrs: seq<Option<Prefix>>, more: seq<Option<Prefix>>)
    requires AllDisjoint(cidrs + more)
    ensures AllDisjoint(cidrs)
    ensures forall i, j :: 0 <= i < |cidrs| && 0 <= j < |more| ==> Disjoint(cidrs[i], more[j])
  {
    var all := cidrs + more;
    assert forall i :: 0 <= i < |cidrs| ==> all[i] == cidrs[i];
    forall i, j | 0 <= i < |cidrs| && 0 <= j < |more| ensures Disjoint(cidrs[i], more[j]) {
      assert all[|cidrs| + j] == more[j];
    }
  }

  lemma {:induction false} CidrsPrefix(members: seq<Member>, i: nat)
    requires i <= |members| && AllDisjoint(Cidrs(members))
    ensures AllDisjoint(Cidrs(members[..i]))
  {
    var n := |members| - 1;
    if i == |members| {
      assert members[..i] == members;
    } else {
      DisjointPrefix(Cidrs(members[..n]), [members[n].pod, members[n].service]);
      assert members[..n][..i] == members[..i];
      CidrsPrefix(members[..n], i);
    }
  }

  /** The two networks of one member, checked against all earlier ones and each other. */
  method CheckNetworks(networks: seq<Prefix>, pod: Option<Prefix>, service: Option<Prefix>) returns (ok: bool, networks': seq<Prefix>)
    requires (forall k :: 0 <= k < |networks| ==> IsNetwork(Some(networks[k]))) && AllDisjoint(Known(networks))
    ensures ok <==> IsNetwork(pod) && IsNetwork(service) && AllDisjoint(Known(networks) + [pod, service])
    ensures ok ==> Known(networks') == Known(networks) + [pod, service]
  {
    networks' := networks;
    var all := Known(networks) + [pod, service];
    assert all == Known(networks) + [pod] + [service];
    ok := CheckNetwork(pod, networks);
    if !ok {
      if AllDisjoint(all) {
        DisjointPrefix(Known(networks), [pod, service]);
        assert [pod, service][0] == pod;
      }
      return;
    }
    DisjointAppend(Known(networks), pod);
    networks' := networks + [pod.value];
    assert Known(networks') == Known(networks) + [pod];
    ok := CheckNetwork(service, networks');
    if ok {
      DisjointAppend(Known(networks'), service);
      networks' := networks' + [service.value];
    } else if AllDisjoint(all) {
      DisjointPrefix(Known(networks'), [service]);
      assert [service][0] == service;
    }
  }

  ghost predicate NamesSeen(members: seq<Member>, i: nat, names: set<string>)
    requires i <= |members|
  {
    forall name :: name in names <==> exists k :: 0 <= k < i && members[k].name == name
  }

  ghost predicate IdsSeen(members: seq<Member>, i: nat, ids: set<int>)
    requires i <= |members|
  {
    forall id :: id in ids <==> exists k :: 0 <= k < i && members[k].clusterId == id
  }

  predicate NetworksSeen(members: seq<Member>, i: nat, networks: seq<Prefix>)
    requires i <= |members|
  {
    && (forall k :: 0 <= k < |networks| ==> IsNetwork(Some(networks[k])))
    && Known(networks) == Cidrs(members[..i]) && AllDisjoint(Known(networks))
  }

  /** The identity checks of one member. */
  method CheckIdentity(members: seq<Member>, i: nat, names: set<string>, ids: set<int>) returns (ok: bool)
    requires i < |members| && NamesSeen(members, i, names) && IdsSeen(members, i, ids)
    ensures ok && IsNetwork(members[i].pod) && IsNetwork(members[i].service) <==> MemberValid(members, i)
  {
    var m := members[i];
    ok := !(!IsName(m.name) || m.name in names || m.name == "default" || m.clusterId < 1 || m.clusterId > 255 || m.clusterId in ids || m.nested);
  }

  /** One turn of the member loop. */
  method CheckMember(members: seq<Member>, i: nat, names: set<string>, ids: set<int>, networks: seq<Prefix>) returns (ok: bool, networks': seq<Prefix>)
    requires i < |members| && NamesSeen(members, i, names) && IdsSeen(members, i, ids) && NetworksSeen(members, i, networks)
    ensures ok ==> MemberValid(members, i) && NetworksSeen(members, i + 1, networks')
    ensures !ok ==> !MemberValid(members, i) || !AllDisjoint(Cidrs(members))
  {
    networks' := networks;
    ok := CheckIdentity(members, i, names, ids);
    if !ok {
      return;
    }
    assert members[..i + 1][..i] == members[..i];
    ok, networks' := CheckNetworks(networks, members[i].pod, members[i].service);
    if ok {
      KnownNetworks(networks, members[i], networks');
    } else if AllDisjoint(Cidrs(members)) {
      CidrsPrefix(members, i + 1);
    }
  }

  lemma KnownNetworks(networks: seq<Prefix>, m: Member, networks': seq<Prefix>)
    requires forall k :: 0 <= k < |networks| ==> IsNetwork(Some(networks[k]))
    requires IsNetwork(m.pod) && IsNetwork(m.service) && Known(networks') == Known(networks) + [m.pod, m.service]
    ensures forall k :: 0 <= k < |networks'| ==> IsNetwork(Some(networks'[k]))
  {
    forall k | 0 <= k < |networks'| ensures IsNetwork(Some(networks'[k])) {
      assert Some(networks'[k]) == Known(networks')[k];
      assert k < |networks| ==> Known(networks)[k] == Some(networks[k]);
    }
  }

  /** internal/api/multiclusters.go: validateMultiClusterMembers. */
  method ValidateMultiClusterMembers(name: string, members: seq<Member>) returns (ok: bool)
    ensures ok <==> Accepted(name, members)
  {
    if !IsName(name) || |members| < 2 || |members| > 6 {
      return false;
    }
    var names: set<string> := {};
    var ids: set<int> := {};
    var networks: seq<Prefix> := [];
    for i := 0 to |members|
      invariant forall k: nat :: k < i ==> MemberValid(members, k)
      invariant NamesSeen(members, i, names) && IdsSeen(members, i, ids) && NetworksSeen(members, i, networks)
    {
      ok, networks := CheckMember(members, i, names, ids, networks);
      if !ok {
        return;
      }
      names, ids := names + {members[i].name}, ids + {members[i].clusterId};
    }
    assert members[..|members|] == members;
    return true;
  }

  // ---- Peer lookup ----

  datatype MeshCluster = MeshCluster(name: string, pod: Option<Prefix>)

  predicate Owns(cidr: Option<Prefix>, address: Option<nat>) {
    cidr.Some? && IsPrefix(cidr.value) && address.Some? && Contains(cidr.value, address.value)
  }

  /** components/mentat/mesh.go: meshPeerCluster, the first cluster whose pod network holds
      the address. */
  method MeshPeerCluster(address: Option<nat>, clusters: seq<MeshCluster>) returns (name: string)
    ensures (forall k :: 0 <= k < |clusters| ==> !Owns(clusters[k].pod, address)) ==> name == ""
    ensures (exists k :: 0 <= k < |clusters| && Owns(clusters[k].pod, address)) ==>
      exists k :: 0 <= k < |clusters| && Owns(clusters[k].pod, address) && name == clusters[k].name
                  && forall j :: 0 <= j < k ==> !Owns(clusters[j].pod, address)
  {
    for k := 0 to |clusters|
      invariant forall j :: 0 <= j < k ==> !Owns(clusters[j].pod, address)
    {
      if Owns(clusters[k].pod, address) {
        return clusters[k].name;
      }
    }
    return "";
  }

  /** No address lies in two of the networks of an accepted environment. */
  lemma NetworksApart(name: string, members: seq<Member>, i: nat, j: nat, address: Option<nat>)
    requires Accepted(name, members) && i < |Cidrs(members)| && j < |Cidrs(members)|
    requires Owns(Cidrs(members)[i], address) && Owns(Cidrs(members)[j], address)
    ensures i == j
  {
    var cidrs := Cidrs(members);
    if i != j {
      var a, b := if i < j then i else j, if i < j then j else i;
      assert Disjoint(cidrs[a], cidrs[b]);
      OverlapsMeaning(cidrs[a].value, cidrs[b].value);
    }
  }

  /** The mesh list names pod networks of members, in any order. */
  predicate Lists(clusters: seq<MeshCluster>, members: seq<Member>) {
    forall k :: 0 <= k < |clusters| ==> exists i :: 0 <= i < |members| && clusters[k] == MeshCluster(members[i].name, members[i].pod)
  }

  /** Whatever the order of the list, every listed cluster that holds the address is the same:
      the first match is the only match. */
  lemma PeerUnambiguous(name: string, members: seq<Member>, clusters: seq<MeshCluster>, address: Option<nat>, k: nat, l: nat)
    requires Accepted(name, members) && Lists(clusters, members) && k < |clusters| && l < |clusters|
    requires Owns(clusters[k].pod, address) && Owns(clusters[l].pod, address)
    ensures clusters[k].name == clusters[l].name
  {
    var i :| 0 <= i < |members| && clusters[k] == MeshCluster(members[i].name, members[i].pod);
    var j :| 0 <= j < |members| && clusters[l] == MeshCluster(members[j].name, members[j].pod);
    CidrsAt(members, i);
    CidrsAt(members, j);
    NetworksApart(name, members, 2 * i, 2 * j, address);
  }

  /** A service network shares no address with a pod network. */
  lemma ServiceApart(name: string, members: seq<Member>, i: nat, j: nat, address: Option<nat>)
    requires Accepted(name, members) && i < |members| && j < |members| && Owns(members[i].service, address)
    ensures !Owns(members[j].pod, address)
  {
    CidrsAt(members, i);
    CidrsAt(members, j);
    var service, pod := 2 * i + 1, 2 * j;
    if service < pod {
      NotShared(name, members, service, pod, address);
    } else {
      NotShared(name, members, pod, service, address);
    }
  }

  /** An address of a service network belongs to no peer. */
  lemma ServiceHasNoPeer(name: string, members: seq<Member>, clusters: seq<MeshCluster>, address: Option<nat>, k: nat, i: nat)
    requires Accepted(name, members) && Lists(clusters, members) && k < |clusters| && i < |members|
    requires Owns(members[i].service, address)
    ensures !Owns(clusters[k].pod, address)
  {
    var j :| 0 <= j < |members| && clusters[k] == MeshCluster(members[j].name, members[j].pod);
    ServiceApart(name, members, i, j, address);
  }

  /** The lookup in any list of the members: the owner of a pod address if it is listed, and
      nobody for other addresses. */
  method LookupInAnyOrder(name: string, members: seq<Member>, clusters: seq<MeshCluster>, address: Option<nat>) returns (peer: string)
    requires Accepted(name, members) && Lists(clusters, members)
    ensures forall k :: 0 <= k < |clusters| && Owns(clusters[k].pod, address) ==> peer == clusters[k].name
    ensures (exists i :: 0 <= i < |members| && Owns(members[i].service, address)) ==> peer == ""
  {
    peer := MeshPeerCluster(address, clusters);
    forall k: nat | k < |clusters| && Owns(clusters[k].pod, address) ensures peer == clusters[k].name {
      var l: nat :| l < |clusters| && Owns(clusters[l].pod, address) && peer == clusters[l].name;
      PeerUnambiguous(name, members, clusters, address, k, l);
    }
    if i: nat :| i < |members| && Owns(members[i].service, address) {
      forall k: nat | k < |clusters| ensures !Owns(clusters[k].pod, address) {
        ServiceHasNoPeer(name, members, clusters, address, k, i);
      }
    }
  }

  // ---- Accepted environments, told by the members alone ----

  /** Two to six members with their own names, and with their own identifiers between 1 and 255. */
  lemma AcceptedMembers(name: string, members: seq<Member>, i: nat, j: nat)
    requires Accepted(name, members) && i < j < |members|
    ensures 2 <= |members| <= 6
    ensures members[i].name != members[j].name && members[i].name != "default" && members[j].name != "default"
    ensures members[i].clusterId != members[j].clusterId && 1 <= members[i].clusterId <= 255 && 1 <= members[j].clusterId <= 255
  {
    assert MemberValid(members, i) && MemberValid(members, j);
  }

  predicate Shares(a: Option<Prefix>, b: Option<Prefix>, address: Option<nat>) {
    Owns(a, address) && Owns(b, address)
  }

  lemma NotShared(name: string, members: seq<Member>, a: nat, b: nat, address: Option<nat>)
    requires Accepted(name, members) && a < b < |Cidrs(members)|
    ensures !Shares(Cidrs(members)[a], Cidrs(members)[b], address)
  {
    if Shares(Cidrs(members)[a], Cidrs(members)[b], address) {
      NetworksApart(name, members, a, b, address);
    }
  }

  /** No address lies in two of the networks of two members, pod and service alike. */
  lemma MembersApart(name: string, members: seq<Member>, i: nat, j: nat, address: Option<nat>)
    requires Accepted(name, members) && i < j < |members|
    ensures !Shares(members[i].pod, members[i].service, address) && !Shares(members[i].pod, members[j].pod, address)
    ensures !Shares(members[i].pod, members[j].service, address) && !Shares(members[i].service, members[j].pod, address)
    ensures !Shares(members[i].service, members[j].service, address) && !Shares(members[j].pod, members[j].service, address)
  {
    CidrsAt(members, i);
    CidrsAt(members, j);
    var a, b := 2 * i, 2 * j;
    NotShared(name, members, a, a + 1, address);
    NotShared(name, members, a, b, address);
    NotShared(name, members, a, b + 1, address);
    NotShared(name, members, a + 1, b, address);
    NotShared(name, members, a + 1, b + 1, address);
    NotShared(name, members, b, b + 1, address);
  }
}
