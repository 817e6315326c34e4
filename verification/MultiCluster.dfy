/** Whole-run guarantees of planned multi-cluster pipelines: the planner's dependency
    graph together with the scheduler gives serialized cloning, a bounded number of
    members in flight and a cleanup barrier. */
module MultiCluster {
  import opened Text
  import opened Pipelines
  import opened Scheduler
  import opened Planner

  // ---- Layout ----

  /** Position `i` lies in the block of member `m`. */
  predicate Block(starts: seq<nat>, m: nat, i: nat) {
    1 <= m < |starts| && starts[m - 1] <= i < starts[m]
  }

  function Head(starts: seq<nat>, m: nat): nat
    requires 1 <= m < |starts|
  {
    starts[m - 1]
  }

  predicate Increasing(starts: seq<nat>) {
    forall m, n :: 0 <= m < n < |starts| ==> starts[m] < starts[n]
  }

  function Tail(starts: seq<nat>, m: nat): nat
    requires 1 <= m < |starts| && Increasing(starts)
  {
    assert starts[m - 1] < starts[m];
    starts[m] - 1
  }

  predicate HeadIsMachines(stages: seq<Stage>, starts: seq<nat>, m: nat)
    requires 1 <= m < |starts|
  {
    Head(starts, m) < |stages| && stages[Head(starts, m)].id == MachinesId(m)
  }

  /** The stages of a multi-cluster pipeline: cleanup stages first, then one contiguous
      block per member that opens with its machines, then the mesh. Member m occupies the
      positions from starts[m - 1] up to starts[m]; the mesh is at starts[members]. */
  ghost predicate Layout(stages: seq<Stage>, members: nat, cleanups: nat, starts: seq<nat>) {
    && members >= 1 && |starts| == members + 1
    && starts[0] == cleanups && Increasing(starts)
    && starts[members] + 1 == |stages| && stages[starts[members]].id == MESH
    && (forall i :: 0 <= i < cleanups && i < |stages| ==> IsCleanup(stages[i].id))
    && (forall m: nat, i: nat :: Block(starts, m, i) && i < |stages| ==> HasPrefix(stages[i].id, MemberPrefix(m)))
    && (forall m: nat :: 1 <= m <= members ==> HeadIsMachines(stages, starts, m))
    && Distinct(StageIds(stages))
  }

  lemma {:induction false} BlockExists(starts: seq<nat>, m: nat, i: nat) returns (owner: nat)
    requires Increasing(starts) && 1 <= m < |starts| && starts[0] <= i < starts[m]
    ensures 1 <= owner <= m && Block(starts, owner, i)
  {
    if i >= starts[m - 1] {
      owner := m;
    } else {
      owner := BlockExists(starts, m - 1, i);
    }
  }

  lemma BlockInside(stages: seq<Stage>, members: nat, cleanups: nat, starts: seq<nat>, m: nat, i: nat)
    requires Layout(stages, members, cleanups, starts) && Block(starts, m, i)
    ensures m <= members && cleanups <= Head(starts, m) <= i < starts[m] <= starts[members] < |stages|
    ensures HasPrefix(stages[i].id, MemberPrefix(m)) && !IsCleanup(stages[i].id) && stages[i].id != MESH && stages[i].id != ""
    ensures stages[Head(starts, m)].id == MachinesId(m)
  {
    assert starts[0] <= starts[m - 1] < starts[m] <= starts[members];
    MemberIsNotCleanup(stages[i].id, m);
    assert HeadIsMachines(stages, starts, m);
  }

  // ---- The planned dependencies in this layout ----

  lemma {:induction false} LastSkips(stages: seq<Stage>, lo: nat, i: nat, prefix: string)
    requires lo <= i <= |stages|
    requires forall j :: lo <= j < i ==> !HasPrefix(stages[j].id, prefix)
    ensures LastBefore(stages, i, prefix) == LastBefore(stages, lo, prefix)
  {
    if lo < i {
      LastSkips(stages, lo, i - 1, prefix);
    }
  }

  lemma {:induction false} MemberWantsIncluded(stages: seq<Stage>, i: nat, m: nat, members: nat, parallelism: nat, d: string)
    requires i < |stages| && parallelism >= 1 && 1 <= m <= members
    requires d in MemberWants(stages, i, m, parallelism)
    ensures d in MembersWant(stages, i, members, parallelism)
  {
    if m < members {
      MemberWantsIncluded(stages, i, m, members - 1, parallelism, d);
    }
  }

  lemma {:induction false} MeshWantsIncluded(stages: seq<Stage>, i: nat, m: nat, members: nat)
    requires i <= |stages| && 1 <= m <= members
    ensures LastBefore(stages, i, MemberPrefix(m)) in MeshWants(stages, i, members)
  {
    if m < members {
      MeshWantsIncluded(stages, i, m, members - 1);
    }
  }

  /** Stage `i` of the planned pipeline depends on stage `j`. */
  predicate Depends(stages: seq<Stage>, members: nat, i: nat, j: nat) {
    && i < |stages| && j < |stages|
    && stages[j].id in PlannedStages(stages, members, Parallelism(stages, members))[i].dependsOn
  }

  lemma WantedDependency(stages: seq<Stage>, members: nat, i: nat, j: nat)
    requires i < |stages| && j < |stages| && stages[j].id != ""
    requires stages[j].id in Wants(stages, i, members, Parallelism(stages, members))
    ensures Depends(stages, members, i, j)
  {
    AddAllMembers(stages[i].dependsOn, Wants(stages, i, members, Parallelism(stages, members)));
  }

  lemma MemberDependency(stages: seq<Stage>, members: nat, m: nat, i: nat, j: nat)
    requires 1 <= m <= members && i < |stages| && j < |stages| && stages[j].id != "" && !IsCleanup(stages[i].id)
    requires stages[j].id in MemberWants(stages, i, m, Parallelism(stages, members))
    ensures Depends(stages, members, i, j)
  {
    MemberWantsIncluded(stages, i, m, members, Parallelism(stages, members), stages[j].id);
    WantedDependency(stages, members, i, j);
  }

  lemma CleanupChain(stages: seq<Stage>, members: nat, cleanups: nat, starts: seq<nat>, i: nat)
    requires Layout(stages, members, cleanups, starts) && 0 < i < cleanups
    ensures i < |stages| && Depends(stages, members, i, i - 1)
  {
    assert starts[0] < starts[members];
    assert IsCleanup(stages[i].id) && IsCleanup(stages[i - 1].id);
    WantedDependency(stages, members, i, i - 1);
  }

  lemma MemberChain(stages: seq<Stage>, members: nat, cleanups: nat, starts: seq<nat>, m: nat, i: nat)
    requires Layout(stages, members, cleanups, starts) && Block(starts, m, i) && i > Head(starts, m)
    ensures i < |stages| && Depends(stages, members, i, i - 1)
  {
    BlockInside(stages, members, cleanups, starts, m, i);
    assert Block(starts, m, i - 1);
    BlockInside(stages, members, cleanups, starts, m, i - 1);
    MemberDependency(stages, members, m, i, i - 1);
  }

  lemma CloneChain(stages: seq<Stage>, members: nat, cleanups: nat, starts: seq<nat>, m: nat)
    requires Layout(stages, members, cleanups, starts) && 1 < m <= members
    ensures Depends(stages, members, Head(starts, m), Head(starts, m - 1))
  {
    assert Block(starts, m, Head(starts, m)) && Block(starts, m - 1, Head(starts, m - 1));
    BlockInside(stages, members, cleanups, starts, m, Head(starts, m));
    BlockInside(stages, members, cleanups, starts, m - 1, Head(starts, m - 1));
    MemberDependency(stages, members, m, Head(starts, m), Head(starts, m - 1));
  }

  lemma NoCleanupsBetween(stages: seq<Stage>, members: nat, cleanups: nat, starts: seq<nat>, m: nat)
    requires Layout(stages, members, cleanups, starts) && 1 <= m <= members
    ensures cleanups <= Head(starts, m) < |stages|
    ensures LastBefore(stages, Head(starts, m), CLEANUP) == LastBefore(stages, cleanups, CLEANUP)
  {
    var head := Head(starts, m);
    assert Block(starts, m, head);
    BlockInside(stages, members, cleanups, starts, m, head);
    forall j | cleanups <= j < head ensures !IsCleanup(stages[j].id) {
      var owner := BlockExists(starts, m, j);
      BlockInside(stages, members, cleanups, starts, owner, j);
    }
    LastSkips(stages, cleanups, head, CLEANUP);
  }

  lemma CleanupBarrierEdge(stages: seq<Stage>, members: nat, cleanups: nat, starts: seq<nat>, m: nat)
    requires Layout(stages, members, cleanups, starts) && 1 <= m <= members && cleanups > 0
    ensures Depends(stages, members, Head(starts, m), cleanups - 1)
  {
    var head := Head(starts, m);
    assert Block(starts, m, head);
    BlockInside(stages, members, cleanups, starts, m, head);
    NoCleanupsBetween(stages, members, cleanups, starts, m);
    assert IsCleanup(stages[cleanups - 1].id);
    MemberDependency(stages, members, m, head, cleanups - 1);
  }

  /** The stages of block `m` are the last ones with its prefix, wherever one looks from
      further right within the member blocks or at the mesh. */
  lemma LastOfMember(stages: seq<Stage>, members: nat, cleanups: nat, starts: seq<nat>, m: nat, i: nat)
    requires Layout(stages, members, cleanups, starts) && 1 <= m <= members && starts[m] <= i <= starts[members]
    ensures i <= |stages| && starts[m] >= 1 && LastBefore(stages, i, MemberPrefix(m)) == stages[starts[m] - 1].id
    ensures Block(starts, m, starts[m] - 1)
  {
    var tail := starts[m] - 1;
    assert starts[m - 1] < starts[m];
    assert Block(starts, m, tail);
    BlockInside(stages, members, cleanups, starts, m, tail);
    forall j | starts[m] <= j < i ensures !HasPrefix(stages[j].id, MemberPrefix(m)) {
      assert starts[0] <= j < starts[members];
      var owner := BlockExists(starts, members, j);
      BlockInside(stages, members, cleanups, starts, owner, j);
      if HasPrefix(stages[j].id, MemberPrefix(m)) {
        MemberUnique(stages[j].id, m, owner);
      }
    }
    LastSkips(stages, starts[m], i, MemberPrefix(m));
  }

  lemma LaneEdge(stages: seq<Stage>, members: nat, cleanups: nat, starts: seq<nat>, m: nat, donor: nat)
    requires Layout(stages, members, cleanups, starts)
    requires 1 <= donor < m <= members && m == donor + Parallelism(stages, members)
    ensures Depends(stages, members, Head(starts, m), Tail(starts, donor))
  {
    var head := Head(starts, m);
    assert Block(starts, m, head);
    BlockInside(stages, members, cleanups, starts, m, head);
    assert starts[donor] <= starts[m - 1] < starts[members];
    LastOfMember(stages, members, cleanups, starts, donor, head);
    BlockInside(stages, members, cleanups, starts, donor, Tail(starts, donor));
    MemberDependency(stages, members, m, head, Tail(starts, donor));
  }

  lemma MeshWantsLast(stages: seq<Stage>, members: nat, cleanups: nat, starts: seq<nat>, m: nat)
    requires Layout(stages, members, cleanups, starts) && 1 <= m <= members
    ensures starts[members] < |stages| && stages[starts[members]].id == MESH && Tail(starts, m) < |stages|
    ensures stages[Tail(starts, m)].id != "" && stages[Tail(starts, m)].id in MeshWants(stages, starts[members], members)
  {
    var mesh, tail := starts[members], Tail(starts, m);
    LastOfMember(stages, members, cleanups, starts, m, mesh);
    BlockInside(stages, members, cleanups, starts, m, tail);
    MeshWantsIncluded(stages, mesh, m, members);
  }

  lemma MeshDependency(stages: seq<Stage>, members: nat, mesh: nat, j: nat)
    requires mesh < |stages| && j < |stages| && stages[mesh].id == MESH && stages[j].id != "" && stages[j].id in MeshWants(stages, mesh, members)
    ensures Depends(stages, members, mesh, j)
  {
    assert !IsCleanup(MESH);
    WantedDependency(stages, members, mesh, j);
  }

  lemma MeshEdge(stages: seq<Stage>, members: nat, cleanups: nat, starts: seq<nat>, m: nat)
    requires Layout(stages, members, cleanups, starts) && 1 <= m <= members
    ensures Depends(stages, members, starts[members], Tail(starts, m))
  {
    MeshWantsLast(stages, members, cleanups, starts, m);
    MeshDependency(stages, members, starts[members], Tail(starts, m));
  }

  // ---- Runs ----

  predicate Success(s: RunState, i: nat) {
    i < |s.stages| && Started(s.stages[i]) && s.stages[i].status == Succeeded
  }

  predicate HasStarted(s: RunState, i: nat) {
    i < |s.stages| && Started(s.stages[i])
  }

  predicate Edge(edges: set<(nat, nat)>, i: nat, j: nat) {
    (i, j) in edges
  }

  ghost predicate CleanupsChained(edges: set<(nat, nat)>, cleanups: nat) {
    forall i: nat, j: nat :: i == j + 1 && i < cleanups ==> Edge(edges, i, j)
  }

  ghost predicate MembersChained(edges: set<(nat, nat)>, starts: seq<nat>) {
    forall m: nat, i: nat, j: nat :: Block(starts, m, i) && Block(starts, m, j) && i == j + 1 ==> Edge(edges, i, j)
  }

  ghost predicate ClonesChained(edges: set<(nat, nat)>, starts: seq<nat>) {
    forall m: nat, n: nat :: 1 <= n < m < |starts| && m == n + 1 ==> Edge(edges, Head(starts, m), Head(starts, n))
  }

  ghost predicate ClonesAfterCleanup(edges: set<(nat, nat)>, cleanups: nat, starts: seq<nat>) {
    cleanups > 0 ==> forall m: nat :: 1 <= m < |starts| ==> Edge(edges, Head(starts, m), cleanups - 1)
  }

  ghost predicate LanesTakenOver(edges: set<(nat, nat)>, starts: seq<nat>, parallelism: nat)
    requires Increasing(starts)
  {
    forall m: nat, n: nat :: 1 <= n < m < |starts| && m == n + parallelism ==> Edge(edges, Head(starts, m), Tail(starts, n))
  }

  ghost predicate MeshLast(edges: set<(nat, nat)>, starts: seq<nat>)
    requires Increasing(starts)
  {
    forall m: nat :: 1 <= m < |starts| ==> Edge(edges, starts[|starts| - 1], Tail(starts, m))
  }

  /** The barriers of the planner, as edges between positions: cleanups in order, the
      stages of a member in order, clones in order, the clones after the cleanups,
      a lane taken over from a finished member, the mesh after everything. */
  ghost predicate Barriers(edges: set<(nat, nat)>, cleanups: nat, starts: seq<nat>, parallelism: nat) {
    && |starts| >= 2 && starts[0] == cleanups && Increasing(starts) && parallelism >= 1
    && CleanupsChained(edges, cleanups)
    && MembersChained(edges, starts)
    && ClonesChained(edges, starts)
    && ClonesAfterCleanup(edges, cleanups, starts)
    && LanesTakenOver(edges, starts, parallelism)
    && MeshLast(edges, starts)
  }

  /** What a started stage depends on has succeeded. */
  ghost predicate Respects(edges: set<(nat, nat)>, s: RunState) {
    forall i: nat, j: nat :: Edge(edges, i, j) && HasStarted(s, i) ==> Success(s, j)
  }

  lemma {:induction false} CleanupOrder(edges: set<(nat, nat)>, cleanups: nat, starts: seq<nat>, parallelism: nat, s: RunState, i: nat, j: nat)
    requires Barriers(edges, cleanups, starts, parallelism) && Respects(edges, s)
    requires j < i < cleanups && HasStarted(s, i)
    ensures Success(s, j)
  {
    assert Edge(edges, i, i - 1);
    if j < i - 1 {
      CleanupOrder(edges, cleanups, starts, parallelism, s, i - 1, j);
    }
  }

  /** Within a member, a started stage finds all earlier ones succeeded. */
  lemma {:induction false} MemberOrder(edges: set<(nat, nat)>, cleanups: nat, starts: seq<nat>, parallelism: nat, s: RunState, m: nat, i: nat, j: nat)
    requires Barriers(edges, cleanups, starts, parallelism) && Respects(edges, s)
    requires Block(starts, m, i) && Block(starts, m, j) && j < i && HasStarted(s, i)
    ensures Success(s, j)
  {
    assert Block(starts, m, i - 1);
    assert Edge(edges, i, i - 1);
    if j < i - 1 {
      MemberOrder(edges, cleanups, starts, parallelism, s, m, i - 1, j);
    }
  }

  /** Cloning is serialized: a machines stage starts after all earlier ones succeeded. */
  lemma {:induction false} CloneOrder(edges: set<(nat, nat)>, cleanups: nat, starts: seq<nat>, parallelism: nat, s: RunState, m: nat, n: nat)
    requires Barriers(edges, cleanups, starts, parallelism) && Respects(edges, s)
    requires 1 <= n < m < |starts| && HasStarted(s, Head(starts, m))
    ensures Success(s, Head(starts, n))
  {
    assert Edge(edges, Head(starts, m), Head(starts, m - 1));
    if n < m - 1 {
      CloneOrder(edges, cleanups, starts, parallelism, s, m - 1, n);
    }
  }

  lemma HeadStarted(edges: set<(nat, nat)>, cleanups: nat, starts: seq<nat>, parallelism: nat, s: RunState, m: nat, i: nat)
    requires Barriers(edges, cleanups, starts, parallelism) && Respects(edges, s)
    requires Block(starts, m, i) && HasStarted(s, i)
    ensures HasStarted(s, Head(starts, m))
  {
    if i > Head(starts, m) {
      assert Block(starts, m, Head(starts, m));
      MemberOrder(edges, cleanups, starts, parallelism, s, m, i, Head(starts, m));
    }
  }

  lemma MemberFinished(edges: set<(nat, nat)>, cleanups: nat, starts: seq<nat>, parallelism: nat, s: RunState, m: nat, j: nat)
    requires Barriers(edges, cleanups, starts, parallelism) && Respects(edges, s)
    requires Block(starts, m, j) && Success(s, Tail(starts, m))
    ensures Success(s, j)
  {
    if j < Tail(starts, m) {
      assert Block(starts, m, Tail(starts, m));
      MemberOrder(edges, cleanups, starts, parallelism, s, m, Tail(starts, m), j);
    }
  }

  /** A machines stage starts only after the member whose lane it takes has finished. */
  lemma LaneOrder(edges: set<(nat, nat)>, cleanups: nat, starts: seq<nat>, parallelism: nat, s: RunState, m: nat, n: nat, j: nat)
    requires Barriers(edges, cleanups, starts, parallelism) && Respects(edges, s)
    requires 1 <= n && n + parallelism <= m < |starts|
    requires HasStarted(s, Head(starts, m)) && Block(starts, n, j)
    ensures Success(s, j)
  {
    var taker := n + parallelism;
    if taker < m {
      CloneOrder(edges, cleanups, starts, parallelism, s, m, taker);
    }
    assert Edge(edges, Head(starts, taker), Tail(starts, n));
    MemberFinished(edges, cleanups, starts, parallelism, s, n, j);
  }

  lemma BarrierAtHead(edges: set<(nat, nat)>, cleanups: nat, starts: seq<nat>, parallelism: nat, s: RunState, m: nat, j: nat)
    requires Barriers(edges, cleanups, starts, parallelism) && Respects(edges, s)
    requires 1 <= m < |starts| && HasStarted(s, Head(starts, m)) && j < cleanups
    ensures Success(s, j)
  {
    assert Edge(edges, Head(starts, m), cleanups - 1);
    if j < cleanups - 1 {
      CleanupOrder(edges, cleanups, starts, parallelism, s, cleanups - 1, j);
    }
  }

  lemma MeshOrder(edges: set<(nat, nat)>, cleanups: nat, starts: seq<nat>, parallelism: nat, s: RunState, m: nat, j: nat)
    requires Barriers(edges, cleanups, starts, parallelism) && Respects(edges, s)
    requires HasStarted(s, starts[|starts| - 1]) && Block(starts, m, j)
    ensures Success(s, j)
  {
    assert Edge(edges, starts[|starts| - 1], Tail(starts, m));
    MemberFinished(edges, cleanups, starts, parallelism, s, m, j);
  }

  /** Cleanup is a full barrier: no stage of a member, and not the mesh, starts before
      every cleanup stage has succeeded. */
  lemma CleanupBarrier(edges: set<(nat, nat)>, cleanups: nat, starts: seq<nat>, parallelism: nat, s: RunState, i: nat, j: nat)
    requires Barriers(edges, cleanups, starts, parallelism) && Respects(edges, s)
    requires j < cleanups <= i <= starts[|starts| - 1] && HasStarted(s, i)
    ensures Success(s, j)
  {
    var members := |starts| - 1;
    if i < starts[members] {
      var m := BlockExists(starts, members, i);
      HeadStarted(edges, cleanups, starts, parallelism, s, m, i);
      BarrierAtHead(edges, cleanups, starts, parallelism, s, m, j);
    } else {
      assert Block(starts, 1, Head(starts, 1));
      MeshOrder(edges, cleanups, starts, parallelism, s, 1, Head(starts, 1));
      BarrierAtHead(edges, cleanups, starts, parallelism, s, 1, j);
    }
  }

  // ---- Bounded overlap ----

  /** A member is in flight when one of its stages has started and one has not succeeded. */
  ghost predicate InFlight(starts: seq<nat>, s: RunState, m: nat) {
    && (exists i: nat :: Block(starts, m, i) && HasStarted(s, i))
    && (exists j: nat :: Block(starts, m, j) && !Success(s, j))
  }

  ghost function MembersInFlight(starts: seq<nat>, s: RunState): set<nat> {
    set m: nat | 1 <= m < |starts| && InFlight(starts, s, m)
  }

  lemma InFlightWindow(edges: set<(nat, nat)>, cleanups: nat, starts: seq<nat>, parallelism: nat, s: RunState, m: nat, n: nat)
    requires Barriers(edges, cleanups, starts, parallelism) && Respects(edges, s)
    requires 1 <= n <= m < |starts| && InFlight(starts, s, m) && InFlight(starts, s, n)
    ensures m < n + parallelism
  {
    if m >= n + parallelism {
      var i: nat :| Block(starts, m, i) && HasStarted(s, i);
      var j: nat :| Block(starts, n, j) && !Success(s, j);
      HeadStarted(edges, cleanups, starts, parallelism, s, m, i);
      LaneOrder(edges, cleanups, starts, parallelism, s, m, n, j);
    }
  }

  lemma {:induction false} WindowSize(window: set<nat>, lo: nat, width: nat)
    requires forall m :: m in window ==> lo <= m < lo + width
    ensures |window| <= width
  {
    if width == 0 {
      assert window == {};
    } else {
      WindowSize(window - {lo + width - 1}, lo, width - 1);
      SubsetSize(window, (window - {lo + width - 1}) + {lo + width - 1});
    }
  }

  lemma {:induction false} Smallest(window: set<nat>) returns (lo: nat)
    requires window != {}
    ensures lo in window && forall m :: m in window ==> lo <= m
  {
    lo :| lo in window;
    var rest := window - {lo};
    assert window == rest + {lo};
    if rest != {} {
      var least := Smallest(rest);
      lo := if least < lo then least else lo;
    }
  }

  lemma OverlapBounded(edges: set<(nat, nat)>, cleanups: nat, starts: seq<nat>, parallelism: nat, s: RunState)
    requires Barriers(edges, cleanups, starts, parallelism) && Respects(edges, s)
    ensures |MembersInFlight(starts, s)| <= parallelism
  {
    var window := MembersInFlight(starts, s);
    if window != {} {
      var lo := Smallest(window);
      forall m | m in window ensures lo <= m < lo + parallelism {
        InFlightWindow(edges, cleanups, starts, parallelism, s, m, lo);
      }
      WindowSize(window, lo, parallelism);
    }
  }

  // ---- The planned graph has these barriers, and the scheduler respects them ----

  ghost function PlannedEdges(stages: seq<Stage>, members: nat): set<(nat, nat)> {
    set i: nat, j: nat | i < |stages| && j < |stages| && Depends(stages, members, i, j) :: (i, j)
  }

  lemma PlannedChains(stages: seq<Stage>, members: nat, cleanups: nat, starts: seq<nat>)
    requires Layout(stages, members, cleanups, starts)
    ensures CleanupsChained(PlannedEdges(stages, members), cleanups)
    ensures MembersChained(PlannedEdges(stages, members), starts)
  {
    forall i: nat, j: nat | i == j + 1 && i < cleanups ensures Edge(PlannedEdges(stages, members), i, j) {
      CleanupChain(stages, members, cleanups, starts, i);
    }
    forall m: nat, i: nat, j: nat | Block(starts, m, i) && Block(starts, m, j) && i == j + 1
      ensures Edge(PlannedEdges(stages, members), i, j)
    {
      MemberChain(stages, members, cleanups, starts, m, i);
    }
  }

  lemma PlannedClones(stages: seq<Stage>, members: nat, cleanups: nat, starts: seq<nat>)
    requires Layout(stages, members, cleanups, starts)
    ensures ClonesChained(PlannedEdges(stages, members), starts)
    ensures ClonesAfterCleanup(PlannedEdges(stages, members), cleanups, starts)
  {
    var edges := PlannedEdges(stages, members);
    forall m: nat, n: nat | 1 <= n < m < |starts| && m == n + 1 ensures Edge(edges, Head(starts, m), Head(starts, n)) {
      CloneChain(stages, members, cleanups, starts, m);
    }
    if cleanups > 0 {
      forall m: nat | 1 <= m < |starts| ensures Edge(edges, Head(starts, m), cleanups - 1) {
        CleanupBarrierEdge(stages, members, cleanups, starts, m);
      }
    }
  }

  lemma DependencyIsEdge(stages: seq<Stage>, members: nat, i: nat, j: nat)
    requires Depends(stages, members, i, j)
    ensures Edge(PlannedEdges(stages, members), i, j)
  {
  }

  lemma PlannedLane(stages: seq<Stage>, members: nat, cleanups: nat, starts: seq<nat>, m: nat, n: nat)
    requires Layout(stages, members, cleanups, starts) && 1 <= n < m < |starts| && m == n + Parallelism(stages, members)
    ensures Edge(PlannedEdges(stages, members), Head(starts, m), Tail(starts, n))
  {
    LaneEdge(stages, members, cleanups, starts, m, n);
    DependencyIsEdge(stages, members, Head(starts, m), Tail(starts, n));
  }

  lemma PlannedLanes(stages: seq<Stage>, members: nat, cleanups: nat, starts: seq<nat>)
    requires Layout(stages, members, cleanups, starts)
    ensures LanesTakenOver(PlannedEdges(stages, members), starts, Parallelism(stages, members))
  {
    var edges, parallelism := PlannedEdges(stages, members), Parallelism(stages, members);
    forall m: nat, n: nat | 1 <= n < m < |starts| && m == n + parallelism ensures Edge(edges, Head(starts, m), Tail(starts, n)) {
      PlannedLane(stages, members, cleanups, starts, m, n);
    }
  }

  lemma PlannedMesh(stages: seq<Stage>, members: nat, cleanups: nat, starts: seq<nat>)
    requires Layout(stages, members, cleanups, starts)
    ensures MeshLast(PlannedEdges(stages, members), starts)
  {
    var edges := PlannedEdges(stages, members);
    forall m: nat | 1 <= m < |starts| ensures Edge(edges, starts[|starts| - 1], Tail(starts, m)) {
      MeshEdge(stages, members, cleanups, starts, m);
      DependencyIsEdge(stages, members, starts[members], Tail(starts, m));
    }
  }

  /** The planned graph has every barrier. */
  lemma PlannedBarriers(stages: seq<Stage>, members: nat, cleanups: nat, starts: seq<nat>)
    requires Layout(stages, members, cleanups, starts)
    ensures Barriers(PlannedEdges(stages, members), cleanups, starts, Parallelism(stages, members))
  {
    PlannedChains(stages, members, cleanups, starts);
    PlannedClones(stages, members, cleanups, starts);
    PlannedLanes(stages, members, cleanups, starts);
    PlannedMesh(stages, members, cleanups, starts);
  }

  lemma SchedulerRespects(def: Definition, members: nat, s: RunState)
    requires Distinct(StageIds(def.stages)) && Safe(Planned(def, members), s)
    ensures Respects(PlannedEdges(def.stages, members), s)
  {
    var planned := Planned(def, members);
    assert StageIds(planned.stages) == StageIds(def.stages);
    forall i: nat, j: nat | Edge(PlannedEdges(def.stages, members), i, j) && HasStarted(s, i) ensures Success(s, j) {
      assert SourcesComplete(planned, s.stages, i);
      assert planned.stages[j].id in planned.stages[i].dependsOn;
      CompleteAt(planned, s, j);
    }
  }

  // ---- The main theorem ----

  /** At most `lanes` stages are active and as many members in flight, a machines stage has
      started only if all earlier ones have succeeded, cleanup is a full barrier, and the mesh
      has started only if every stage of every member has succeeded. */
  ghost predicate Guaranteed(lanes: nat, cleanups: nat, starts: seq<nat>, s: RunState)
    requires starts != []
  {
    && |ActiveSet(s.stages)| <= lanes && |MembersInFlight(starts, s)| <= lanes
    && (forall m: nat, n: nat :: 1 <= n < m < |starts| && HasStarted(s, Head(starts, m)) ==> Success(s, Head(starts, n)))
    && (forall i: nat, j: nat :: j < cleanups <= i && HasStarted(s, i) ==> Success(s, j))
    && (HasStarted(s, starts[|starts| - 1]) ==> forall j: nat :: cleanups <= j < starts[|starts| - 1] ==> Success(s, j))
  }

  /** Every state that a run of a planned multi-cluster pipeline can reach has these
      guarantees, with as many lanes as the placement allows and never more than four. */
  lemma PlannedRunGuarantees(def: Definition, members: nat, cleanups: nat, starts: seq<nat>, s: RunState)
    requires Layout(def.stages, members, cleanups, starts)
    requires Reachable(Planned(def, members), s)
    ensures |s.stages| == |def.stages|
    ensures Parallelism(def.stages, members) <= 4 && Guaranteed(Parallelism(def.stages, members), cleanups, starts, s)
  {
    ReachableSafe(Planned(def, members), s);
    PlannedBarriers(def.stages, members, cleanups, starts);
    SchedulerRespects(def, members, s);
    var edges, parallelism := PlannedEdges(def.stages, members), Parallelism(def.stages, members);
    OverlapBounded(edges, cleanups, starts, parallelism, s);
    forall m: nat, n: nat | 1 <= n < m < |starts| && HasStarted(s, Head(starts, m)) ensures Success(s, Head(starts, n)) {
      CloneOrder(edges, cleanups, starts, parallelism, s, m, n);
    }
    forall i: nat, j: nat | j < cleanups <= i && HasStarted(s, i) ensures Success(s, j) {
      CleanupBarrier(edges, cleanups, starts, parallelism, s, i, j);
    }
    if HasStarted(s, starts[members]) {
      forall j: nat | cleanups <= j < starts[members] ensures Success(s, j) {
        var m := BlockExists(starts, members, j);
        MeshOrder(edges, cleanups, starts, parallelism, s, m, j);
      }
    }
  }

  /** VM cloning stays serialized: two machines stages are never active at once. */
  lemma NoConcurrentClones(def: Definition, members: nat, cleanups: nat, starts: seq<nat>, s: RunState, m: nat, n: nat)
    requires Layout(def.stages, members, cleanups, starts) && Reachable(Planned(def, members), s)
    requires 1 <= n <= members && 1 <= m <= members
    requires Head(starts, m) < |s.stages| && Head(starts, n) < |s.stages|
    requires Active(s.stages[Head(starts, m)]) && Active(s.stages[Head(starts, n)])
    ensures m == n
  {
    PlannedRunGuarantees(def, members, cleanups, starts, s);
    assert HasStarted(s, Head(starts, m)) && HasStarted(s, Head(starts, n));
    assert !Success(s, Head(starts, m)) && !Success(s, Head(starts, n));
  }

  // ---- No deadlock ----

  lemma {:induction false} LastDeclaredBefore(stages: seq<Stage>, i: nat, prefix: string)
    requires i <= |stages|
    ensures LastBefore(stages, i, prefix) == "" || DeclaredBefore(stages, i, LastBefore(stages, i, prefix))
  {
    if i > 0 {
      LastDeclaredBefore(stages, i - 1, prefix);
      if HasPrefix(stages[i - 1].id, prefix) {
        assert DeclaredBefore(stages, i, stages[i - 1].id);
      } else if LastBefore(stages, i - 1, prefix) != "" {
        var j :| 0 <= j < i - 1 && stages[j].id == LastBefore(stages, i - 1, prefix);
        assert DeclaredBefore(stages, i, stages[j].id);
      }
    }
  }

  lemma CloneBackward(stages: seq<Stage>, members: nat, cleanups: nat, starts: seq<nat>, i: nat, m: nat)
    requires Layout(stages, members, cleanups, starts) && i < |stages| && 1 < m <= members && stages[i].id == MachinesId(m)
    ensures DeclaredBefore(stages, i, MachinesId(m - 1))
  {
    assert HeadIsMachines(stages, starts, m) && HeadIsMachines(stages, starts, m - 1);
    var ids := StageIds(stages);
    assert ids[i] == ids[Head(starts, m)];
    assert i == Head(starts, m);
    assert Head(starts, m - 1) < i && stages[Head(starts, m - 1)].id == MachinesId(m - 1);
  }

  lemma MemberWantsBackward(stages: seq<Stage>, members: nat, cleanups: nat, starts: seq<nat>, i: nat, m: nat, d: string)
    requires Layout(stages, members, cleanups, starts) && i < |stages| && 1 <= m <= members
    requires d in MemberWants(stages, i, m, Parallelism(stages, members)) && d != ""
    ensures DeclaredBefore(stages, i, d)
  {
    var parallelism := Parallelism(stages, members);
    LastDeclaredBefore(stages, i, MemberPrefix(m));
    LastDeclaredBefore(stages, i, CLEANUP);
    if m > parallelism {
      LastDeclaredBefore(stages, i, MemberPrefix(m - parallelism));
    }
    if m > 1 && stages[i].id == MachinesId(m) {
      CloneBackward(stages, members, cleanups, starts, i, m);
    }
  }

  lemma {:induction false} WantsBackward(stages: seq<Stage>, members: nat, cleanups: nat, starts: seq<nat>, i: nat, count: nat, d: string)
    requires Layout(stages, members, cleanups, starts) && i < |stages| && count <= members && d != ""
    requires d in MembersWant(stages, i, count, Parallelism(stages, members)) || d in MeshWants(stages, i, count)
    ensures DeclaredBefore(stages, i, d)
  {
    if count > 0 {
      if d in MemberWants(stages, i, count, Parallelism(stages, members)) {
        MemberWantsBackward(stages, members, cleanups, starts, i, count, d);
      } else if d == LastBefore(stages, i, MemberPrefix(count)) {
        LastDeclaredBefore(stages, i, MemberPrefix(count));
      } else {
        WantsBackward(stages, members, cleanups, starts, i, count - 1, d);
      }
    }
  }

  lemma WantedIsBackward(stages: seq<Stage>, members: nat, cleanups: nat, starts: seq<nat>, i: nat, d: string)
    requires Layout(stages, members, cleanups, starts) && i < |stages| && d != ""
    requires d in Wants(stages, i, members, Parallelism(stages, members))
    ensures DeclaredBefore(stages, i, d)
  {
    LastDeclaredBefore(stages, i, CLEANUP);
    if !IsCleanup(stages[i].id) {
      WantsBackward(stages, members, cleanups, starts, i, members, d);
    }
  }

  /** The planner only adds edges to earlier stages, so a planned pipeline cannot deadlock. */
  lemma PlannedEdgesBackward(def: Definition, members: nat, cleanups: nat, starts: seq<nat>)
    requires Layout(def.stages, members, cleanups, starts) && BackwardEdges(def.stages)
    ensures BackwardEdges(Planned(def, members).stages)
  {
    forall i | 0 <= i < |def.stages| ensures BackwardEdgesAt(Planned(def, members).stages, i) {
      PlannedEdgesBackwardAt(def, members, cleanups, starts, i);
    }
  }

  lemma AllWantedBackward(stages: seq<Stage>, members: nat, cleanups: nat, starts: seq<nat>, i: nat)
    requires Layout(stages, members, cleanups, starts) && i < |stages|
    ensures forall d :: d in Wants(stages, i, members, Parallelism(stages, members)) && d != "" ==> DeclaredBefore(stages, i, d)
  {
    forall d | d in Wants(stages, i, members, Parallelism(stages, members)) && d != "" ensures DeclaredBefore(stages, i, d) {
      WantedIsBackward(stages, members, cleanups, starts, i, d);
    }
  }

  lemma PlannedEdgesBackwardAt(def: Definition, members: nat, cleanups: nat, starts: seq<nat>, i: nat)
    requires Layout(def.stages, members, cleanups, starts) && i < |def.stages| && BackwardEdgesAt(def.stages, i)
    ensures BackwardEdgesAt(Planned(def, members).stages, i)
  {
    AllWantedBackward(def.stages, members, cleanups, starts, i);
    ExtendedEdgesBackward(def.stages, Planned(def, members).stages, i, Wants(def.stages, i, members, Parallelism(def.stages, members)));
  }

  lemma ExtendedEdgesBackward(stages: seq<Stage>, planned: seq<Stage>, i: nat, wanted: seq<string>)
    requires SameShape(stages, planned) && i < |stages| && BackwardEdgesAt(stages, i)
    requires planned[i] == stages[i].(dependsOn := AddAll(stages[i].dependsOn, wanted))
    requires forall d :: d in wanted && d != "" ==> DeclaredBefore(stages, i, d)
    ensures BackwardEdgesAt(planned, i)
  {
    AddAllMembers(stages[i].dependsOn, wanted);
    forall d | DeclaredBefore(stages, i, d) ensures DeclaredBefore(planned, i, d) {
      DeclaredBeforePlanned(stages, planned, i, d);
    }
  }

  lemma DeclaredBeforePlanned(a: seq<Stage>, b: seq<Stage>, i: nat, id: string)
    requires SameShape(a, b) && DeclaredBefore(a, i, id)
    ensures DeclaredBefore(b, i, id)
  {
    var j :| 0 <= j < i && j < |a| && a[j].id == id;
    assert b[j].id == id;
  }
}
