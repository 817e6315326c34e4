/** Recreating a cluster from its own stages: in every life the saved pipeline, stripped of its
    cleanups, can be handed back as it is. */
module OwnRecreation {
  import opened Text
  import opened Pipelines
  import opened Scheduler
  import opened Planner
  import opened MultiCluster
  import opened Creation
  import opened Recreation
  import opened Lifecycle
  import opened CleanupSchedule
  import opened Retries
  import opened CreatedLives

  /** The provisioning stages of a single cluster: well-known ones only, in their order. */
  predicate InPhaseOrder(stages: seq<Stage>) {
    && (forall i :: 0 <= i < |stages| && !IsCleanup(stages[i].id) ==> PhaseRank(stages[i].id) < 5)
    && (forall i, j :: 0 <= i < j < |stages| && !IsCleanup(stages[i].id) && !IsCleanup(stages[j].id) ==>
          PhaseRank(stages[i].id) < PhaseRank(stages[j].id))
  }

  /** The provisioning stages read from provisioning stages only. */
  predicate SelfContained(stages: seq<Stage>) {
    forall i :: 0 <= i < |stages| && !IsCleanup(stages[i].id) ==> ReadsProvisioning(stages[i])
  }

  predicate ReadsProvisioning(stage: Stage) {
    stage.id != PRUNE && forall b :: b in stage.bindings ==> !IsCleanup(b.fromStage)
  }

  // ---- What is kept stays backward ----

  lemma DeclaredBehind(stages: seq<Stage>, n: nat, i: nat, id: string)
    requires CleanupsFirst(stages, n) && n + i <= |stages| && DeclaredBefore(stages, n + i, id) && !IsCleanup(id)
    requires |Kept(stages)| == |stages| - n && forall k :: 0 <= k < |stages| - n ==> Kept(stages)[k] == Stripped(stages[n + k])
    ensures DeclaredBefore(Kept(stages), i, id)
  {
    var j :| 0 <= j < n + i && j < |stages| && stages[j].id == id;
    assert j >= n && Kept(stages)[j - n] == Stripped(stages[n + (j - n)]);
  }

  lemma CleanupsSplit(stages: seq<Stage>, n: nat)
    requires CleanupsFirst(stages, n) && SelfContained(stages)
    ensures AllCleanups(stages[..n]) && AllKept(stages[n..])
  {
    forall i | 0 <= i < |stages[n..]| ensures Keeps(stages[n..][i]) {
      assert stages[n..][i] == stages[n + i] && ReadsProvisioning(stages[n + i]);
    }
  }

  lemma KeptBackwardAt(stages: seq<Stage>, n: nat, i: nat)
    requires CleanupsFirst(stages, n) && SelfContained(stages) && BackwardEdges(stages) && n + i < |stages|
    ensures i < |Kept(stages)| && BackwardEdgesAt(Kept(stages), i)
  {
    CleanupsSplit(stages, n);
    KeptBehind(stages, n);
    var stage := stages[n + i];
    assert BackwardEdgesAt(stages, n + i) && ReadsProvisioning(stage);
    StrippedTwice(stage.dependsOn);
    forall id | DeclaredBefore(stages, n + i, id) && !IsCleanup(id) ensures DeclaredBefore(Kept(stages), i, id) {
      DeclaredBehind(stages, n, i, id);
    }
  }

  lemma KeptStaysBackward(stages: seq<Stage>, n: nat)
    requires CleanupsFirst(stages, n) && SelfContained(stages) && BackwardEdges(stages)
    ensures BackwardEdges(Kept(stages))
  {
    CleanupsSplit(stages, n);
    KeptBehind(stages, n);
    forall i: nat | i < |Kept(stages)| ensures BackwardEdgesAt(Kept(stages), i) {
      KeptBackwardAt(stages, n, i);
    }
  }

  // ---- In phase order nothing is moved ----

  predicate Rising(stages: seq<Stage>) {
    forall i, j :: 0 <= i < j < |stages| ==> PhaseRank(stages[i].id) < PhaseRank(stages[j].id)
  }

  lemma LastIsGreatest(a: seq<Stage>, x: Stage)
    requires a != [] && Rising(a) && x in a && x != a[|a| - 1]
    ensures PhaseRank(x.id) < PhaseRank(a[|a| - 1].id) && x in a[..|a| - 1]
  {
    var i :| 0 <= i < |a| && a[i] == x;
    assert a[..|a| - 1][i] == x;
  }

  lemma AllButLast(a: seq<Stage>, x: Stage)
    requires a != [] && Rising(a)
    ensures x in a[..|a| - 1] <==> x in a && x != a[|a| - 1]
  {
    if x in a && x != a[|a| - 1] {
      LastIsGreatest(a, x);
    }
  }

  lemma SameLastStage(a: seq<Stage>, b: seq<Stage>)
    requires a != [] && b != [] && Rising(a) && Rising(b) && forall x :: x in a <==> x in b
    ensures a[|a| - 1] == b[|b| - 1]
  {
    var x, y := a[|a| - 1], b[|b| - 1];
    assert x in a && y in b;
    if x != y {
      LastIsGreatest(a, y);
      LastIsGreatest(b, x);
    }
  }

  /** A rising list is determined by its stages. */
  lemma {:induction false} RisingUnique(a: seq<Stage>, b: seq<Stage>)
    requires Rising(a) && Rising(b) && forall x :: x in a <==> x in b
    ensures a == b
  {
    if a == [] {
      EmptyTogether(b, a);
    } else {
      EmptyTogether(a, b);
      SameLastStage(a, b);
      var a', b' := a[..|a| - 1], b[..|b| - 1];
      forall x ensures x in a' <==> x in b' {
        AllButLast(a, x);
        AllButLast(b, x);
      }
      RisingUnique(a', b');
      assert a == a' + [a[|a| - 1]] && b == b' + [b[|b| - 1]];
    }
  }

  lemma EmptyTogether(a: seq<Stage>, b: seq<Stage>)
    requires forall x :: x in a <==> x in b
    ensures a != [] ==> b != []
  {
    assert |a| > 0 ==> a[0] in a;
  }

  lemma ProvisioningRises(stages: seq<Stage>)
    requires forall i :: 0 <= i < |stages| && !IsCleanup(stages[i].id) ==> PhaseRank(stages[i].id) < 5
    ensures Rising(Provisioning(stages))
  {
    var result := Provisioning(stages);
    forall i: nat, j: nat | i < j < |result| ensures PhaseRank(result[i].id) < PhaseRank(result[j].id) {
      ProvisioningOrder(stages, i, j);
      ProvisioningHolds(stages, result[i].id);
      assert Named(result, result[i].id);
    }
  }

  lemma SameMembers(a: seq<Stage>, b: seq<Stage>)
    requires multiset(a) == multiset(b)
    ensures forall x :: x in a <==> x in b
  {
    forall x ensures x in a <==> x in b {
      assert x in a <==> x in multiset(a);
      assert x in b <==> x in multiset(b);
    }
  }

  /** Stages in phase order are kept in place. */
  lemma OrderedKept(stages: seq<Stage>, n: nat)
    requires CleanupsFirst(stages, n) && SelfContained(stages) && InPhaseOrder(stages) && Distinct(StageIds(stages))
    ensures Provisioning(stages) == Kept(stages)
  {
    CleanupsSplit(stages, n);
    KeptBehind(stages, n);
    ProvisioningRises(stages);
    ProvisioningPermutes(stages);
    SameMembers(Provisioning(stages), Kept(stages));
    RisingUnique(Provisioning(stages), Kept(stages));
  }

  // ---- Lives ----

  /** What is kept of the current pipeline is kept in place and backward. */
  ghost predicate Reusable(mode: Mode, l: Life) {
    SelfContained(l.def.stages) && (mode == Single ==> InPhaseOrder(l.def.stages))
  }

  lemma KeptInPlace(mode: Mode, def: Definition, cleanups: nat, starts: seq<nat>)
    requires ClusterPipeline(mode, def, cleanups, starts) && SelfContained(def.stages) && (mode == Single ==> InPhaseOrder(def.stages))
    ensures Provisioning(def.stages) == Kept(def.stages)
  {
    if mode == Single {
      OrderedKept(def.stages, cleanups);
    } else {
      MultiKept(def.stages, mode.members, cleanups, starts);
    }
  }

  /** The provisioning stages of a recreation that is accepted read from each other only. */
  lemma ProvisionReads(provision: seq<Stage>)
    requires BackwardEdges(provision) && (forall i :: 0 <= i < |provision| ==> Keeps(provision[i]))
    ensures SelfContained(provision)
  {
    forall i | 0 <= i < |provision| ensures ReadsProvisioning(provision[i]) {
      assert BackwardEdgesAt(provision, i);
    }
  }

  lemma ProvisionKeeps(mode: Mode, kept: seq<Stage>, provision: seq<Stage>)
    requires Rebuilds(mode, kept, provision) && AllKept(kept)
    ensures AllKept(provision)
  {
    assert !IsCleanup("platform") by {
      assert "platform"[0] == 'p';
    }
  }

  /** Appending the platform stage keeps the order. */
  lemma ProvisionOrdered(kept: seq<Stage>, provision: seq<Stage>)
    requires Rebuilds(Single, kept, provision) && AllKept(kept) && InPhaseOrder(kept)
    ensures InPhaseOrder(provision)
  {
    ProvisionKeeps(Single, kept, provision);
    if |provision| == |kept| + 1 {
      forall i | 0 <= i < |kept| ensures PhaseRank(kept[i].id) < 4 {
        assert kept[i].id != "platform" by {
          assert kept[i].id == "platform" ==> Named(kept, "platform");
        }
      }
    }
  }

  lemma KeptOrdered(stages: seq<Stage>, n: nat)
    requires CleanupsFirst(stages, n) && SelfContained(stages) && InPhaseOrder(stages)
    ensures InPhaseOrder(Kept(stages))
  {
    CleanupsSplit(stages, n);
    KeptBehind(stages, n);
  }

  /** Cleanups in front, and dependencies on them, change none of this. */
  lemma JoinedReusable(targets: seq<Target>, provision: seq<Stage>, stages: seq<Stage>)
    requires forall k :: 0 <= k < |targets| ==> IsCleanup(targets[k].stageId)
    requires SelfContained(provision) && |stages| == |Joined(targets, provision)|
    requires forall i :: 0 <= i < |stages| ==> stages[i].id == Joined(targets, provision)[i].id && stages[i].bindings == Joined(targets, provision)[i].bindings
    ensures SelfContained(stages)
    ensures InPhaseOrder(provision) ==> InPhaseOrder(stages)
  {
    var joined, n := Joined(targets, provision), |targets|;
    assert forall i :: 0 <= i < n ==> joined[i] == CleanupStage(targets[i]);
    assert forall i :: n <= i < |joined| ==> joined[i] == provision[i - n];
    forall i | 0 <= i < |stages| && !IsCleanup(stages[i].id) ensures ReadsProvisioning(stages[i]) {
      assert ReadsProvisioning(provision[i - n]);
    }
  }

  lemma RebuiltReads(mode: Mode, targets: seq<Target>, provision: seq<Stage>, result: Output)
    ensures var stages, joined := Rebuilt(mode, targets, provision, result).stages, Joined(targets, provision);
      |stages| == |joined| && forall i :: 0 <= i < |stages| ==> stages[i].id == joined[i].id && stages[i].bindings == joined[i].bindings
  {
  }

  lemma RecreatedReusable(mode: Mode, cleanable: set<string>, l: Life, l': Life, cleanups: nat, starts: seq<nat>, provision: seq<Stage>)
    requires Consistent(mode, cleanable, l, cleanups, starts) && Reusable(mode, l) && RecreateStep(mode, cleanable, l, l', provision)
    ensures Reusable(mode, l')
  {
    RecreationTargetsExact(mode, cleanable, l, cleanups, starts);
    var targets := Selected(CleanupTargets(l.run.stages, l.def.stages).value, cleanable);
    KeptInPlace(mode, l.def, cleanups, starts);
    ProvisioningKept(l.def.stages);
    ProvisionKeeps(mode, Kept(l.def.stages), provision);
    ProvisionReads(provision);
    if mode == Single {
      KeptOrdered(l.def.stages, cleanups);
      ProvisionOrdered(Kept(l.def.stages), provision);
    }
    RebuiltReads(mode, targets, provision, l.def.result);
    JoinedReusable(targets, provision, l'.def.stages);
  }

  /** A new pipeline has no cleanups to read from. */
  lemma NewIsReusable(mode: Mode, l: Life)
    requires NewLife(mode, l) && (mode == Single ==> InPhaseOrder(l.def.stages))
    ensures Reusable(mode, l)
  {
    var starts :| ClusterPipeline(mode, l.def, 0, starts);
    if mode != Single {
      MultiKept(l.def.stages, mode.members, 0, starts);
    }
    forall i | 0 <= i < |l.def.stages| ensures Keeps(l.def.stages[i]) {
      assert PhaseRank(PRUNE) == 5;
    }
    ProvisionReads(l.def.stages);
  }

  lemma LifeReusable(mode: Mode, cleanable: set<string>, lives: seq<Life>, events: seq<LifeEvent>, k: nat)
    requires IsLife(mode, cleanable, lives, events) && k <= |events| && (mode == Single ==> InPhaseOrder(lives[0].def.stages))
    ensures ConsistentLife(mode, cleanable, lives[k]) && Reusable(mode, lives[k])
  {
    var good := l => ConsistentLife(mode, cleanable, l) && Reusable(mode, l);
    var step := (l, l', e) => LifeStep(mode, cleanable, l, l', e);
    forall l, l', e | good(l) && step(l, l', e) ensures good(l') {
      LifeStepConsistent(mode, cleanable, l, l', e);
      if e.Recreated? {
        var cleanups, starts :| Consistent(mode, cleanable, l, cleanups, starts);
        RecreatedReusable(mode, cleanable, l, l', cleanups, starts, e.provision);
      }
    }
    NewLifeStartsConsistent(mode, cleanable, lives[0]);
    NewIsReusable(mode, lives[0]);
    forall j | 0 <= j < |events| ensures step(lives[j], lives[j + 1], events[j]) {
      assert LifeStepAt(mode, cleanable, lives, events, j);
    }
    InvariantHolds(lives, events, good, step, k);
  }

  ghost predicate RecreatesItself(mode: Mode, cleanable: set<string>, l: Life) {
    exists l' :: RecreateStep(mode, cleanable, l, l', Provisioning(l.def.stages))
  }

  /** A cluster whose run has ended can be recreated from its own stages exactly if they are
      backward in the order in which they are kept. */
  lemma RecreatesItselfExactly(mode: Mode, cleanable: set<string>, l: Life)
    requires ConsistentLife(mode, cleanable, l) && ActiveSet(l.run.stages) == {} && (l.run.terminating || AllSucceeded(l.run))
    ensures RecreatesItself(mode, cleanable, l) <==> BackwardEdges(Provisioning(l.def.stages))
  {
    var kept := Provisioning(l.def.stages);
    ReverseCreationOrder(mode, cleanable, l);
    if BackwardEdges(kept) {
      var targets := CleanupTargets(l.run.stages, l.def.stages);
      var def := Rebuilt(mode, Selected(targets.value, cleanable), kept, l.def.result);
      var l' := l.(attempt := l.attempt + 1, def := def, run := NewRun(def));
      assert RecreateStep(mode, cleanable, l, l', kept);
    }
  }

  /** In every life, however many recreations came before: as soon as the run has ended, the
      cluster can be recreated with its own provisioning stages. Lives of a single cluster
      begin with some of the five well-known stages, in their order. */
  lemma LifeMayRecreate(mode: Mode, cleanable: set<string>, lives: seq<Life>, events: seq<LifeEvent>, k: nat)
    requires IsLife(mode, cleanable, lives, events) && k <= |events| && (mode == Single ==> InPhaseOrder(lives[0].def.stages))
    requires ActiveSet(lives[k].run.stages) == {} && (lives[k].run.terminating || AllSucceeded(lives[k].run))
    ensures RecreatesItself(mode, cleanable, lives[k])
  {
    LifeReusable(mode, cleanable, lives, events, k);
    var cleanups, starts :| Consistent(mode, cleanable, lives[k], cleanups, starts);
    KeptInPlace(mode, lives[k].def, cleanups, starts);
    KeptStaysBackward(lives[k].def.stages, cleanups);
    RecreatesItselfExactly(mode, cleanable, lives[k]);
  }

  /** Every pipeline that is prepared for a single cluster begins such a life. */
  lemma PreparedIsNewLife(def: Definition)
    requires Prepared(def.stages) && def.maxParallelStages <= 1
    ensures NewLife(Single, NewbornLife(def)) && InPhaseOrder(def.stages)
  {
    assert PHASES == ["machines", "kubernetes", "storage", "observability", "platform"];
    forall i: nat | i < 5 ensures !IsCleanup(def.stages[i].id) && PhaseRank(def.stages[i].id) == i {
      assert def.stages[i].id == PHASES[i] && PHASES[i][0] != 'c';
    }
    assert ClusterPipeline(Single, def, 0, []);
  }

  /** A pipeline against that order cannot be recreated from its own stages: one in which a
      well-known stage waits for a stage that is kept behind it. */
  lemma AgainstPhases(stages: seq<Stage>, i: nat, d: string)
    requires i < |stages| && LastAt(stages, i, stages[i].id) && Keeps(stages[i])
    requires d in stages[i].dependsOn && !IsCleanup(d) && PhaseRank(stages[i].id) < PhaseRank(d)
    ensures !BackwardEdges(Provisioning(stages))
  {
    var kept := Provisioning(stages);
    ProvisioningHolds(stages, stages[i].id);
    assert Named(stages, stages[i].id);
    var k :| 0 <= k < |kept| && kept[k].id == stages[i].id;
    KeepsDependency(stages, i, kept[k], d);
    if BackwardEdges(kept) {
      assert BackwardEdgesAt(kept, k) && DeclaredBefore(kept, k, d);
      var j: nat :| j < k && j < |kept| && kept[j].id == d;
      ProvisioningOrder(stages, j, k);
    }
  }

  lemma KeepsDependency(stages: seq<Stage>, i: nat, stage: Stage, d: string)
    requires IsProvisioned(stages, stage) && LastAt(stages, i, stage.id) && d in stages[i].dependsOn && !IsCleanup(d)
    ensures d in stage.dependsOn
  {
    var l: nat :| LastAt(stages, l, stage.id) && stage == stages[l].(dependsOn := stage.dependsOn) && DropsCleanups(stages[l].dependsOn, stage.dependsOn);
    assert l == i;
    var e: nat :| e < |stages[i].dependsOn| && stages[i].dependsOn[e] == d;
    assert stage.dependsOn[|OthersInFront(stages[i].dependsOn, e)|] == d;
  }
}
