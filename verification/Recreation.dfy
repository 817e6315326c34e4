/** Rebuilding a cluster pipeline from a finished run: the cleanup targets of
    internal/api/cluster_retry.go and the provisioning stages that
    internal/api/clusters.go keeps, reorders and plans again. */
module Recreation {
  import opened Text
  import opened Pipelines
  import opened Planner

  const PRUNE: string := "prune-machines"

  // ---- Cleanup targets ----

  datatype Target = Target(stageId: string, title: string, operationId: string)

  datatype Outcome<+T> = Ok(value: T) | Unavailable(title: string)

  function Lower(s: string): string {
    seq(|s|, i requires 0 <= i < |s| => if 'A' <= s[i] <= 'Z' then s[i] - 'A' + 'a' else s[i])
  }

  /** A run stage whose operation created something that a recreation must remove. */
  predicate Provisioned(stage: RunStage) {
    !IsCleanup(stage.stageId) && stage.stageId != PRUNE && stage.operationId != ""
  }

  predicate UnfinishedCleanup(stage: RunStage) {
    IsCleanup(stage.stageId) && stage.status != Succeeded
  }

  function RemovalOf(stage: RunStage): Target {
    Target(CLEANUP + stage.stageId, "Remove " + Lower(stage.title), stage.operationId)
  }

  /** What this run provisioned, last stage first. */
  function Removals(stages: seq<RunStage>): seq<Target> {
    if stages == [] then []
    else
      var last := stages[|stages| - 1];
      (if Provisioned(last) then [RemovalOf(last)] else []) + Removals(stages[..|stages| - 1])
  }

  /** The source operation the saved definition records for a cleanup stage. */
  function SavedSource(saved: seq<Stage>, id: string): Option<string> {
    if saved == [] then None
    else if saved[|saved| - 1].id == id then
      var source := saved[|saved| - 1].spec.sourceOperationId;
      if source == Some("") then None else source
    else SavedSource(saved[..|saved| - 1], id)
  }

  /** Cleanups an earlier attempt left unfinished, in their original order. */
  function Resumed(stages: seq<RunStage>, saved: seq<Stage>): Outcome<seq<Target>> {
    if stages == [] then Ok([])
    else
      var before := Resumed(stages[..|stages| - 1], saved);
      var last := stages[|stages| - 1];
      if before.Unavailable? || !UnfinishedCleanup(last) then before
      else if SavedSource(saved, last.stageId).None? then Unavailable(last.title)
      else Ok(before.value + [Target(last.stageId, last.title, SavedSource(saved, last.stageId).value)])
  }

  function CleanupTargets(stages: seq<RunStage>, saved: seq<Stage>): Outcome<seq<Target>> {
    var resumed := Resumed(stages, saved);
    if resumed.Unavailable? then resumed else Ok(Removals(stages) + resumed.value)
  }

  lemma {:induction false} ResumedPrefix(stages: seq<RunStage>, saved: seq<Stage>, k: nat)
    requires k <= |stages| && Resumed(stages[..k], saved).Unavailable?
    ensures Resumed(stages, saved) == Resumed(stages[..k], saved)
  {
    if k == |stages| {
      assert stages[..k] == stages;
    } else {
      assert stages[..|stages| - 1][..k] == stages[..k];
      ResumedPrefix(stages[..|stages| - 1], saved, k);
    }
  }

  lemma RemovalsStep(stages: seq<RunStage>, i: nat)
    requires i < |stages|
    ensures Removals(stages[..i + 1]) == (if Provisioned(stages[i]) then [RemovalOf(stages[i])] else []) + Removals(stages[..i])
  {
    assert stages[..i + 1][..i] == stages[..i];
  }

  /** The backward loop: remove what the run provisioned, in reverse stage order. */
  method CollectRemovals(stages: seq<RunStage>) returns (targets: seq<Target>)
    ensures targets == Removals(stages)
  {
    targets := [];
    var i := |stages|;
    assert stages[..i] == stages;
    while i > 0
      invariant 0 <= i <= |stages|
      invariant Removals(stages) == targets + Removals(stages[..i])
    {
      i := i - 1;
      RemovalsStep(stages, i);
      var stage := stages[i];
      if HasPrefix(stage.stageId, CLEANUP) || stage.stageId == PRUNE || stage.operationId == "" {
        continue;
      }
      targets := targets + [Target(CLEANUP + stage.stageId, "Remove " + Lower(stage.title), stage.operationId)];
    }
  }

  /** The forward loop: resume the cleanups that did not succeed. */
  method CollectResumed(stages: seq<RunStage>, saved: seq<Stage>) returns (result: Outcome<seq<Target>>)
    ensures result == Resumed(stages, saved)
  {
    var byId := IndexSources(saved);
    var targets: seq<Target> := [];
    for k := 0 to |stages|
      invariant Resumed(stages[..k], saved) == Ok(targets)
    {
      assert stages[..k + 1][..k] == stages[..k];
      var stage := stages[k];
      if !HasPrefix(stage.stageId, CLEANUP) || stage.status == Succeeded {
        continue;
      }
      if stage.stageId !in byId || byId[stage.stageId].None? || byId[stage.stageId].value == "" {
        ResumedPrefix(stages, saved, k + 1);
        return Unavailable(stage.title);
      }
      targets := targets + [Target(stage.stageId, stage.title, byId[stage.stageId].value)];
    }
    assert stages[..|stages|] == stages;
    return Ok(targets);
  }

  /** internal/api/cluster_retry.go: clusterRecreationCleanupTargets. */
  method ClusterRecreationCleanupTargets(stages: seq<RunStage>, saved: seq<Stage>) returns (result: Outcome<seq<Target>>)
    ensures result == CleanupTargets(stages, saved)
  {
    var removals := CollectRemovals(stages);
    result := CollectResumed(stages, saved);
    if result.Ok? {
      result := Ok(removals + result.value);
    }
  }

  /** The byID map of the cleanup loop, reduced to the field it reads. */
  method IndexSources(saved: seq<Stage>) returns (byId: map<string, Option<string>>)
    ensures forall id :: SavedSource(saved, id) ==
              if id in byId && byId[id].Some? && byId[id].value != "" then byId[id] else None
  {
    byId := map[];
    for k := 0 to |saved|
      invariant forall id :: SavedSource(saved[..k], id) ==
                  if id in byId && byId[id].Some? && byId[id].value != "" then byId[id] else None
    {
      assert saved[..k + 1][..k] == saved[..k];
      byId := byId[saved[k].id := saved[k].spec.sourceOperationId];
    }
    assert saved[..|saved|] == saved;
  }

  // ---- Provisioning stages ----

  predicate Keeps(stage: Stage) {
    !IsCleanup(stage.id) && stage.id != PRUNE
  }

  function WithoutCleanups(dependencies: seq<string>): seq<string> {
    if dependencies == [] then []
    else
      var rest := WithoutCleanups(dependencies[..|dependencies| - 1]);
      if IsCleanup(dependencies[|dependencies| - 1]) then rest else rest + [dependencies[|dependencies| - 1]]
  }

  function Stripped(stage: Stage): Stage {
    stage.(dependsOn := WithoutCleanups(stage.dependsOn))
  }

  /** The stages that are kept, stripped of cleanup dependencies, in source order. */
  function Kept(stages: seq<Stage>): seq<Stage> {
    if stages == [] then []
    else
      var rest := Kept(stages[..|stages| - 1]);
      if Keeps(stages[|stages| - 1]) then rest + [Stripped(stages[|stages| - 1])] else rest
  }

  /** The last stage of each name wins, as in a Go map filled in a loop. */
  function ById(stages: seq<Stage>): map<string, Stage> {
    if stages == [] then map[]
    else ById(stages[..|stages| - 1])[stages[|stages| - 1].id := stages[|stages| - 1]]
  }

  /** Stages named in `names` that are present, in the order of `names`. */
  function PickNamed(byId: map<string, Stage>, names: seq<string>): seq<Stage>
    decreases |names|
  {
    if names == [] then []
    else if names[0] in byId then [byId[names[0]]] + PickNamed(byId - {names[0]}, names[1..])
    else PickNamed(byId, names[1..])
  }

  /** The stages of `byId`, in the order in which their names first occur. */
  function PickOrdered(byId: map<string, Stage>, stages: seq<Stage>): seq<Stage>
    decreases |stages|
  {
    if stages == [] then []
    else if stages[0].id in byId then [byId[stages[0].id]] + PickOrdered(byId - {stages[0].id}, stages[1..])
    else PickOrdered(byId, stages[1..])
  }

  function NameSet(names: seq<string>): set<string> {
    set name | name in names
  }

  function Provisioning(stages: seq<Stage>): seq<Stage> {
    var byId := ById(Kept(stages));
    PickNamed(byId, PHASES) + PickOrdered(byId - NameSet(PHASES), stages)
  }

  function ProvisioningDefinition(def: Definition): Definition {
    Definition(0, Provisioning(def.stages), def.result)
  }

  /** The inner loop of clusterProvisioningStages: drop dependencies on cleanups. */
  method DropCleanupDependencies(dependencies: seq<string>) returns (kept: seq<string>)
    ensures kept == WithoutCleanups(dependencies)
  {
    kept := [];
    for d := 0 to |dependencies|
      invariant kept == WithoutCleanups(dependencies[..d])
    {
      assert dependencies[..d + 1][..d] == dependencies[..d];
      if !HasPrefix(dependencies[d], CLEANUP) {
        kept := kept + [dependencies[d]];
      }
    }
    assert dependencies[..|dependencies|] == dependencies;
  }

  method IndexKept(stages: seq<Stage>) returns (byId: map<string, Stage>)
    ensures byId == ById(Kept(stages))
  {
    byId := map[];
    for k := 0 to |stages|
      invariant byId == ById(Kept(stages[..k]))
    {
      assert stages[..k + 1][..k] == stages[..k];
      var stage := stages[k];
      if !HasPrefix(stage.id, CLEANUP) && stage.id != PRUNE {
        var dependencies := DropCleanupDependencies(stage.dependsOn);
        stage := stage.(dependsOn := dependencies);
        ghost var kept := Kept(stages[..k + 1]);
        assert kept[..|kept| - 1] == Kept(stages[..k]);
        byId := byId[stage.id := stage];
      }
    }
    assert stages[..|stages|] == stages;
  }

  /** The second loop: move the well-known stages to the front. */
  method TakeNamed(indexed: map<string, Stage>, names: seq<string>) returns (stages: seq<Stage>, byId: map<string, Stage>)
    ensures stages == PickNamed(indexed, names) && byId == indexed - NameSet(names)
  {
    stages, byId := [], indexed;
    for n := 0 to |names|
      invariant byId == indexed - NameSet(names[..n])
      invariant PickNamed(indexed, names) == stages + PickNamed(byId, names[n..])
    {
      assert names[n..][1..] == names[n + 1..];
      assert names[..n + 1] == names[..n] + [names[n]];
      if names[n] in byId {
        stages := stages + [byId[names[n]]];
        byId := byId - {names[n]};
      }
    }
    assert names[..|names|] == names;
  }

  /** The third loop: the remaining stages in source order. */
  method TakeOrdered(indexed: map<string, Stage>, source: seq<Stage>) returns (stages: seq<Stage>)
    ensures stages == PickOrdered(indexed, source)
  {
    var byId := indexed;
    stages := [];
    for k := 0 to |source|
      invariant PickOrdered(indexed, source) == stages + PickOrdered(byId, source[k..])
    {
      assert source[k..][1..] == source[k + 1..];
      var id := source[k].id;
      if id in byId {
        stages := stages + [byId[id]];
        byId := byId - {id};
      }
    }
  }

  /** internal/api/clusters.go: clusterProvisioningStages. */
  method ClusterProvisioningStages(source: Definition) returns (result: Definition)
    ensures result == ProvisioningDefinition(source)
    ensures result.maxParallelStages == 0 && result.result == source.result
  {
    var byId := IndexKept(source.stages);
    var named, rest := TakeNamed(byId, PHASES);
    var ordered := TakeOrdered(rest, source.stages);
    result := Definition(0, named + ordered, source.result);
  }

  // ---- What clusterProvisioningStages keeps ----

  predicate Indexed(byId: map<string, Stage>) {
    forall id :: id in byId ==> byId[id].id == id
  }

  predicate Named(stages: seq<Stage>, id: string) {
    exists i :: 0 <= i < |stages| && stages[i].id == id
  }

  lemma {:induction false} ByIdMeaning(stages: seq<Stage>)
    ensures Indexed(ById(stages))
    ensures forall id :: id in ById(stages) <==> Named(stages, id)
    ensures forall id :: id in ById(stages) ==> ById(stages)[id] in stages
  {
    if stages != [] {
      var n := |stages| - 1;
      ByIdMeaning(stages[..n]);
      assert stages == stages[..n] + [stages[n]];
      forall id ensures Named(stages, id) <==> Named(stages[..n], id) || stages[n].id == id {
        NamedSnoc(stages[..n], stages[n], id);
      }
    }
  }

  lemma {:induction false} ByIdAt(stages: seq<Stage>, i: nat)
    requires Distinct(StageIds(stages)) && i < |stages|
    ensures stages[i].id in ById(stages) && ById(stages)[stages[i].id] == stages[i]
  {
    var n := |stages| - 1;
    var ids := StageIds(stages);
    if i < n {
      assert StageIds(stages[..n]) == ids[..n] && ids[i] != ids[n];
      ByIdAt(stages[..n], i);
    }
  }

  lemma ByIdValues(stages: seq<Stage>)
    requires Distinct(StageIds(stages))
    ensures forall x :: x in stages ==> x.id in ById(stages) && ById(stages)[x.id] == x
  {
    forall x | x in stages ensures x.id in ById(stages) && ById(stages)[x.id] == x {
      var i :| 0 <= i < |stages| && stages[i] == x;
      ByIdAt(stages, i);
    }
  }

  lemma {:induction false} PickNamedMeaning(byId: map<string, Stage>, names: seq<string>)
    requires Indexed(byId)
    ensures forall x :: x in PickNamed(byId, names) <==> x.id in byId && byId[x.id] == x && x.id in names
    ensures Distinct(StageIds(PickNamed(byId, names)))
    decreases |names|
  {
    if names != [] {
      var rest := if names[0] in byId then byId - {names[0]} else byId;
      PickNamedMeaning(rest, names[1..]);
      assert names == [names[0]] + names[1..];
      var tail := PickNamed(rest, names[1..]);
      assert forall k :: 0 <= k < |tail| ==> tail[k] in tail;
    }
  }

  lemma {:induction false} PickOrderedMeaning(byId: map<string, Stage>, stages: seq<Stage>)
    requires Indexed(byId)
    ensures forall x :: x in PickOrdered(byId, stages) <==> x.id in byId && byId[x.id] == x && Named(stages, x.id)
    ensures Distinct(StageIds(PickOrdered(byId, stages)))
    decreases |stages|
  {
    if stages != [] {
      var rest := if stages[0].id in byId then byId - {stages[0].id} else byId;
      PickOrderedMeaning(rest, stages[1..]);
      var tail := PickOrdered(rest, stages[1..]);
      assert forall k :: 0 <= k < |tail| ==> tail[k] in tail;
      forall id ensures Named(stages, id) <==> stages[0].id == id || Named(stages[1..], id) {
        NamedCons(stages, id);
      }
    }
  }

  lemma NamedCons(stages: seq<Stage>, id: string)
    requires stages != []
    ensures Named(stages, id) <==> stages[0].id == id || Named(stages[1..], id)
  {
    if Named(stages[1..], id) {
      var i :| 0 <= i < |stages[1..]| && stages[1..][i].id == id;
      assert stages[i + 1].id == id;
    }
    if Named(stages, id) && stages[0].id != id {
      var i :| 0 <= i < |stages| && stages[i].id == id;
      assert stages[1..][i - 1].id == id;
    }
    assert stages[0].id == id ==> Named(stages, id);
  }

  lemma KeptMeaning(stages: seq<Stage>)
    ensures forall x :: x in Kept(stages) ==> Keeps(x) && Stripped(x) == x && Named(stages, x.id)
    ensures forall id :: Named(Kept(stages), id) ==> Named(stages, id)
    ensures Distinct(StageIds(stages)) ==> Distinct(StageIds(Kept(stages)))
  {
    KeptMembers(stages);
    if Distinct(StageIds(stages)) {
      KeptDistinct(stages);
    }
    forall id | Named(Kept(stages), id) ensures Named(stages, id) {
      var i :| 0 <= i < |Kept(stages)| && Kept(stages)[i].id == id;
      assert Kept(stages)[i] in Kept(stages);
    }
  }

  lemma {:induction false} KeptMembers(stages: seq<Stage>)
    ensures forall x :: x in Kept(stages) ==> Keeps(x) && Stripped(x) == x && Named(stages, x.id)
  {
    if stages != [] {
      var n := |stages| - 1;
      KeptMembers(stages[..n]);
      StrippedTwice(stages[n].dependsOn);
      forall id | Named(stages[..n], id) || stages[n].id == id ensures Named(stages, id) {
        NamedSnoc(stages[..n], stages[n], id);
        assert stages == stages[..n] + [stages[n]];
      }
    }
  }

  lemma {:induction false} KeptDistinct(stages: seq<Stage>)
    requires Distinct(StageIds(stages))
    ensures Distinct(StageIds(Kept(stages)))
  {
    if stages != [] {
      var n := |stages| - 1;
      var kept, ids := Kept(stages[..n]), StageIds(stages);
      assert StageIds(stages[..n]) == ids[..n];
      KeptDistinct(stages[..n]);
      KeptMembers(stages[..n]);
      forall k | 0 <= k < |kept| ensures kept[k].id != stages[n].id {
        assert kept[k] in kept;
        var i :| 0 <= i < n && stages[..n][i].id == kept[k].id;
        assert ids[i] != ids[n];
      }
    }
  }

  lemma {:induction false} StrippedTwice(dependencies: seq<string>)
    ensures WithoutCleanups(WithoutCleanups(dependencies)) == WithoutCleanups(dependencies)
    ensures forall d :: d in WithoutCleanups(dependencies) <==> d in dependencies && !IsCleanup(d)
  {
    if dependencies != [] {
      var n := |dependencies| - 1;
      StrippedTwice(dependencies[..n]);
      var kept := WithoutCleanups(dependencies);
      assert dependencies == dependencies[..n] + [dependencies[n]];
      if !IsCleanup(dependencies[n]) {
        assert kept[..|kept| - 1] == WithoutCleanups(dependencies[..n]);
      }
    }
  }

  /** For every definition, the result holds each kept name once, with its last stage. */
  lemma ProvisioningMeaning(stages: seq<Stage>)
    ensures Distinct(StageIds(Provisioning(stages)))
    ensures var byId := ById(Kept(stages));
      forall x :: x in Provisioning(stages) <==> x.id in byId && byId[x.id] == x
    ensures forall x :: x in Provisioning(stages) ==> x in Kept(stages)
  {
    var byId := ById(Kept(stages));
    ByIdMeaning(Kept(stages));
    KeptMeaning(stages);
    PickBoth(byId, PHASES, stages);
  }

  lemma PickBoth(byId: map<string, Stage>, names: seq<string>, stages: seq<Stage>)
    requires Indexed(byId) && forall id :: id in byId ==> Named(stages, id)
    ensures var both := PickNamed(byId, names) + PickOrdered(byId - NameSet(names), stages);
      Distinct(StageIds(both)) && forall x :: x in both <==> x.id in byId && byId[x.id] == x
  {
    var rest := byId - NameSet(names);
    PickNamedMeaning(byId, names);
    PickOrderedMeaning(rest, stages);
    DistinctConcat(PickNamed(byId, names), PickOrdered(rest, stages));
  }

  lemma DistinctConcat(a: seq<Stage>, b: seq<Stage>)
    requires Distinct(StageIds(a)) && Distinct(StageIds(b))
    requires forall x, y :: x in a && y in b ==> x.id != y.id
    ensures Distinct(StageIds(a + b))
  {
    var ids := StageIds(a + b);
    forall i, j | 0 <= i < j < |ids| ensures ids[i] != ids[j] {
      assert i < |a| ==> ids[i] == StageIds(a)[i] && a[i] in a;
      assert i >= |a| ==> ids[i] == StageIds(b)[i - |a|];
      assert j < |a| ==> ids[j] == StageIds(a)[j];
      assert j >= |a| ==> ids[j] == StageIds(b)[j - |a|] && b[j - |a|] in b;
    }
  }

  lemma {:induction false} SamePermutation(a: seq<Stage>, b: seq<Stage>)
    requires Distinct(StageIds(a)) && Distinct(StageIds(b))
    requires forall x :: x in a <==> x in b
    ensures multiset(a) == multiset(b)
  {
    forall x ensures multiset(a)[x] == multiset(b)[x] {
      OccursOnce(a, x);
      OccursOnce(b, x);
    }
  }

  lemma {:induction false} OccursOnce(a: seq<Stage>, x: Stage)
    requires Distinct(StageIds(a))
    ensures multiset(a)[x] == if x in a then 1 else 0
  {
    if a != [] {
      var n := |a| - 1;
      assert a == a[..n] + [a[n]];
      assert StageIds(a[..n]) == StageIds(a)[..n];
      OccursOnce(a[..n], x);
      assert forall i :: 0 <= i < n ==> StageIds(a)[i] != StageIds(a)[n];
    }
  }

  /** With distinct stage names nothing is lost and nothing is added: the result is a
      permutation of the kept stages. */
  lemma ProvisioningPermutes(stages: seq<Stage>)
    requires Distinct(StageIds(stages))
    ensures multiset(Provisioning(stages)) == multiset(Kept(stages))
  {
    ProvisioningMeaning(stages);
    KeptMeaning(stages);
    ByIdValues(Kept(stages));
    SamePermutation(Provisioning(stages), Kept(stages));
  }

  lemma {:induction false} PickOrderedSkips(byId: map<string, Stage>, a: seq<Stage>, b: seq<Stage>)
    requires forall x :: x in a ==> x.id !in byId
    ensures PickOrdered(byId, a + b) == PickOrdered(byId, b)
    decreases |a|
  {
    if a == [] {
      assert a + b == b;
    } else {
      assert (a + b)[1..] == a[1..] + b && a[0] in a;
      PickOrderedSkips(byId, a[1..], b);
    }
  }

  lemma {:induction false} PickOrderedAll(byId: map<string, Stage>, stages: seq<Stage>)
    requires Distinct(StageIds(stages))
    requires forall x :: x in stages ==> x.id in byId && byId[x.id] == x
    ensures PickOrdered(byId, stages) == stages
    decreases |stages|
  {
    if stages != [] {
      var ids := StageIds(stages);
      assert StageIds(stages[1..]) == ids[1..];
      assert stages[0] in stages;
      forall x | x in stages[1..] ensures x.id in byId - {stages[0].id} && byId[x.id] == x {
        var i :| 0 <= i < |stages[1..]| && stages[1..][i] == x;
        assert ids[0] != ids[i + 1] && stages[i + 1] in stages;
      }
      PickOrderedAll(byId - {stages[0].id}, stages[1..]);
      assert stages == [stages[0]] + stages[1..];
    }
  }

  lemma {:induction false} KeptFixed(stages: seq<Stage>)
    requires forall x :: x in stages ==> Keeps(x) && Stripped(x) == x
    ensures Kept(stages) == stages
  {
    if stages != [] {
      var n := |stages| - 1;
      assert stages[n] in stages && stages == stages[..n] + [stages[n]];
      KeptFixed(stages[..n]);
    }
  }

  /** Keeping the provisioning stages twice is keeping them once, for every definition. */
  lemma ProvisioningIdempotent(stages: seq<Stage>)
    ensures Provisioning(Provisioning(stages)) == Provisioning(stages)
  {
    var byId, result := ById(Kept(stages)), Provisioning(stages);
    var named, rest := PickNamed(byId, PHASES), byId - NameSet(PHASES);
    var ordered := PickOrdered(rest, stages);
    ProvisioningMeaning(stages);
    KeptMeaning(stages);
    KeptFixed(result);
    ByIdMeaning(Kept(stages));
    ByIdMeaning(result);
    SameIndex(result, byId);
    PickNamedMeaning(byId, PHASES);
    PickOrderedMeaning(rest, stages);
    PickOrderedSkips(rest, named, ordered);
    PickOrderedAll(rest, ordered);
  }

  lemma SameIndex(stages: seq<Stage>, byId: map<string, Stage>)
    requires Distinct(StageIds(stages)) && Indexed(byId)
    requires forall x :: x in stages <==> x.id in byId && byId[x.id] == x
    ensures ById(stages) == byId
  {
    ByIdMeaning(stages);
    forall id ensures id in ById(stages) <==> id in byId {
      if id in byId {
        assert byId[id] in stages;
        var i :| 0 <= i < |stages| && stages[i] == byId[id];
        assert Named(stages, id);
      }
    }
  }

  lemma {:induction false} PickNamedNone(byId: map<string, Stage>, names: seq<string>)
    requires forall name :: name in names ==> name !in byId
    ensures PickNamed(byId, names) == [] && byId - NameSet(names) == byId
    decreases |names|
  {
    if names != [] {
      assert names == [names[0]] + names[1..];
      PickNamedNone(byId, names[1..]);
    }
  }

  /** Without the single-cluster stage names the order is the source order. */
  lemma ProvisioningInOrder(stages: seq<Stage>)
    requires Distinct(StageIds(stages))
    requires forall name :: name in PHASES ==> !Named(stages, name)
    ensures Provisioning(stages) == Kept(stages)
  {
    var byId := ById(Kept(stages));
    KeptMeaning(stages);
    ByIdMeaning(Kept(stages));
    PickNamedNone(byId, PHASES);
    forall x | x in stages && !Keeps(x) ensures x.id !in byId {
      KeptOnly(stages, x.id);
    }
    PickOrderedKept(byId, stages);
    ByIdValues(Kept(stages));
    PickOrderedAll(byId, Kept(stages));
  }

  lemma KeptOnly(stages: seq<Stage>, id: string)
    requires IsCleanup(id) || id == PRUNE
    ensures !Named(Kept(stages), id)
  {
    KeptMeaning(stages);
    if Named(Kept(stages), id) {
      var i :| 0 <= i < |Kept(stages)| && Kept(stages)[i].id == id;
      assert Kept(stages)[i] in Kept(stages);
    }
  }

  /** Picking in source order only looks at the names that were kept. */
  lemma {:induction false} PickOrderedKept(byId: map<string, Stage>, stages: seq<Stage>)
    requires forall x :: x in stages && !Keeps(x) ==> x.id !in byId
    ensures PickOrdered(byId, stages) == PickOrdered(byId, Kept(stages))
  {
    if stages != [] {
      var n := |stages| - 1;
      assert stages == stages[..n] + [stages[n]];
      PickOrderedKept(byId, stages[..n]);
      PickOrderedAppend(byId, stages[..n], stages[n]);
      if Keeps(stages[n]) {
        PickOrderedAppend(byId, Kept(stages[..n]), Stripped(stages[n]));
        KeptNames(stages[..n], stages[n].id);
      } else {
        assert stages[n] in stages;
      }
    }
  }

  lemma {:induction false} KeptNames(stages: seq<Stage>, id: string)
    requires !IsCleanup(id) && id != PRUNE
    ensures Named(Kept(stages), id) <==> Named(stages, id)
  {
    if stages != [] {
      var n := |stages| - 1;
      KeptNames(stages[..n], id);
      assert stages == stages[..n] + [stages[n]];
      NamedSnoc(stages[..n], stages[n], id);
      if Keeps(stages[n]) {
        NamedSnoc(Kept(stages[..n]), Stripped(stages[n]), id);
      }
    }
  }

  lemma NamedSnoc(stages: seq<Stage>, last: Stage, id: string)
    ensures Named(stages + [last], id) <==> Named(stages, id) || last.id == id
  {
    if Named(stages, id) {
      var i :| 0 <= i < |stages| && stages[i].id == id;
      assert (stages + [last])[i].id == id;
    }
    assert (stages + [last])[|stages|] == last;
  }

  lemma {:induction false} PickOrderedAppend(byId: map<string, Stage>, stages: seq<Stage>, last: Stage)
    ensures PickOrdered(byId, stages + [last]) ==
            PickOrdered(byId, stages) + if last.id in byId && !Named(stages, last.id) then [byId[last.id]] else []
    decreases |stages|
  {
    if stages == [] {
      assert stages + [last] == [last] && [last][1..] == [];
    } else {
      assert (stages + [last])[1..] == stages[1..] + [last];
      NamedCons(stages, last.id);
      PickOrderedAppend(if stages[0].id in byId then byId - {stages[0].id} else byId, stages[1..], last);
    }
  }

  // ---- Retrying a retry ----

  predicate AllCleanups(stages: seq<Stage>) {
    forall i :: 0 <= i < |stages| ==> IsCleanup(stages[i].id)
  }

  predicate AllKept(stages: seq<Stage>) {
    forall i :: 0 <= i < |stages| ==> Keeps(stages[i])
  }

  lemma {:induction false} KeptConcat(a: seq<Stage>, b: seq<Stage>)
    ensures Kept(a + b) == Kept(a) + Kept(b)
  {
    if b == [] {
      assert a + b == a;
    } else {
      var n := |b| - 1;
      assert (a + b)[..|a + b| - 1] == a + b[..n];
      KeptConcat(a, b[..n]);
    }
  }

  lemma {:induction false} KeptOfCleanups(stages: seq<Stage>)
    requires AllCleanups(stages)
    ensures Kept(stages) == []
  {
    if stages != [] {
      KeptOfCleanups(stages[..|stages| - 1]);
    }
  }

  /** Kept stages of a list without cleanups: the same stages, stripped. */
  lemma {:induction false} KeptPointwise(stages: seq<Stage>)
    requires AllKept(stages)
    ensures |Kept(stages)| == |stages|
    ensures forall i :: 0 <= i < |stages| ==> Kept(stages)[i] == Stripped(stages[i])
  {
    if stages != [] {
      KeptPointwise(stages[..|stages| - 1]);
    }
  }

  /** The wanted dependencies that a recreation keeps: no cleanups, no blanks. */
  function Essential(wanted: seq<string>): seq<string> {
    if wanted == [] then []
    else (if IsCleanup(wanted[0]) || wanted[0] == "" then [] else [wanted[0]]) + Essential(wanted[1..])
  }

  lemma {:induction false} EssentialConcat(a: seq<string>, b: seq<string>)
    ensures Essential(a + b) == Essential(a) + Essential(b)
    decreases |a|
  {
    if a == [] {
      assert a + b == b;
    } else {
      assert (a + b)[1..] == a[1..] + b;
      EssentialConcat(a[1..], b);
    }
  }

  lemma {:induction false} EssentialMembers(wanted: seq<string>)
    ensures forall d :: d in Essential(wanted) <==> d in wanted && d != "" && !IsCleanup(d)
  {
    if wanted != [] {
      EssentialMembers(wanted[1..]);
      assert wanted == [wanted[0]] + wanted[1..];
    }
  }

  /** Stripping after adding is adding the essential part to what was stripped. */
  lemma {:induction false} StripAdd(dependencies: seq<string>, wanted: seq<string>)
    ensures WithoutCleanups(AddAll(dependencies, wanted)) == AddAll(WithoutCleanups(dependencies), Essential(wanted))
    decreases |wanted|
  {
    if wanted != [] {
      var d := wanted[0];
      StripAdd(Add(dependencies, d), wanted[1..]);
      StrippedTwice(dependencies);
      if d != "" && d !in dependencies {
        assert (dependencies + [d])[..|dependencies|] == dependencies;
      }
      if d != "" && !IsCleanup(d) {
        assert ([d] + Essential(wanted[1..]))[1..] == Essential(wanted[1..]);
      } else {
        assert [] + Essential(wanted[1..]) == Essential(wanted[1..]);
      }
    }
  }

  /** Cleanup stages in front do not change what a member stage waits for otherwise. */
  lemma {:induction false} LastBeforeShift(cleanups: seq<Stage>, stages: seq<Stage>, i: nat, m: nat)
    requires AllCleanups(cleanups) && i <= |stages|
    ensures LastBefore(cleanups + stages, |cleanups| + i, MemberPrefix(m)) == LastBefore(stages, i, MemberPrefix(m))
    decreases |cleanups| + i
  {
    var all := cleanups + stages;
    if i > 0 {
      assert all[|cleanups| + i - 1] == stages[i - 1];
      LastBeforeShift(cleanups, stages, i - 1, m);
    } else if |cleanups| > 0 {
      var n := |cleanups| - 1;
      assert all[n] == cleanups[n] && cleanups == cleanups[..n] + [cleanups[n]];
      assert all == cleanups[..n] + ([cleanups[n]] + stages);
      CleanupIsNoMember(all, n, m);
      LastBeforeShift(cleanups[..n], [cleanups[n]] + stages, 0, m);
    }
  }

  lemma {:induction false} LastCleanupVanishes(stages: seq<Stage>, i: nat)
    requires i <= |stages|
    ensures Essential([LastBefore(stages, i, CLEANUP)]) == []
  {
    assert [LastBefore(stages, i, CLEANUP)][1..] == [];
    if i > 0 {
      LastCleanupVanishes(stages, i - 1);
    }
  }

  /** Position `at` of one list and position `i` of another see the same stage and the
      same last stage of every member. */
  ghost predicate SameView(all: seq<Stage>, at: nat, stages: seq<Stage>, i: nat) {
    && at < |all| && i < |stages| && all[at].id == stages[i].id
    && forall m: nat :: SameLast(all, at, stages, i, m)
  }

  predicate SameLast(all: seq<Stage>, at: nat, stages: seq<Stage>, i: nat, m: nat)
    requires at <= |all| && i <= |stages|
  {
    LastBefore(all, at, MemberPrefix(m)) == LastBefore(stages, i, MemberPrefix(m))
  }

  lemma MemberWantsShift(all: seq<Stage>, at: nat, stages: seq<Stage>, i: nat, m: nat, parallelism: nat)
    requires SameView(all, at, stages, i) && parallelism >= 1
    ensures Essential(MemberWants(all, at, m, parallelism)) == Essential(MemberWants(stages, i, m, parallelism))
  {
    assert SameLast(all, at, stages, i, m);
    if HasPrefix(stages[i].id, MemberPrefix(m)) && stages[i].id == MachinesId(m) {
      LastCleanupVanishes(all, at);
      LastCleanupVanishes(stages, i);
      MachinesWantsEssential(all, at, m, parallelism);
      MachinesWantsEssential(stages, i, m, parallelism);
      MachinesEssentialShift(all, at, stages, i, m, parallelism);
    }
  }

  lemma MachinesEssentialShift(all: seq<Stage>, at: nat, stages: seq<Stage>, i: nat, m: nat, parallelism: nat)
    requires SameView(all, at, stages, i) && parallelism >= 1
    ensures MachinesEssential(all, at, m, parallelism) == MachinesEssential(stages, i, m, parallelism)
  {
    assert SameLast(all, at, stages, i, m);
    if m > parallelism {
      assert SameLast(all, at, stages, i, m - parallelism);
    }
  }

  /** What a machines stage waits for besides the cleanup. */
  function MachinesEssential(stages: seq<Stage>, i: nat, m: nat, parallelism: nat): seq<string>
    requires i < |stages| && parallelism >= 1
  {
    Essential([LastBefore(stages, i, MemberPrefix(m))])
    + Essential((if m > 1 then [MachinesId(m - 1)] else [])
                + if m > parallelism then [LastBefore(stages, i, MemberPrefix(m - parallelism))] else [])
  }

  lemma MachinesWantsEssential(stages: seq<Stage>, i: nat, m: nat, parallelism: nat)
    requires i < |stages| && parallelism >= 1 && stages[i].id == MachinesId(m)
    requires Essential([LastBefore(stages, i, CLEANUP)]) == []
    ensures Essential(MemberWants(stages, i, m, parallelism)) == MachinesEssential(stages, i, m, parallelism)
  {
    EssentialDrop([LastBefore(stages, i, MemberPrefix(m))],
                  [LastBefore(stages, i, CLEANUP)],
                  if m > 1 then [MachinesId(m - 1)] else [],
                  if m > parallelism then [LastBefore(stages, i, MemberPrefix(m - parallelism))] else []);
  }

  lemma EssentialDrop(own: seq<string>, tail: seq<string>, clone: seq<string>, lane: seq<string>)
    requires Essential(tail) == []
    ensures Essential(own + (tail + clone + lane)) == Essential(own) + Essential(clone + lane)
  {
    assert tail + clone + lane == tail + (clone + lane);
    EssentialConcat(own, tail + (clone + lane));
    EssentialConcat(tail, clone + lane);
  }

  lemma EssentialCongruence(a: seq<string>, b: seq<string>, c: seq<string>, d: seq<string>)
    requires Essential(a) == Essential(c) && Essential(b) == Essential(d)
    ensures Essential(a + b) == Essential(c + d)
  {
    EssentialConcat(a, b);
    EssentialConcat(c, d);
  }

  lemma {:induction false} MembersWantShift(all: seq<Stage>, at: nat, stages: seq<Stage>, i: nat, members: nat, parallelism: nat)
    requires SameView(all, at, stages, i) && parallelism >= 1
    ensures Essential(MembersWant(all, at, members, parallelism)) == Essential(MembersWant(stages, i, members, parallelism))
  {
    if members > 0 {
      MembersWantShift(all, at, stages, i, members - 1, parallelism);
      MemberWantsShift(all, at, stages, i, members, parallelism);
      EssentialCongruence(MembersWant(all, at, members - 1, parallelism), MemberWants(all, at, members, parallelism),
                          MembersWant(stages, i, members - 1, parallelism), MemberWants(stages, i, members, parallelism));
    }
  }

  lemma {:induction false} MeshWantsShift(all: seq<Stage>, at: nat, stages: seq<Stage>, i: nat, members: nat)
    requires SameView(all, at, stages, i)
    ensures MeshWants(all, at, members) == MeshWants(stages, i, members)
  {
    if members > 0 {
      MeshWantsShift(all, at, stages, i, members - 1);
      assert SameLast(all, at, stages, i, members);
    }
  }

  lemma WantsShift(all: seq<Stage>, at: nat, stages: seq<Stage>, i: nat, members: nat, parallelism: nat)
    requires SameView(all, at, stages, i) && parallelism >= 1 && Keeps(stages[i])
    ensures Essential(Wants(all, at, members, parallelism)) == Essential(Wants(stages, i, members, parallelism))
  {
    MembersWantShift(all, at, stages, i, members, parallelism);
    MeshWantsShift(all, at, stages, i, members);
    var mesh := if stages[i].id == MESH then MeshWants(stages, i, members) else [];
    EssentialCongruence(MembersWant(all, at, members, parallelism), mesh, MembersWant(stages, i, members, parallelism), mesh);
  }

  lemma BehindCleanups(cleanups: seq<Stage>, stages: seq<Stage>, i: nat)
    requires AllCleanups(cleanups) && i < |stages|
    ensures SameView(cleanups + stages, |cleanups| + i, stages, i)
  {
    var all, at := cleanups + stages, |cleanups| + i;
    forall m: nat ensures SameLast(all, at, stages, i, m) {
      LastBeforeShift(cleanups, stages, i, m);
    }
  }

  /** After stripping, a stage looks the same whether planned behind cleanups or alone. */
  lemma StageBehindCleanups(all: seq<Stage>, at: nat, stages: seq<Stage>, i: nat, members: nat, parallelism: nat)
    requires SameView(all, at, stages, i) && all[at] == stages[i] && parallelism >= 1 && Keeps(stages[i])
    ensures Stripped(PlannedStages(all, members, parallelism)[at]) == Stripped(PlannedStages(stages, members, parallelism)[i])
  {
    WantsShift(all, at, stages, i, members, parallelism);
    StripAdd(stages[i].dependsOn, Wants(all, at, members, parallelism));
    StripAdd(stages[i].dependsOn, Wants(stages, i, members, parallelism));
  }

  /** Kept stages of a list that opens with `n` cleanups. */
  lemma KeptBehind(stages: seq<Stage>, n: nat)
    requires n <= |stages| && AllCleanups(stages[..n]) && AllKept(stages[n..])
    ensures |Kept(stages)| == |stages| - n
    ensures forall i :: 0 <= i < |stages| - n ==> Kept(stages)[i] == Stripped(stages[n + i])
  {
    assert stages == stages[..n] + stages[n..];
    KeptConcat(stages[..n], stages[n..]);
    KeptOfCleanups(stages[..n]);
    KeptPointwise(stages[n..]);
  }

  lemma PlannedSplit(cleanups: seq<Stage>, stages: seq<Stage>, members: nat, parallelism: nat)
    requires AllCleanups(cleanups) && AllKept(stages) && parallelism >= 1
    ensures var planned := PlannedStages(cleanups + stages, members, parallelism);
      AllCleanups(planned[..|cleanups|]) && AllKept(planned[|cleanups|..])
  {
    var planned := PlannedStages(cleanups + stages, members, parallelism);
    assert forall i :: 0 <= i < |planned| ==> planned[i].id == (cleanups + stages)[i].id;
  }

  predicate AgreesBehind(behind: seq<Stage>, n: nat, alone: seq<Stage>, i: nat) {
    i < |alone| && n + i < |behind| && Stripped(behind[n + i]) == Stripped(alone[i])
  }

  lemma KeptAgree(behind: seq<Stage>, n: nat, alone: seq<Stage>)
    requires n + |alone| == |behind| && AllCleanups(behind[..n]) && AllKept(behind[n..]) && AllKept(alone)
    requires forall i: nat :: i < |alone| ==> AgreesBehind(behind, n, alone, i)
    ensures Kept(behind) == Kept(alone)
  {
    KeptBehind(behind, n);
    KeptPointwise(alone);
    var a, b := Kept(behind), Kept(alone);
    forall i: nat | i < |alone| ensures a[i] == b[i] {
      assert AgreesBehind(behind, n, alone, i);
    }
  }

  lemma PlannedAgreesBehind(all: seq<Stage>, cleanups: seq<Stage>, stages: seq<Stage>, members: nat, parallelism: nat, i: nat)
    requires all == cleanups + stages
    requires AllCleanups(cleanups) && AllKept(stages) && parallelism >= 1 && i < |stages|
    ensures AgreesBehind(PlannedStages(all, members, parallelism), |cleanups|, PlannedStages(stages, members, parallelism), i)
  {
    BehindCleanups(cleanups, stages, i);
    StageBehindCleanups(all, |cleanups| + i, stages, i, members, parallelism);
  }

  /** Planning leaves no trace of the cleanups it was given: what a later recreation
      keeps is the plan of the provisioning stages alone. */
  lemma CleanupsLeaveNoTrace(cleanups: seq<Stage>, stages: seq<Stage>, members: nat, parallelism: nat)
    requires AllCleanups(cleanups) && AllKept(stages) && parallelism >= 1
    ensures Kept(PlannedStages(cleanups + stages, members, parallelism)) == Kept(PlannedStages(stages, members, parallelism))
  {
    var behind, alone := PlannedStages(cleanups + stages, members, parallelism), PlannedStages(stages, members, parallelism);
    PlannedSplit(cleanups, stages, members, parallelism);
    forall i: nat | i < |alone| ensures AgreesBehind(behind, |cleanups|, alone, i) {
      PlannedAgreesBehind(cleanups + stages, cleanups, stages, members, parallelism, i);
    }
    KeptAgree(behind, |cleanups|, alone);
  }

  lemma {:induction false} TargetsOfCleanups(cleanups: seq<Stage>, stages: seq<Stage>)
    requires AllCleanups(cleanups)
    ensures Targets(cleanups + stages) == Targets(stages)
    decreases |stages|, |cleanups|
  {
    var all := cleanups + stages;
    if stages != [] {
      var n := |stages| - 1;
      assert all[..|all| - 1] == cleanups + stages[..n];
      TargetsOfCleanups(cleanups, stages[..n]);
    } else if cleanups != [] {
      var n := |cleanups| - 1;
      assert all == cleanups && all[..n] == cleanups[..n] + [];
      TargetsOfCleanups(cleanups[..n], []);
    }
  }

  /** A stage that was planned and stripped is reproduced by planning and stripping again. */
  lemma StageFixpoint(stages: seq<Stage>, once: seq<Stage>, i: nat, members: nat, parallelism: nat)
    requires SameShape(stages, once) && i < |stages| && parallelism >= 1
    requires once[i] == Stripped(PlannedStage(stages, i, members, parallelism))
    ensures Stripped(PlannedStage(once, i, members, parallelism)) == once[i]
  {
    var wanted := Wants(stages, i, members, parallelism);
    WantsShape(stages, once, i, members, parallelism);
    StripAdd(stages[i].dependsOn, wanted);
    StripAdd(once[i].dependsOn, wanted);
    StrippedTwice(PlannedStage(stages, i, members, parallelism).dependsOn);
    AddAllMembers(WithoutCleanups(stages[i].dependsOn), Essential(wanted));
    EssentialMembers(wanted);
    AddAllNothingNew(once[i].dependsOn, Essential(wanted));
  }

  lemma PlannedFixpoint(stages: seq<Stage>, once: seq<Stage>, members: nat, parallelism: nat)
    requires SameShape(stages, once) && AllKept(once) && parallelism >= 1
    requires forall i :: 0 <= i < |stages| ==> once[i] == Stripped(PlannedStages(stages, members, parallelism)[i])
    ensures Kept(PlannedStages(once, members, parallelism)) == once
  {
    var again := PlannedStages(once, members, parallelism);
    KeptPointwise(again);
    var kept := Kept(again);
    forall i | 0 <= i < |once| ensures kept[i] == once[i] {
      StageFixpoint(stages, once, i, members, parallelism);
      assert again[i] == PlannedStage(once, i, members, parallelism);
    }
    assert kept == once;
  }

  /** A retry never relaxes the plan: every dependency between provisioning stages
      survives, also when the placement and with it the parallelism has changed. */
  lemma RetryKeepsDependencies(cleanups: seq<Stage>, stages: seq<Stage>, members: nat, parallelism: nat, i: nat, d: string)
    requires AllCleanups(cleanups) && AllKept(stages) && parallelism >= 1 && i < |stages|
    requires d in stages[i].dependsOn && !IsCleanup(d)
    ensures |Kept(PlannedStages(cleanups + stages, members, parallelism))| == |stages|
    ensures d in Kept(PlannedStages(cleanups + stages, members, parallelism))[i].dependsOn
  {
    var planned := PlannedStages(stages, members, parallelism);
    CleanupsLeaveNoTrace(cleanups, stages, members, parallelism);
    KeptPointwise(planned);
    AddAllMembers(stages[i].dependsOn, Wants(stages, i, members, parallelism));
    StrippedTwice(planned[i].dependsOn);
  }

  // ---- The result, told by the source stages alone ----

  /** The place of a stage in a cluster; all but the five well-known ones come last. */
  function PhaseRank(id: string): (rank: nat)
    ensures rank <= 5
  {
    if id == "machines" then 0
    else if id == "kubernetes" then 1
    else if id == "storage" then 2
    else if id == "observability" then 3
    else if id == "platform" then 4
    else 5
  }

  /** Stage `i` is the first one of its name. */
  predicate FirstAt(stages: seq<Stage>, i: nat, id: string) {
    i < |stages| && stages[i].id == id && forall k :: 0 <= k < i ==> stages[k].id != id
  }

  /** Stage `i` is the last one of its name. */
  predicate LastAt(stages: seq<Stage>, i: nat, id: string) {
    i < |stages| && stages[i].id == id && forall k :: i < k < |stages| ==> stages[k].id != id
  }

  /** The well-known stages come first, in the order machines, Kubernetes, storage,
      observability, platform; two other stages come in the order of their first occurrence. */
  ghost predicate ComesBefore(stages: seq<Stage>, a: string, b: string) {
    || PhaseRank(a) < PhaseRank(b)
    || (PhaseRank(a) == PhaseRank(b) == 5 && OccursBefore(stages, a, b))
  }

  /** Both names occur, and the first occurrence of `a` is in front of that of `b`. */
  ghost predicate OccursBefore(stages: seq<Stage>, a: string, b: string) {
    exists i: nat, j: nat :: i < j && FirstAt(stages, i, a) && FirstAt(stages, j, b)
  }

  predicate ListedBefore(names: seq<string>, a: string, b: string) {
    exists i, j :: 0 <= i < j < |names| && names[i] == a && names[j] == b
  }

  lemma ListedBehind(names: seq<string>, a: string, b: string)
    requires names != []
    ensures ListedBefore(names[1..], a, b) ==> ListedBefore(names, a, b)
    ensures b in names[1..] ==> ListedBefore(names, names[0], b)
  {
    if ListedBefore(names[1..], a, b) {
      var i, j :| 0 <= i < j < |names[1..]| && names[1..][i] == a && names[1..][j] == b;
      assert names[i + 1] == a && names[j + 1] == b;
    }
    if b in names[1..] {
      var j :| 0 <= j < |names[1..]| && names[1..][j] == b;
      assert names[j + 1] == b;
    }
  }

  lemma {:induction false} PickNamedInOrder(byId: map<string, Stage>, names: seq<string>, k: nat, l: nat)
    requires Indexed(byId) && k < l < |PickNamed(byId, names)|
    ensures ListedBefore(names, PickNamed(byId, names)[k].id, PickNamed(byId, names)[l].id)
    decreases |names|
  {
    var found := names[0] in byId;
    var rest := if found then byId - {names[0]} else byId;
    var picked, tail, x := PickNamed(byId, names), PickNamed(rest, names[1..]), if found then 1 else 0;
    assert picked[l] == tail[l - x] && tail[l - x] in tail;
    PickNamedMeaning(rest, names[1..]);
    ListedBehind(names, picked[k].id, picked[l].id);
    if k >= x {
      PickNamedInOrder(rest, names[1..], k - x, l - x);
    }
  }

  lemma PhaseRanks(a: string, b: string)
    requires ListedBefore(PHASES, a, b)
    ensures PhaseRank(a) < PhaseRank(b)
  {
    assert PHASES == ["machines", "kubernetes", "storage", "observability", "platform"];
  }

  lemma RankedIsPhase(id: string)
    ensures PhaseRank(id) < 5 <==> id in PHASES
  {
    assert PHASES[0] == "machines" && PHASES[1] == "kubernetes" && PHASES[2] == "storage" && PHASES[3] == "observability" && PHASES[4] == "platform";
  }

  lemma FirstBehind(stages: seq<Stage>, i: nat, id: string)
    requires stages != [] && stages[0].id != id && FirstAt(stages[1..], i, id)
    ensures FirstAt(stages, i + 1, id)
  {
    forall k | 0 <= k < i + 1 ensures stages[k].id != id {
      assert k > 0 ==> stages[1..][k - 1] == stages[k];
    }
  }

  lemma {:induction false} PickOrderedAt(byId: map<string, Stage>, stages: seq<Stage>, k: nat) returns (i: nat)
    requires Indexed(byId) && k < |PickOrdered(byId, stages)|
    ensures FirstAt(stages, i, PickOrdered(byId, stages)[k].id)
    decreases |stages|
  {
    var found := stages[0].id in byId;
    var rest := if found then byId - {stages[0].id} else byId;
    var tail := PickOrdered(rest, stages[1..]);
    PickOrderedMeaning(rest, stages[1..]);
    if found && k == 0 {
      i := 0;
    } else {
      var x := if found then k - 1 else k;
      assert tail[x] in tail;
      i := PickOrderedAt(rest, stages[1..], x);
      FirstBehind(stages, i, tail[x].id);
      i := i + 1;
    }
  }

  lemma OccursBehind(stages: seq<Stage>, a: string, b: string)
    requires stages != [] && stages[0].id != b
    ensures stages[0].id != a && OccursBefore(stages[1..], a, b) ==> OccursBefore(stages, a, b)
    ensures stages[0].id == a && (exists j: nat :: FirstAt(stages[1..], j, b)) ==> OccursBefore(stages, a, b)
  {
    if stages[0].id != a && OccursBefore(stages[1..], a, b) {
      var i: nat, j: nat :| i < j && FirstAt(stages[1..], i, a) && FirstAt(stages[1..], j, b);
      FirstBehind(stages, i, a);
      FirstBehind(stages, j, b);
    } else if stages[0].id == a {
      if j: nat :| FirstAt(stages[1..], j, b) {
        FirstBehind(stages, j, b);
        assert FirstAt(stages, 0, a);
      }
    }
  }

  lemma PickedIn(byId: map<string, Stage>, stages: seq<Stage>, k: nat)
    requires Indexed(byId) && k < |PickOrdered(byId, stages)|
    ensures PickOrdered(byId, stages)[k].id in byId
  {
    PickOrderedMeaning(byId, stages);
    assert PickOrdered(byId, stages)[k] in PickOrdered(byId, stages);
  }

  lemma {:induction false} PickOrderedInOrder(byId: map<string, Stage>, stages: seq<Stage>, k: nat, l: nat)
    requires Indexed(byId) && k < l < |PickOrdered(byId, stages)|
    ensures OccursBefore(stages, PickOrdered(byId, stages)[k].id, PickOrdered(byId, stages)[l].id)
    decreases |stages|
  {
    var found := stages[0].id in byId;
    var rest := if found then byId - {stages[0].id} else byId;
    var picked, x := PickOrdered(byId, stages), if found then 1 else 0;
    PickedIn(rest, stages[1..], l - x);
    OccursBehind(stages, picked[k].id, picked[l].id);
    if k >= x {
      PickedIn(rest, stages[1..], k - x);
      PickOrderedInOrder(rest, stages[1..], k - x, l - x);
    } else {
      var j := PickOrderedAt(rest, stages[1..], l - x);
    }
  }

  lemma NamedIsRanked(byId: map<string, Stage>, k: nat)
    requires Indexed(byId) && k < |PickNamed(byId, PHASES)|
    ensures PhaseRank(PickNamed(byId, PHASES)[k].id) < 5
  {
    PickNamedMeaning(byId, PHASES);
    assert PickNamed(byId, PHASES)[k] in PickNamed(byId, PHASES);
    RankedIsPhase(PickNamed(byId, PHASES)[k].id);
  }

  lemma OrderedIsUnranked(byId: map<string, Stage>, stages: seq<Stage>, k: nat)
    requires Indexed(byId) && k < |PickOrdered(byId - NameSet(PHASES), stages)|
    ensures PhaseRank(PickOrdered(byId - NameSet(PHASES), stages)[k].id) == 5
  {
    var ordered := PickOrdered(byId - NameSet(PHASES), stages);
    PickOrderedMeaning(byId - NameSet(PHASES), stages);
    assert ordered[k] in ordered;
    RankedIsPhase(ordered[k].id);
  }

  /** The order of the result. */
  lemma ProvisioningOrder(stages: seq<Stage>, k: nat, l: nat)
    requires k < l < |Provisioning(stages)|
    ensures ComesBefore(stages, Provisioning(stages)[k].id, Provisioning(stages)[l].id)
  {
    var byId := ById(Kept(stages));
    ByIdMeaning(Kept(stages));
    PicksInOrder(byId, stages, k, l);
  }

  lemma PicksInOrder(byId: map<string, Stage>, stages: seq<Stage>, k: nat, l: nat)
    requires Indexed(byId) && k < l < |PickNamed(byId, PHASES) + PickOrdered(byId - NameSet(PHASES), stages)|
    ensures var both := PickNamed(byId, PHASES) + PickOrdered(byId - NameSet(PHASES), stages); ComesBefore(stages, both[k].id, both[l].id)
  {
    var n := |PickNamed(byId, PHASES)|;
    if l < n {
      PickNamedInOrder(byId, PHASES, k, l);
      PhaseRanks(PickNamed(byId, PHASES)[k].id, PickNamed(byId, PHASES)[l].id);
    } else if k < n {
      OrderedIsUnranked(byId, stages, l - n);
      NamedIsRanked(byId, k);
    } else {
      OrderedInOrder(byId, stages, k - n, l - n);
    }
  }

  lemma OrderedInOrder(byId: map<string, Stage>, stages: seq<Stage>, k: nat, l: nat)
    requires Indexed(byId) && k < l < |PickOrdered(byId - NameSet(PHASES), stages)|
    ensures var ordered := PickOrdered(byId - NameSet(PHASES), stages); ComesBefore(stages, ordered[k].id, ordered[l].id)
  {
    OrderedIsUnranked(byId, stages, k);
    OrderedIsUnranked(byId, stages, l);
    PickOrderedInOrder(byId - NameSet(PHASES), stages, k, l);
  }

  /** The places in front of `d` that name no cleanup. */
  ghost function OthersInFront(dependencies: seq<string>, d: nat): set<nat>
    requires d <= |dependencies|
  {
    set e: nat | e < d && !("cleanup-" <= dependencies[e])
  }

  /** `kept` is `dependencies` without the cleanups, in order. */
  ghost predicate DropsCleanups(dependencies: seq<string>, kept: seq<string>) {
    && |kept| == |OthersInFront(dependencies, |dependencies|)|
    && forall d: nat :: d < |dependencies| && !("cleanup-" <= dependencies[d]) ==>
         |OthersInFront(dependencies, d)| < |kept| && kept[|OthersInFront(dependencies, d)|] == dependencies[d]
  }

  lemma OthersStep(dependencies: seq<string>, d: nat)
    requires d < |dependencies|
    ensures OthersInFront(dependencies[..d], d) == OthersInFront(dependencies, d)
    ensures |OthersInFront(dependencies, d + 1)| == |OthersInFront(dependencies, d)| + if "cleanup-" <= dependencies[d] then 0 else 1
  {
    assert OthersInFront(dependencies, d + 1) == OthersInFront(dependencies, d) + (if "cleanup-" <= dependencies[d] then {} else {d});
  }

  lemma {:induction false} WithoutCleanupsCounts(dependencies: seq<string>)
    ensures |WithoutCleanups(dependencies)| == |OthersInFront(dependencies, |dependencies|)|
  {
    if dependencies == [] {
      assert OthersInFront(dependencies, 0) == {};
    } else {
      OthersStep(dependencies, |dependencies| - 1);
      WithoutCleanupsCounts(dependencies[..|dependencies| - 1]);
    }
  }

  lemma {:induction false} WithoutCleanupsAt(dependencies: seq<string>, d: nat)
    requires d < |dependencies| && !("cleanup-" <= dependencies[d])
    ensures |OthersInFront(dependencies, d)| < |WithoutCleanups(dependencies)| && WithoutCleanups(dependencies)[|OthersInFront(dependencies, d)|] == dependencies[d]
  {
    var n := |dependencies| - 1;
    WithoutCleanupsCounts(dependencies[..n]);
    assert OthersInFront(dependencies, d) == OthersInFront(dependencies[..n], d);
    OthersStep(dependencies, n);
    if d < n {
      WithoutCleanupsAt(dependencies[..n], d);
    }
  }

  lemma WithoutCleanupsDrops(dependencies: seq<string>)
    ensures DropsCleanups(dependencies, WithoutCleanups(dependencies))
  {
    WithoutCleanupsCounts(dependencies);
    forall d: nat | d < |dependencies| && !("cleanup-" <= dependencies[d])
      ensures |OthersInFront(dependencies, d)| < |WithoutCleanups(dependencies)| && WithoutCleanups(dependencies)[|OthersInFront(dependencies, d)|] == dependencies[d]
    {
      WithoutCleanupsAt(dependencies, d);
    }
  }

  /** A stage of the result: the last one of its name, less its cleanup dependencies. */
  ghost predicate IsProvisioned(stages: seq<Stage>, stage: Stage) {
    exists i: nat :: LastAt(stages, i, stage.id) && stage == stages[i].(dependsOn := stage.dependsOn) && DropsCleanups(stages[i].dependsOn, stage.dependsOn)
  }

  lemma ByIdStep(stages: seq<Stage>)
    requires stages != []
    ensures var (n, rest) := (|stages| - 1, ById(Kept(stages[..|stages| - 1])));
      ById(Kept(stages)) == if Keeps(stages[n]) then rest[stages[n].id := Stripped(stages[n])] else rest
  {
    var kept := Kept(stages);
    if Keeps(stages[|stages| - 1]) {
      assert kept[..|kept| - 1] == Kept(stages[..|stages| - 1]);
    }
  }

  lemma LastStays(stages: seq<Stage>, i: nat, id: string)
    requires stages != [] && LastAt(stages[..|stages| - 1], i, id) && stages[|stages| - 1].id != id
    ensures LastAt(stages, i, id)
  {
    forall k | i < k < |stages| ensures stages[k].id != id {
      assert k < |stages| - 1 ==> stages[..|stages| - 1][k] == stages[k];
    }
  }

  lemma {:induction false} KeptLast(stages: seq<Stage>, id: string) returns (i: nat)
    requires id in ById(Kept(stages))
    ensures LastAt(stages, i, id) && ById(Kept(stages))[id] == Stripped(stages[i])
  {
    var n := |stages| - 1;
    ByIdStep(stages);
    if stages[n].id == id {
      KeptName(stages, id);
      i := n;
    } else {
      i := KeptLast(stages[..n], id);
      LastStays(stages, i, id);
    }
  }

  lemma KeptName(stages: seq<Stage>, id: string)
    requires id in ById(Kept(stages))
    ensures !IsCleanup(id) && id != PRUNE
  {
    ByIdMeaning(Kept(stages));
    if IsCleanup(id) || id == PRUNE {
      KeptOnly(stages, id);
    }
  }

  /** What the result holds: one stage of every name that is neither a cleanup nor the pruning
      of machines, the last one of that name, without its dependencies on cleanups. */
  lemma ProvisioningHolds(stages: seq<Stage>, id: string)
    ensures Distinct(StageIds(Provisioning(stages)))
    ensures Named(Provisioning(stages), id) <==> Named(stages, id) && !("cleanup-" <= id) && id != "prune-machines"
    ensures forall k :: 0 <= k < |Provisioning(stages)| ==> IsProvisioned(stages, Provisioning(stages)[k])
  {
    var result, byId := Provisioning(stages), ById(Kept(stages));
    ProvisioningMeaning(stages);
    ByIdMeaning(Kept(stages));
    ProvisioningNames(stages, id);
    forall k | 0 <= k < |result| ensures IsProvisioned(stages, result[k]) {
      assert result[k] in result;
      var i := KeptLast(stages, result[k].id);
      WithoutCleanupsDrops(stages[i].dependsOn);
    }
  }

  lemma ProvisioningNames(stages: seq<Stage>, id: string)
    ensures Named(Provisioning(stages), id) <==> Named(stages, id) && Keeps(Stage(id, "", "", Spec(None, None, map[]), [], []))
  {
    var result, byId := Provisioning(stages), ById(Kept(stages));
    ProvisioningMeaning(stages);
    ByIdMeaning(Kept(stages));
    if Named(result, id) {
      var k :| 0 <= k < |result| && result[k].id == id;
      assert result[k] in result;
    }
    if Named(Kept(stages), id) {
      assert byId[id] in result;
      var k :| 0 <= k < |result| && result[k] == byId[id];
    }
    assert Named(result, id) <==> Named(Kept(stages), id);
    if IsCleanup(id) || id == PRUNE {
      KeptOnly(stages, id);
    } else {
      KeptNames(stages, id);
    }
  }

  // ---- Cleanup targets, told by the run stages alone ----

  /** The stage started something that is there to remove. */
  predicate MustBeRemoved(stage: RunStage) {
    !("cleanup-" <= stage.stageId) && stage.stageId != "prune-machines" && stage.operationId != ""
  }

  ghost function RemovedBehind(stages: seq<RunStage>, i: nat): set<nat> {
    set k: nat | i <= k < |stages| && MustBeRemoved(stages[k])
  }

  lemma RemovedSnoc(stages: seq<RunStage>, i: nat)
    requires stages != [] && i < |stages|
    ensures |RemovedBehind(stages, i)| == |RemovedBehind(stages[..|stages| - 1], i)| + if MustBeRemoved(stages[|stages| - 1]) then 1 else 0
  {
    var n := |stages| - 1;
    assert RemovedBehind(stages, i) == RemovedBehind(stages[..n], i) + (if MustBeRemoved(stages[n]) then {n} else {});
  }

  lemma {:induction false} RemovalsCount(stages: seq<RunStage>)
    ensures |Removals(stages)| == |RemovedBehind(stages, 0)|
  {
    if stages == [] {
      assert RemovedBehind(stages, 0) == {};
    } else {
      RemovedSnoc(stages, 0);
      RemovalsCount(stages[..|stages| - 1]);
    }
  }

  /** The target of stage `i` comes behind those of all later stages. */
  lemma {:induction false} RemovalAt(stages: seq<RunStage>, i: nat)
    requires i < |stages| && MustBeRemoved(stages[i])
    ensures |RemovedBehind(stages, i + 1)| < |Removals(stages)|
    ensures Removals(stages)[|RemovedBehind(stages, i + 1)|] == Target("cleanup-" + stages[i].stageId, "Remove " + Lower(stages[i].title), stages[i].operationId)
  {
    var n := |stages| - 1;
    if i == n {
      assert RemovedBehind(stages, n + 1) == {};
    } else {
      RemovedSnoc(stages, i + 1);
      RemovalAt(stages[..n], i);
    }
  }

  /** The cleanup did not succeed in this run. */
  predicate MustBeResumed(stage: RunStage) {
    "cleanup-" <= stage.stageId && stage.status != Succeeded
  }

  /** The saved cleanup stage names the operation it cleans up. */
  predicate SourceSaved(saved: seq<Stage>, id: string, operation: string) {
    operation != "" && exists i :: 0 <= i < |saved| && LastAt(saved, i, id) && saved[i].spec.sourceOperationId == Some(operation)
  }

  lemma {:induction false} SavedSourceMeaning(saved: seq<Stage>, id: string, operation: string)
    ensures SavedSource(saved, id) == Some(operation) <==> SourceSaved(saved, id, operation)
  {
    if saved != [] {
      var n := |saved| - 1;
      if saved[n].id == id {
        assert LastAt(saved, n, id);
      } else {
        SavedSourceMeaning(saved[..n], id, operation);
        SavedBehind(saved, id, operation);
      }
    }
  }

  lemma SavedBehind(saved: seq<Stage>, id: string, operation: string)
    requires saved != [] && saved[|saved| - 1].id != id
    ensures SourceSaved(saved, id, operation) <==> SourceSaved(saved[..|saved| - 1], id, operation)
  {
    var rest := saved[..|saved| - 1];
    if SourceSaved(saved, id, operation) {
      var i :| 0 <= i < |saved| && LastAt(saved, i, id) && saved[i].spec.sourceOperationId == Some(operation);
      assert LastAt(rest, i, id);
    }
    if SourceSaved(rest, id, operation) {
      var i :| 0 <= i < |rest| && LastAt(rest, i, id) && rest[i].spec.sourceOperationId == Some(operation);
      LastStays(saved, i, id);
    }
  }

  ghost function ResumedBefore(stages: seq<RunStage>, i: nat): set<nat>
    requires i <= |stages|
  {
    set k: nat | k < i && MustBeResumed(stages[k])
  }

  lemma ResumedStep(stages: seq<RunStage>, i: nat)
    requires i < |stages|
    ensures ResumedBefore(stages[..i], i) == ResumedBefore(stages, i)
    ensures |ResumedBefore(stages, i + 1)| == |ResumedBefore(stages, i)| + if MustBeResumed(stages[i]) then 1 else 0
  {
    assert ResumedBefore(stages, i + 1) == ResumedBefore(stages, i) + (if MustBeResumed(stages[i]) then {i} else {});
  }

  lemma {:induction false} ResumedCount(stages: seq<RunStage>, saved: seq<Stage>)
    requires Resumed(stages, saved).Ok?
    ensures |Resumed(stages, saved).value| == |ResumedBefore(stages, |stages|)|
  {
    if stages == [] {
      assert ResumedBefore(stages, 0) == {};
    } else {
      ResumedStep(stages, |stages| - 1);
      ResumedCount(stages[..|stages| - 1], saved);
    }
  }

  /** An unfinished cleanup is resumed under its own name, behind the unfinished ones in front. */
  lemma {:induction false} ResumedAt(stages: seq<RunStage>, saved: seq<Stage>, i: nat)
    requires Resumed(stages, saved).Ok? && i < |stages| && MustBeResumed(stages[i])
    ensures |ResumedBefore(stages, i)| < |Resumed(stages, saved).value|
    ensures var target := Resumed(stages, saved).value[|ResumedBefore(stages, i)|];
      target.stageId == stages[i].stageId && target.title == stages[i].title && SourceSaved(saved, stages[i].stageId, target.operationId)
  {
    var n := |stages| - 1;
    ResumedCount(stages[..n], saved);
    if i == n {
      ResumedStep(stages, n);
      SavedSourceMeaning(saved, stages[n].stageId, SavedSource(saved, stages[n].stageId).value);
    } else {
      assert ResumedBefore(stages, i) == ResumedBefore(stages[..n], i);
      ResumedAt(stages[..n], saved, i);
    }
  }

  /** Nothing is scheduled at all if some unfinished cleanup has no saved source. */
  lemma {:induction false} ResumedExactly(stages: seq<RunStage>, saved: seq<Stage>)
    ensures Resumed(stages, saved).Ok? <==>
            forall i: nat :: i < |stages| && MustBeResumed(stages[i]) ==> exists operation :: SourceSaved(saved, stages[i].stageId, operation)
  {
    if stages != [] {
      var n := |stages| - 1;
      ResumedExactly(stages[..n], saved);
      HasSavedSource(saved, stages[n].stageId);
      assert forall i: nat :: i < n ==> stages[..n][i] == stages[i];
    }
  }

  lemma HasSavedSource(saved: seq<Stage>, id: string)
    ensures SavedSource(saved, id).Some? <==> exists operation :: SourceSaved(saved, id, operation)
  {
    if SavedSource(saved, id).Some? {
      SavedSourceMeaning(saved, id, SavedSource(saved, id).value);
    }
    if operation :| SourceSaved(saved, id, operation) {
      SavedSourceMeaning(saved, id, operation);
    }
  }

  /** Titles are lowered letter by letter, and nothing else in them changes. */
  lemma LowerMeaning(s: string)
    ensures |Lower(s)| == |s|
    ensures forall i :: 0 <= i < |s| ==> !('A' <= Lower(s)[i] <= 'Z') && (Lower(s)[i] == s[i] || Lower(s)[i] as int == s[i] as int + 32)
    ensures (forall i :: 0 <= i < |s| ==> !('A' <= s[i] <= 'Z')) ==> Lower(s) == s
  {
  }

  /** The targets, all inputs: first what the run started, the last stage first, and then the
      cleanups that did not succeed, in their order. */
  lemma CleanupTargetsMeaning(stages: seq<RunStage>, saved: seq<Stage>, i: nat)
    requires i < |stages|
    ensures var targets, removed := CleanupTargets(stages, saved), |RemovedBehind(stages, 0)|;
      && (targets.Ok? <==> forall k: nat :: k < |stages| && MustBeResumed(stages[k]) ==> exists operation :: SourceSaved(saved, stages[k].stageId, operation))
      && (targets.Ok? ==> |targets.value| == removed + |ResumedBefore(stages, |stages|)|)
      && (targets.Ok? && MustBeRemoved(stages[i]) ==>
            && |RemovedBehind(stages, i + 1)| < removed
            && targets.value[|RemovedBehind(stages, i + 1)|]
               == Target("cleanup-" + stages[i].stageId, "Remove " + Lower(stages[i].title), stages[i].operationId))
      && (targets.Ok? && MustBeResumed(stages[i]) ==>
            && removed + |ResumedBefore(stages, i)| < |targets.value|
            && var target := targets.value[removed + |ResumedBefore(stages, i)|];
               target.stageId == stages[i].stageId && target.title == stages[i].title && SourceSaved(saved, target.stageId, target.operationId))
  {
    RemovalsCount(stages);
    ResumedExactly(stages, saved);
    if Resumed(stages, saved).Ok? {
      ResumedCount(stages, saved);
      if MustBeRemoved(stages[i]) {
        RemovalAt(stages, i);
      }
      if MustBeResumed(stages[i]) {
        ResumedAt(stages, saved, i);
      }
    }
  }
}
