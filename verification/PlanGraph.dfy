/** The checks of an operation plan: the artifact dataflow of internal/artifacts/contract.go
    and the step identities and resource effects of internal/api/server.go. */
module PlanGraph {
  import opened Contracts
  import opened Pointer
  import opened Text

  datatype ArtifactInput = ArtifactInput(name: string, contract: Contract, artifactId: string, fromStep: string, fromOutput: string)

  datatype ArtifactOutput = ArtifactOutput(name: string, contract: Contract, mediaType: string, source: string)

  datatype Effect = Effect(action: string, externalId: string, kind: string, name: string)

  /** What the checks decode from a step input: nothing if it is no JSON text, otherwise the
      connection it names, if any. */
  datatype StepInput = Malformed | Decoded(connectionRef: Option<string>)

  datatype Step = Step(id: string, name: string, input: StepInput, inputs: seq<ArtifactInput>, outputs: seq<ArtifactOutput>, effects: seq<Effect>)

  datatype Plan = Plan(pluginId: string, steps: seq<Step>)

  datatype Manifest = Manifest(id: string, provider: string, capabilities: set<string>, inputs: seq<Contract>, outputs: seq<Contract>)

  // ---- Names ----

  predicate IsLetter(c: char) {
    'A' <= c <= 'Z' || 'a' <= c <= 'z'
  }

  predicate IsLower(c: char) {
    'a' <= c <= 'z'
  }

  /** The pattern ^[A-Za-z][A-Za-z0-9.-]{0,127}$. */
  predicate IsType(s: string) {
    1 <= |s| <= 128 && IsLetter(s[0]) && forall i :: 0 <= i < |s| ==> IsLetter(s[i]) || IsDigit(s[i]) || s[i] == '.' || s[i] == '-'
  }

  /** The pattern ^[a-z][a-z0-9-]{0,63}$. */
  predicate IsOutputName(s: string) {
    1 <= |s| <= 64 && IsLower(s[0]) && forall i :: 0 <= i < |s| ==> IsLower(s[i]) || IsDigit(s[i]) || s[i] == '-'
  }

  predicate AllDigits(s: string) {
    s != [] && forall i :: 0 <= i < |s| ==> IsDigit(s[i])
  }

  /** `s` is `word` followed by digits. */
  predicate Numbered(s: string, word: string) {
    HasPrefix(s, word) && AllDigits(s[|word|..])
  }

  /** The pattern ^v[0-9]+(?:alpha[0-9]+|beta[0-9]+)?$. */
  predicate IsVersion(s: string) {
    exists n :: 1 < n <= |s| && Numbered(s[..n], "v") && (n == |s| || Numbered(s[n..], "alpha") || Numbered(s[n..], "beta"))
  }

  predicate IsIdentity(c: Contract) {
    IsType(c.artifactType) && IsVersion(c.version)
  }

  // ---- Names hold no NUL ----

  lemma TypeHasNoNul(s: string)
    requires IsType(s)
    ensures NUL !in s
  {
  }

  lemma VersionHasNoNul(s: string)
    requires IsVersion(s)
    ensures NUL !in s
  {
    var n :| 1 < n <= |s| && Numbered(s[..n], "v") && (n == |s| || Numbered(s[n..], "alpha") || Numbered(s[n..], "beta"));
    NumberedHasNoNul(s[..n], "v");
    if n < |s| {
      if Numbered(s[n..], "alpha") {
        NumberedHasNoNul(s[n..], "alpha");
      } else {
        NumberedHasNoNul(s[n..], "beta");
      }
    }
    assert s == s[..n] + s[n..];
  }

  lemma NumberedHasNoNul(s: string, word: string)
    requires Numbered(s, word) && NUL !in word
    ensures NUL !in s
  {
    assert s == word + s[|word|..];
  }

  // ---- Declared contracts ----

  predicate ContractsValid(contracts: seq<Contract>) {
    Distinct(contracts) && forall i :: 0 <= i < |contracts| ==> IsIdentity(contracts[i])
  }

  /** The key set of declared contracts; for a valid contract, membership is declaration. */
  ghost predicate Indexes(keys: set<string>, contracts: seq<Contract>) {
    forall c :: IsIdentity(c) ==> (ContractKey(c) in keys <==> c in contracts)
  }

  lemma ContractKeyInjective(c: Contract, d: Contract)
    requires IsIdentity(c) && IsIdentity(d) && ContractKey(c) == ContractKey(d)
    ensures c == d
  {
    TypeHasNoNul(c.artifactType);
    VersionHasNoNul(c.version);
    KeyInjective(c.artifactType, c.version, d.artifactType, d.version);
  }

  lemma IndexesAppend(keys: set<string>, contracts: seq<Contract>, c: Contract)
    requires Indexes(keys, contracts) && IsIdentity(c)
    ensures Indexes(keys + {ContractKey(c)}, contracts + [c])
  {
    forall d | IsIdentity(d)
      ensures ContractKey(d) in keys + {ContractKey(c)} <==> d in contracts + [c]
    {
      if ContractKey(d) == ContractKey(c) {
        ContractKeyInjective(d, c);
      }
    }
  }

  /** internal/artifacts/contract.go: validateContracts. */
  method ValidateContracts(contracts: seq<Contract>) returns (ok: bool, keys: set<string>)
    ensures ok <==> ContractsValid(contracts)
    ensures ok ==> Indexes(keys, contracts)
  {
    keys := {};
    for k := 0 to |contracts|
      invariant ContractsValid(contracts[..k]) && Indexes(keys, contracts[..k])
    {
      var c := contracts[k];
      assert contracts[..k + 1] == contracts[..k] + [c];
      if !IsIdentity(c) {
        return false, keys;
      }
      var key := ContractKey(c);
      if key in keys {
        var j :| 0 <= j < |contracts[..k]| && contracts[..k][j] == c;
        assert contracts[j] == contracts[k];
        return false, keys;
      }
      IndexesAppend(keys, contracts[..k], c);
      keys := keys + {key};
    }
    assert contracts[..|contracts|] == contracts;
    return true, keys;
  }

  // ---- Dataflow ----

  /** The producers map after the outputs of one step were recorded. */
  function WithOutputs(producers: map<string, ArtifactOutput>, id: string, outputs: seq<ArtifactOutput>): map<string, ArtifactOutput> {
    if outputs == [] then producers
    else
      var last := outputs[|outputs| - 1];
      WithOutputs(producers, id, outputs[..|outputs| - 1])[Key(id, last.name) := last]
  }

  /** The producers map before step `n`. */
  function Producers(steps: seq<Step>, n: nat): map<string, ArtifactOutput>
    requires n <= |steps|
  {
    if n == 0 then map[] else WithOutputs(Producers(steps, n - 1), steps[n - 1].id, steps[n - 1].outputs)
  }

  predicate InputAccepted(producers: map<string, ArtifactOutput>, declared: seq<Contract>, x: ArtifactInput) {
    && IsOutputName(x.name) && IsIdentity(x.contract) && x.contract in declared
    && if x.artifactId != "" then HasPrefix(x.artifactId, "art_") && x.fromStep == "" && x.fromOutput == ""
       else x.fromStep != "" && x.fromOutput != "" && Key(x.fromStep, x.fromOutput) in producers
            && producers[Key(x.fromStep, x.fromOutput)].contract == x.contract
  }

  predicate InputsSoFar(producers: map<string, ArtifactOutput>, declared: seq<Contract>, inputs: seq<ArtifactInput>, n: nat)
    requires n <= |inputs|
  {
    forall k :: 0 <= k < n ==> InputAccepted(producers, declared, inputs[k])
  }

  predicate InputsAccepted(producers: map<string, ArtifactOutput>, declared: seq<Contract>, inputs: seq<ArtifactInput>) {
    && InputsSoFar(producers, declared, inputs, |inputs|)
    && Distinct(InputNames(inputs))
  }

  function InputNames(inputs: seq<ArtifactInput>): (names: seq<string>)
    ensures |names| == |inputs| && forall k :: 0 <= k < |inputs| ==> names[k] == inputs[k].name
  {
    seq(|inputs|, k requires 0 <= k < |inputs| => inputs[k].name)
  }

  function OutputNames(outputs: seq<ArtifactOutput>): (names: seq<string>)
    ensures |names| == |outputs| && forall k :: 0 <= k < |outputs| ==> names[k] == outputs[k].name
  {
    seq(|outputs|, k requires 0 <= k < |outputs| => outputs[k].name)
  }

  predicate OutputAccepted(declared: seq<Contract>, x: ArtifactOutput) {
    && IsOutputName(x.name) && IsIdentity(x.contract) && x.contract in declared
    && x.mediaType == "application/json" && (x.source == "" || (HasPrefix(x.source, "/") && EscapesValid(x.source)))
  }

  predicate OutputsSoFar(declared: seq<Contract>, outputs: seq<ArtifactOutput>, n: nat)
    requires n <= |outputs|
  {
    forall k :: 0 <= k < n ==> OutputAccepted(declared, outputs[k])
  }

  predicate OutputsAccepted(declared: seq<Contract>, outputs: seq<ArtifactOutput>) {
    && OutputsSoFar(declared, outputs, |outputs|)
    && Distinct(OutputNames(outputs))
  }

  predicate StepAccepted(steps: seq<Step>, declaredInputs: seq<Contract>, declaredOutputs: seq<Contract>, i: nat)
    requires i < |steps|
  {
    InputsAccepted(Producers(steps, i), declaredInputs, steps[i].inputs) && OutputsAccepted(declaredOutputs, steps[i].outputs)
  }

  /** What ValidatePlan accepts. */
  predicate PlanAccepted(steps: seq<Step>, declaredInputs: seq<Contract>, declaredOutputs: seq<Contract>) {
    && ContractsValid(declaredInputs) && ContractsValid(declaredOutputs)
    && forall i: nat :: i < |steps| ==> StepAccepted(steps, declaredInputs, declaredOutputs, i)
  }

  /** The checks of one input. */
  method CheckInput(producers: map<string, ArtifactOutput>, declared: seq<Contract>, allowed: set<string>, x: ArtifactInput) returns (ok: bool)
    requires Indexes(allowed, declared)
    ensures ok <==> InputAccepted(producers, declared, x)
  {
    if !IsOutputName(x.name) || !IsIdentity(x.contract) || ContractKey(x.contract) !in allowed {
      return false;
    }
    if x.artifactId != "" {
      return !(!HasPrefix(x.artifactId, "art_") || x.fromStep != "" || x.fromOutput != "");
    }
    if x.fromStep == "" || x.fromOutput == "" || Key(x.fromStep, x.fromOutput) !in producers {
      return false;
    }
    return producers[Key(x.fromStep, x.fromOutput)].contract == x.contract;
  }

  function AsSet(s: seq<string>): set<string> {
    set x | x in s
  }

  /** A set of names seen so far. */
  ghost predicate Seen(names: seq<string>, k: nat, seen: set<string>)
    requires k <= |names|
  {
    Distinct(names[..k]) && seen == AsSet(names[..k])
  }

  lemma SeenStep(names: seq<string>, k: nat, seen: set<string>)
    requires k < |names| && Seen(names, k, seen)
    ensures names[k] in seen ==> !Distinct(names)
    ensures names[k] !in seen ==> Seen(names, k + 1, seen + {names[k]})
  {
    assert names[..k + 1] == names[..k] + [names[k]];
    DistinctSnoc(names[..k], names[k]);
    if Distinct(names) {
      assert Distinct(names[..k + 1]);
    }
  }

  lemma DistinctSnoc(ids: seq<string>, id: string)
    requires Distinct(ids)
    ensures Distinct(ids + [id]) <==> id !in ids
  {
    var all := ids + [id];
    if id in ids {
      var k :| 0 <= k < |ids| && ids[k] == id;
      assert all[k] == all[|ids|];
    }
  }

  /** One turn of the input loop. */
  method AddInput(producers: map<string, ArtifactOutput>, declared: seq<Contract>, allowed: set<string>, inputs: seq<ArtifactInput>, k: nat, seen: set<string>)
    returns (ok: bool, seen': set<string>)
    requires Indexes(allowed, declared) && k < |inputs| && Seen(InputNames(inputs), k, seen)
    requires InputsSoFar(producers, declared, inputs, k)
    ensures ok ==> InputsSoFar(producers, declared, inputs, k + 1) && Seen(InputNames(inputs), k + 1, seen')
    ensures !ok ==> !InputsAccepted(producers, declared, inputs)
  {
    SeenStep(InputNames(inputs), k, seen);
    ok := CheckInput(producers, declared, allowed, inputs[k]);
    ok := ok && inputs[k].name !in seen;
    seen' := seen + {inputs[k].name};
  }

  /** The input loop of one step. */
  method CheckInputs(producers: map<string, ArtifactOutput>, declared: seq<Contract>, allowed: set<string>, inputs: seq<ArtifactInput>) returns (ok: bool)
    requires Indexes(allowed, declared)
    ensures ok <==> InputsAccepted(producers, declared, inputs)
  {
    var seen: set<string> := {};
    for k := 0 to |inputs|
      invariant InputsSoFar(producers, declared, inputs, k)
      invariant Seen(InputNames(inputs), k, seen)
    {
      ok, seen := AddInput(producers, declared, allowed, inputs, k, seen);
      if !ok {
        return;
      }
    }
    assert InputNames(inputs)[..|inputs|] == InputNames(inputs);
    return true;
  }

  method CheckOutput(declared: seq<Contract>, allowed: set<string>, x: ArtifactOutput) returns (ok: bool)
    requires Indexes(allowed, declared)
    ensures ok <==> OutputAccepted(declared, x)
  {
    if !IsOutputName(x.name) || !IsIdentity(x.contract) || ContractKey(x.contract) !in allowed || x.mediaType != "application/json" {
      return false;
    }
    ok := ValidatePointer(x.source);
  }

  lemma WithOutputsStep(initial: map<string, ArtifactOutput>, id: string, outputs: seq<ArtifactOutput>, k: nat)
    requires k < |outputs|
    ensures WithOutputs(initial, id, outputs[..k + 1]) == WithOutputs(initial, id, outputs[..k])[Key(id, outputs[k].name) := outputs[k]]
  {
    assert outputs[..k + 1][..k] == outputs[..k];
  }

  /** One turn of the output loop, which also records the producer. */
  method AddOutput(ghost initial: map<string, ArtifactOutput>, id: string, declared: seq<Contract>, allowed: set<string>, outputs: seq<ArtifactOutput>,
                   k: nat, seen: set<string>, producers: map<string, ArtifactOutput>)
    returns (ok: bool, seen': set<string>, producers': map<string, ArtifactOutput>)
    requires Indexes(allowed, declared) && k < |outputs| && Seen(OutputNames(outputs), k, seen)
    requires producers == WithOutputs(initial, id, outputs[..k])
    requires OutputsSoFar(declared, outputs, k)
    ensures ok ==> OutputsSoFar(declared, outputs, k + 1) && Seen(OutputNames(outputs), k + 1, seen') && producers' == WithOutputs(initial, id, outputs[..k + 1])
    ensures !ok ==> !OutputsAccepted(declared, outputs)
  {
    SeenStep(OutputNames(outputs), k, seen);
    WithOutputsStep(initial, id, outputs, k);
    ok := CheckOutput(declared, allowed, outputs[k]);
    ok := ok && outputs[k].name !in seen;
    seen' := seen + {outputs[k].name};
    producers' := producers[Key(id, outputs[k].name) := outputs[k]];
  }

  /** The output loop of one step. */
  method CheckOutputs(initial: map<string, ArtifactOutput>, id: string, declared: seq<Contract>, allowed: set<string>, outputs: seq<ArtifactOutput>)
    returns (ok: bool, producers: map<string, ArtifactOutput>)
    requires Indexes(allowed, declared)
    ensures ok <==> OutputsAccepted(declared, outputs)
    ensures ok ==> producers == WithOutputs(initial, id, outputs)
  {
    producers := initial;
    var seen: set<string> := {};
    for k := 0 to |outputs|
      invariant OutputsSoFar(declared, outputs, k)
      invariant Seen(OutputNames(outputs), k, seen)
      invariant producers == WithOutputs(initial, id, outputs[..k])
    {
      ok, seen, producers := AddOutput(initial, id, declared, allowed, outputs, k, seen, producers);
      if !ok {
        return;
      }
    }
    assert outputs[..|outputs|] == outputs && OutputNames(outputs)[..|outputs|] == OutputNames(outputs);
    return true, producers;
  }

  /** internal/artifacts/contract.go: ValidatePlan. */
  method ValidatePlan(steps: seq<Step>, declaredInputs: seq<Contract>, declaredOutputs: seq<Contract>) returns (ok: bool)
    ensures ok <==> PlanAccepted(steps, declaredInputs, declaredOutputs)
  {
    var allowedInputs, allowedOutputs;
    ok, allowedInputs := ValidateContracts(declaredInputs);
    if !ok {
      return;
    }
    ok, allowedOutputs := ValidateContracts(declaredOutputs);
    if !ok {
      return;
    }
    var producers: map<string, ArtifactOutput> := map[];
    for i := 0 to |steps|
      invariant forall k: nat :: k < i ==> StepAccepted(steps, declaredInputs, declaredOutputs, k)
      invariant producers == Producers(steps, i)
    {
      ok := CheckInputs(producers, declaredInputs, allowedInputs, steps[i].inputs);
      if ok {
        ok, producers := CheckOutputs(producers, steps[i].id, declaredOutputs, allowedOutputs, steps[i].outputs);
      }
      if !ok {
        assert !StepAccepted(steps, declaredInputs, declaredOutputs, i);
        return;
      }
    }
    return true;
  }

  // ---- Execution ----

  /** Executing a step publishes its outputs under the step and output names. */
  function Published(store: map<(string, string), Contract>, id: string, outputs: seq<ArtifactOutput>): map<(string, string), Contract> {
    if outputs == [] then store
    else
      var last := outputs[|outputs| - 1];
      Published(store, id, outputs[..|outputs| - 1])[(id, last.name) := last.contract]
  }

  /** What has been published before step `n` runs. */
  function Executed(steps: seq<Step>, n: nat): map<(string, string), Contract>
    requires n <= |steps|
  {
    if n == 0 then map[] else Published(Executed(steps, n - 1), steps[n - 1].id, steps[n - 1].outputs)
  }

  /** A key and a pair of names stand for each other, with the same contract. */
  predicate SameEntry(producers: map<string, ArtifactOutput>, store: map<(string, string), Contract>, a: string, b: string) {
    && (Key(a, b) in producers <==> (a, b) in store)
    && ((a, b) in store ==> producers[Key(a, b)].contract == store[(a, b)])
  }

  /** The joined keys stand for the pairs of names whose second name holds no NUL. */
  ghost predicate Mirrors(producers: map<string, ArtifactOutput>, store: map<(string, string), Contract>) {
    forall a, b :: NUL !in b ==> SameEntry(producers, store, a, b)
  }

  lemma MirrorsStep(producers: map<string, ArtifactOutput>, store: map<(string, string), Contract>, id: string, x: ArtifactOutput)
    requires Mirrors(producers, store) && NUL !in x.name
    ensures Mirrors(producers[Key(id, x.name) := x], store[(id, x.name) := x.contract])
  {
    var p, s := producers[Key(id, x.name) := x], store[(id, x.name) := x.contract];
    forall a, b | NUL !in b ensures SameEntry(p, s, a, b) {
      assert SameEntry(producers, store, a, b);
      if Key(a, b) == Key(id, x.name) {
        LastNulSeparates(id, x.name, a, b);
      }
    }
  }

  lemma {:induction false} MirrorsOutputs(producers: map<string, ArtifactOutput>, store: map<(string, string), Contract>, id: string, outputs: seq<ArtifactOutput>)
    requires Mirrors(producers, store) && forall k :: 0 <= k < |outputs| ==> IsOutputName(outputs[k].name)
    ensures Mirrors(WithOutputs(producers, id, outputs), Published(store, id, outputs))
  {
    if outputs != [] {
      var n := |outputs| - 1;
      MirrorsOutputs(producers, store, id, outputs[..n]);
      MirrorsStep(WithOutputs(producers, id, outputs[..n]), Published(store, id, outputs[..n]), id, outputs[n]);
    }
  }

  lemma {:induction false} ProducersMirrorExecution(steps: seq<Step>, declaredInputs: seq<Contract>, declaredOutputs: seq<Contract>, n: nat)
    requires PlanAccepted(steps, declaredInputs, declaredOutputs) && n <= |steps|
    ensures Mirrors(Producers(steps, n), Executed(steps, n))
  {
    if n > 0 {
      ProducersMirrorExecution(steps, declaredInputs, declaredOutputs, n - 1);
      assert StepAccepted(steps, declaredInputs, declaredOutputs, n - 1);
      MirrorsOutputs(Producers(steps, n - 1), Executed(steps, n - 1), steps[n - 1].id, steps[n - 1].outputs);
    }
  }

  /** `outputs[k]` is what `Published` holds under (id, b). */
  predicate PublishedAt(outputs: seq<ArtifactOutput>, k: nat, b: string, c: Contract) {
    k < |outputs| && outputs[k].name == b && outputs[k].contract == c
  }

  lemma {:induction false} PublishedBy(store: map<(string, string), Contract>, id: string, outputs: seq<ArtifactOutput>, a: string, b: string)
    requires (a, b) in Published(store, id, outputs)
    ensures || ((a, b) in store && Published(store, id, outputs)[(a, b)] == store[(a, b)])
            || (a == id && exists k: nat :: PublishedAt(outputs, k, b, Published(store, id, outputs)[(a, b)]))
  {
    if outputs != [] {
      var n := |outputs| - 1;
      if (a, b) == (id, outputs[n].name) {
        assert PublishedAt(outputs, n, b, outputs[n].contract);
      } else {
        PublishedBy(store, id, outputs[..n], a, b);
        if k: nat :| a == id && PublishedAt(outputs[..n], k, b, Published(store, id, outputs)[(a, b)]) {
          assert PublishedAt(outputs, k, b, Published(store, id, outputs)[(a, b)]);
        }
      }
    }
  }

  /** Whatever has been published comes from an output of a strictly earlier step. */
  lemma {:induction false} ExecutedBy(steps: seq<Step>, n: nat, a: string, b: string) returns (j: nat, k: nat)
    requires n <= |steps| && (a, b) in Executed(steps, n)
    ensures j < n && steps[j].id == a && PublishedAt(steps[j].outputs, k, b, Executed(steps, n)[(a, b)])
  {
    var last := steps[n - 1];
    PublishedBy(Executed(steps, n - 1), last.id, last.outputs, a, b);
    if q: nat :| last.id == a && PublishedAt(last.outputs, q, b, Executed(steps, n)[(a, b)]) {
      j, k := n - 1, q;
    } else {
      j, k := ExecutedBy(steps, n - 1, a, b);
    }
  }

  /** When step `i` of an accepted plan is due, an internal input has been published, with its
      type and version, exactly if the output name it refers to holds no NUL. */
  lemma InputsAreThere(steps: seq<Step>, declaredInputs: seq<Contract>, declaredOutputs: seq<Contract>, i: nat, k: nat)
    requires PlanAccepted(steps, declaredInputs, declaredOutputs)
    requires i < |steps| && k < |steps[i].inputs| && steps[i].inputs[k].artifactId == ""
    ensures var x, store := steps[i].inputs[k], Executed(steps, i);
      && ((x.fromStep, x.fromOutput) in store <==> NUL !in x.fromOutput)
      && ((x.fromStep, x.fromOutput) in store ==> store[(x.fromStep, x.fromOutput)] == x.contract)
      && x.contract in declaredInputs
  {
    var x, store := steps[i].inputs[k], Executed(steps, i);
    ProducersMirrorExecution(steps, declaredInputs, declaredOutputs, i);
    assert StepAccepted(steps, declaredInputs, declaredOutputs, i);
    assert InputAccepted(Producers(steps, i), declaredInputs, x);
    if (x.fromStep, x.fromOutput) in store {
      var j, o := ExecutedBy(steps, i, x.fromStep, x.fromOutput);
      assert StepAccepted(steps, declaredInputs, declaredOutputs, j);
      assert OutputAccepted(declaredOutputs, steps[j].outputs[o]);
    }
    if NUL !in x.fromOutput {
      assert SameEntry(Producers(steps, i), store, x.fromStep, x.fromOutput);
    }
  }

  // ---- Step identities and resource effects ----

  /** internal/resourceidentity/ledger.go: LedgerID. */
  function LedgerID(provider: string, input: StepInput, externalId: string): Option<string> {
    if provider != "proxmox" then Some(externalId)
    else if input.Decoded? && input.connectionRef.Some? && IsConnection(input.connectionRef.value) && externalId != ""
    then Some(input.connectionRef.value + "/" + externalId) else None
  }

  /** The pattern ^[A-Za-z0-9_-]+$. */
  predicate IsConnection(s: string) {
    s != [] && forall i :: 0 <= i < |s| ==> IsLetter(s[i]) || IsDigit(s[i]) || s[i] == '_' || s[i] == '-'
  }

  /** On one provider, equal ledger identities mean the same connection and the same resource. */
  lemma LedgerIDInjective(provider: string, a: StepInput, x: string, b: StepInput, y: string)
    requires LedgerID(provider, a, x).Some? && LedgerID(provider, a, x) == LedgerID(provider, b, y)
    ensures x == y && (provider == "proxmox" ==> a.Decoded? && b.Decoded? && a.connectionRef == b.connectionRef)
  {
    if provider == "proxmox" {
      var c, d := a.connectionRef.value, b.connectionRef.value;
      var s := c + "/" + x;
      assert s == (c + ['/']) + x && s == (d + ['/']) + y;
      assert '/' !in c && '/' !in d;
      TerminatedFieldUnique(c, d, '/', s);
      assert s[|c| + 1..] == x && s[|d| + 1..] == y;
    }
  }

  predicate EffectAccepted(m: Manifest, step: Step, x: Effect) {
    && m.provider != ""
    && (x.action == "create" || x.action == "delete" || x.action == "update")
    && (x.action == "update" ==> "infrastructure.reconfigure" in m.capabilities)
    && (x.action == "create" ==> "infrastructure.provision" in m.capabilities)
    && (x.action == "delete" ==> "infrastructure.deprovision" in m.capabilities)
    && x.externalId != "" && x.kind != "" && x.name != ""
    && (x.action == "create" ==> LedgerID(m.provider, step.input, x.externalId).Some?)
  }

  /** The ledger identities that the first `n` effects of a step create. */
  function CreatedBy(m: Manifest, step: Step, n: nat): seq<string>
    requires n <= |step.effects|
  {
    if n == 0 then []
    else
      var x := step.effects[n - 1];
      var id := LedgerID(m.provider, step.input, x.externalId);
      CreatedBy(m, step, n - 1) + if x.action == "create" && id.Some? then [id.value] else []
  }

  function Created(m: Manifest, steps: seq<Step>, n: nat): seq<string>
    requires n <= |steps|
  {
    if n == 0 then [] else Created(m, steps, n - 1) + CreatedBy(m, steps[n - 1], |steps[n - 1].effects|)
  }

  predicate IdentityAccepted(steps: seq<Step>, i: nat)
    requires i < |steps|
  {
    && steps[i].id != "" && steps[i].name != "" && steps[i].input.Decoded?
    && forall k :: 0 <= k < i ==> steps[k].id != steps[i].id
  }

  predicate EffectsAccepted(m: Manifest, step: Step) {
    forall k :: 0 <= k < |step.effects| ==> EffectAccepted(m, step, step.effects[k])
  }

  /** What validatePlanEffects accepts. */
  predicate PlanEffectsAccepted(m: Manifest, plan: Plan) {
    && plan.pluginId == m.id && |plan.steps| <= 100
    && (forall i: nat :: i < |plan.steps| ==> IdentityAccepted(plan.steps, i) && EffectsAccepted(m, plan.steps[i]))
    && Distinct(Created(m, plan.steps, |plan.steps|))
  }

  lemma {:induction false} CreatedByPrefix(m: Manifest, step: Step, k: nat, n: nat)
    requires k <= n <= |step.effects|
    ensures CreatedBy(m, step, k) <= CreatedBy(m, step, n)
  {
    if k < n {
      CreatedByPrefix(m, step, k, n - 1);
    }
  }

  lemma DistinctPrefix(a: seq<string>, b: seq<string>)
    requires a <= b && Distinct(b)
    ensures Distinct(a)
  {
  }

  /** One effect of a step: rejected, or recorded. */
  method CheckEffect(m: Manifest, step: Step, k: nat, known: set<string>, ghost before: seq<string>) returns (ok: bool, created: set<string>)
    requires k < |step.effects|
    requires Distinct(before + CreatedBy(m, step, k)) && known == AsSet(before + CreatedBy(m, step, k))
    ensures ok <==> EffectAccepted(m, step, step.effects[k]) && Distinct(before + CreatedBy(m, step, k + 1))
    ensures ok ==> created == AsSet(before + CreatedBy(m, step, k + 1))
  {
    var x := step.effects[k];
    created := known;
    ghost var all := before + CreatedBy(m, step, k);
    if !EffectAccepted(m, step, x) {
      return false, created;
    }
    if x.action != "create" {
      assert CreatedBy(m, step, k + 1) == CreatedBy(m, step, k) + [] == CreatedBy(m, step, k);
      return true, created;
    }
    var id := LedgerID(m.provider, step.input, x.externalId).value;
    DistinctSnoc(all, id);
    assert before + CreatedBy(m, step, k + 1) == all + [id];
    return id !in created, created + {id};
  }

  /** The effect loop of one step. */
  method CheckEffects(m: Manifest, step: Step, initial: set<string>, ghost before: seq<string>) returns (ok: bool, created: set<string>)
    requires Distinct(before) && initial == AsSet(before)
    ensures ok <==> EffectsAccepted(m, step) && Distinct(before + CreatedBy(m, step, |step.effects|))
    ensures ok ==> created == AsSet(before + CreatedBy(m, step, |step.effects|))
  {
    created := initial;
    assert before + [] == before;
    for k := 0 to |step.effects|
      invariant forall j :: 0 <= j < k ==> EffectAccepted(m, step, step.effects[j])
      invariant Distinct(before + CreatedBy(m, step, k)) && created == AsSet(before + CreatedBy(m, step, k))
    {
      ok, created := CheckEffect(m, step, k, created, before);
      if !ok {
        if Distinct(before + CreatedBy(m, step, |step.effects|)) {
          CreatedByPrefix(m, step, k + 1, |step.effects|);
          DistinctPrefix(before + CreatedBy(m, step, k + 1), before + CreatedBy(m, step, |step.effects|));
        }
        return;
      }
    }
    return true, created;
  }

  lemma {:induction false} CreatedPrefix(m: Manifest, steps: seq<Step>, k: nat, n: nat)
    requires k <= n <= |steps|
    ensures Created(m, steps, k) <= Created(m, steps, n)
  {
    if k < n {
      CreatedPrefix(m, steps, k, n - 1);
    }
  }

  ghost predicate StepsSeen(steps: seq<Step>, i: nat, stepIds: set<string>)
    requires i <= |steps|
  {
    forall id :: id in stepIds <==> exists k :: 0 <= k < i && steps[k].id == id
  }

  /** One turn of the step loop. */
  method CheckStep(m: Manifest, steps: seq<Step>, i: nat, stepIds: set<string>, known: set<string>) returns (ok: bool, created: set<string>)
    requires i < |steps| && StepsSeen(steps, i, stepIds)
    requires Distinct(Created(m, steps, i)) && known == AsSet(Created(m, steps, i))
    ensures ok ==> IdentityAccepted(steps, i) && EffectsAccepted(m, steps[i]) && StepsSeen(steps, i + 1, stepIds + {steps[i].id})
    ensures ok ==> Distinct(Created(m, steps, i + 1)) && created == AsSet(Created(m, steps, i + 1))
    ensures !ok ==> !IdentityAccepted(steps, i) || !EffectsAccepted(m, steps[i]) || !Distinct(Created(m, steps, |steps|))
  {
    var step := steps[i];
    if step.id == "" || step.name == "" || step.id in stepIds || step.input.Malformed? {
      return false, known;
    }
    ok, created := CheckEffects(m, step, known, Created(m, steps, i));
    if !ok && Distinct(Created(m, steps, |steps|)) {
      CreatedPrefix(m, steps, i + 1, |steps|);
      DistinctPrefix(Created(m, steps, i + 1), Created(m, steps, |steps|));
    }
  }

  /** internal/api/server.go: validatePlanEffects. */
  method ValidatePlanEffects(m: Manifest, plan: Plan) returns (ok: bool)
    ensures ok <==> PlanEffectsAccepted(m, plan)
  {
    if plan.pluginId != m.id || |plan.steps| > 100 {
      return false;
    }
    var stepIds: set<string> := {};
    var created: set<string> := {};
    for i := 0 to |plan.steps|
      invariant forall k: nat :: k < i ==> IdentityAccepted(plan.steps, k) && EffectsAccepted(m, plan.steps[k])
      invariant StepsSeen(plan.steps, i, stepIds)
      invariant Distinct(Created(m, plan.steps, i)) && created == AsSet(Created(m, plan.steps, i))
    {
      ok, created := CheckStep(m, plan.steps, i, stepIds, created);
      if !ok {
        return;
      }
      stepIds := stepIds + {plan.steps[i].id};
    }
    return true;
  }

  /** Effect `e` of step `i` creates a resource. */
  predicate Creates(plan: Plan, i: nat, e: nat) {
    i < |plan.steps| && e < |plan.steps[i].effects| && plan.steps[i].effects[e].action == "create"
  }

  /** The place of a creation among all creations of the plan. */
  lemma CreationPlace(m: Manifest, plan: Plan, i: nat, e: nat) returns (place: nat)
    requires PlanEffectsAccepted(m, plan) && Creates(plan, i, e)
    ensures place == |Created(m, plan.steps, i)| + |CreatedBy(m, plan.steps[i], e)|
    ensures place < |Created(m, plan.steps, i)| + |CreatedBy(m, plan.steps[i], e + 1)| <= |Created(m, plan.steps, i + 1)| <= |Created(m, plan.steps, |plan.steps|)|
    ensures Some(Created(m, plan.steps, |plan.steps|)[place]) == LedgerID(m.provider, plan.steps[i].input, plan.steps[i].effects[e].externalId)
  {
    var step := plan.steps[i];
    assert EffectsAccepted(m, step) && EffectAccepted(m, step, step.effects[e]);
    place := |Created(m, plan.steps, i)| + |CreatedBy(m, step, e)|;
    CreatedByPrefix(m, step, e + 1, |step.effects|);
    CreatedPrefix(m, plan.steps, i + 1, |plan.steps|);
    var id := LedgerID(m.provider, step.input, step.effects[e].externalId).value;
    assert CreatedBy(m, step, e + 1)[|CreatedBy(m, step, e)|] == id;
    assert CreatedBy(m, step, |step.effects|)[|CreatedBy(m, step, e)|] == id;
    assert Created(m, plan.steps, i + 1)[place] == id;
  }

  /** In an accepted plan no resource is created twice: two creations differ in the resource
      or, on Proxmox, in the connection. */
  lemma CreatedOnce(m: Manifest, plan: Plan, i: nat, e: nat, j: nat, f: nat)
    requires PlanEffectsAccepted(m, plan) && Creates(plan, i, e) && Creates(plan, j, f)
    requires i < j || (i == j && e < f)
    ensures LedgerID(m.provider, plan.steps[i].input, plan.steps[i].effects[e].externalId)
         != LedgerID(m.provider, plan.steps[j].input, plan.steps[j].effects[f].externalId)
  {
    var p := CreationPlace(m, plan, i, e);
    var q := CreationPlace(m, plan, j, f);
    PlacesRise(m, plan, i, e, j, f);
    assert p < q;
  }

  lemma PlacesRise(m: Manifest, plan: Plan, i: nat, e: nat, j: nat, f: nat)
    requires Creates(plan, i, e) && Creates(plan, j, f) && (i < j || (i == j && e < f))
    ensures if i < j then |Created(m, plan.steps, i + 1)| <= |Created(m, plan.steps, j)|
            else |CreatedBy(m, plan.steps[i], e + 1)| <= |CreatedBy(m, plan.steps[i], f)|
  {
    if i < j {
      CreatedPrefix(m, plan.steps, i + 1, j);
    } else {
      CreatedByPrefix(m, plan.steps[i], e + 1, f);
    }
  }

  /** A plan accepted by both checkers: every internal input of a step that names its output
      without a NUL is the output of exactly one step, a strictly earlier one, with the same
      type and version. */
  lemma AcceptedPlanRuns(m: Manifest, plan: Plan, i: nat, k: nat) returns (j: nat, o: nat)
    requires PlanAccepted(plan.steps, m.inputs, m.outputs) && PlanEffectsAccepted(m, plan)
    requires i < |plan.steps| && k < |plan.steps[i].inputs| && plan.steps[i].inputs[k].artifactId == ""
    requires NUL !in plan.steps[i].inputs[k].fromOutput
    ensures var x := plan.steps[i].inputs[k];
      && j < i && plan.steps[j].id == x.fromStep && PublishedAt(plan.steps[j].outputs, o, x.fromOutput, x.contract)
      && (forall l: nat :: l < |plan.steps| && plan.steps[l].id == x.fromStep ==> l == j)
      && x.contract in m.inputs && x.contract in m.outputs
  {
    var x := plan.steps[i].inputs[k];
    InputsAreThere(plan.steps, m.inputs, m.outputs, i, k);
    j, o := ExecutedBy(plan.steps, i, x.fromStep, x.fromOutput);
    forall l: nat | l < |plan.steps| && plan.steps[l].id == x.fromStep ensures l == j {
      assert IdentityAccepted(plan.steps, l) && IdentityAccepted(plan.steps, j);
    }
    assert StepAccepted(plan.steps, m.inputs, m.outputs, j);
    assert OutputAccepted(m.outputs, plan.steps[j].outputs[o]);
  }

  // ---- A reference that misses ----

  const BATCH: Contract := Contract("Batch", "v1")
  const TOOL: Manifest := Manifest("tool", "", {}, [BATCH], [BATCH])

  const PRODUCING: Step := Step("a" + [NUL] + "b", "Produce", Decoded(None), [], [ArtifactOutput("c", BATCH, "application/json", "")], [])
  const CONSUMING: Step := Step("d", "Consume", Decoded(None), [ArtifactInput("batch", BATCH, "", "a", "b" + [NUL] + "c")], [], [])
  const MISSING_REFERENCE: Plan := Plan("tool", [PRODUCING, CONSUMING])

  lemma BatchIsIdentity()
    ensures IsIdentity(BATCH) && ContractsValid([BATCH])
  {
    assert "v1"[..2] == "v1" && "v1"[1..] == "1";
    assert Numbered("v1", "v");
  }

  lemma SharedKey()
    ensures Key("a", "b" + [NUL] + "c") == Key("a" + [NUL] + "b", "c")
  {
    assert Key("a", "b" + [NUL] + "c") == "a" + [NUL] + "b" + [NUL] + "c";
    assert Key("a" + [NUL] + "b", "c") == "a" + [NUL] + "b" + [NUL] + "c";
  }

  lemma MissingReferenceProducers()
    ensures Producers(MISSING_REFERENCE.steps, 0) == map[]
    ensures Producers(MISSING_REFERENCE.steps, 1) == map[Key("a" + [NUL] + "b", "c") := PRODUCING.outputs[0]]
    ensures Executed(MISSING_REFERENCE.steps, 1) == map[("a" + [NUL] + "b", "c") := BATCH]
  {
    var steps, outputs := MISSING_REFERENCE.steps, PRODUCING.outputs;
    assert outputs[..0] == [];
    assert WithOutputs(map[], PRODUCING.id, outputs[..0]) == map[] && Published(map[], PRODUCING.id, outputs[..0]) == map[];
    assert Producers(steps, 0) == map[] && Executed(steps, 0) == map[];
    assert steps[0] == PRODUCING;
  }

  lemma MissingReferenceAccepted()
    ensures PlanAccepted(MISSING_REFERENCE.steps, [BATCH], [BATCH])
  {
    var steps := MISSING_REFERENCE.steps;
    BatchIsIdentity();
    MissingReferenceProducers();
    SharedKey();
    assert OutputAccepted([BATCH], PRODUCING.outputs[0]);
    assert StepAccepted(steps, [BATCH], [BATCH], 0);
    assert InputAccepted(Producers(steps, 1), [BATCH], CONSUMING.inputs[0]);
    assert StepAccepted(steps, [BATCH], [BATCH], 1);
  }

  lemma MissingReferenceEffects()
    ensures PlanEffectsAccepted(TOOL, MISSING_REFERENCE)
  {
    var steps := MISSING_REFERENCE.steps;
    assert CreatedBy(TOOL, PRODUCING, 0) == [] && CreatedBy(TOOL, CONSUMING, 0) == [];
    assert Created(TOOL, steps, 0) == [];
    assert Created(TOOL, steps, 1) == Created(TOOL, steps, 0) + CreatedBy(TOOL, PRODUCING, 0);
    assert Created(TOOL, steps, 2) == Created(TOOL, steps, 1) + CreatedBy(TOOL, CONSUMING, 0);
    assert |PRODUCING.id| == 3 && |CONSUMING.id| == 1;
    assert IdentityAccepted(steps, 0) && IdentityAccepted(steps, 1);
  }

  /** A NUL in a name makes joined keys coincide: both checkers accept a plan whose second
      step refers to an output that is never published. */
  lemma MissingReference()
    ensures PlanAccepted(MISSING_REFERENCE.steps, TOOL.inputs, TOOL.outputs) && PlanEffectsAccepted(TOOL, MISSING_REFERENCE)
    ensures var x := MISSING_REFERENCE.steps[1].inputs[0];
      x.artifactId == "" && (x.fromStep, x.fromOutput) !in Executed(MISSING_REFERENCE.steps, 1)
  {
    MissingReferenceAccepted();
    MissingReferenceProducers();
    MissingReferenceEffects();
    InputsAreThere(MISSING_REFERENCE.steps, [BATCH], [BATCH], 1, 0);
    assert ("b" + [NUL] + "c")[1] == NUL;
  }

  // ---- Acceptance, told by the steps alone ----

  /** Output `k` of step `j`, before step `n`, is recorded under this key. */
  predicate RecordedAt(steps: seq<Step>, n: nat, key: string, j: nat, k: nat) {
    j < n && j < |steps| && k < |steps[j].outputs| && key == steps[j].id + [NUL] + steps[j].outputs[k].name
  }

  /** ...and nothing is recorded under it later. */
  ghost predicate LastRecordedAt(steps: seq<Step>, n: nat, key: string, j: nat, k: nat) {
    RecordedAt(steps, n, key, j, k) && forall i: nat, l: nat :: RecordedAt(steps, n, key, i, l) ==> i < j || (i == j && l <= k)
  }

  lemma {:induction false} OutputsRecorded(producers: map<string, ArtifactOutput>, id: string, outputs: seq<ArtifactOutput>, key: string) returns (k: nat)
    ensures k < |outputs| ==>
              && key == id + [NUL] + outputs[k].name && (forall l :: k < l < |outputs| ==> key != id + [NUL] + outputs[l].name)
              && key in WithOutputs(producers, id, outputs) && WithOutputs(producers, id, outputs)[key] == outputs[k]
    ensures k >= |outputs| ==>
              && (forall l :: 0 <= l < |outputs| ==> key != id + [NUL] + outputs[l].name)
              && (key in WithOutputs(producers, id, outputs) <==> key in producers)
              && (key in producers ==> WithOutputs(producers, id, outputs)[key] == producers[key])
  {
    if outputs == [] {
      k := 0;
    } else {
      var n := |outputs| - 1;
      if key == Key(id, outputs[n].name) {
        k := n;
      } else {
        k := OutputsRecorded(producers, id, outputs[..n], key);
        k := if k < n then k else n + 1;
      }
    }
  }

  /** The producers before step `n` are what the earlier steps recorded, the last one of a key. */
  lemma {:induction false} ProducersExactly(steps: seq<Step>, n: nat, key: string) returns (j: nat, k: nat)
    requires n <= |steps|
    ensures key in Producers(steps, n) ==> LastRecordedAt(steps, n, key, j, k) && Producers(steps, n)[key] == steps[j].outputs[k]
    ensures key !in Producers(steps, n) ==> forall i: nat, l: nat :: !RecordedAt(steps, n, key, i, l)
  {
    if n == 0 {
      j, k := 0, 0;
    } else {
      j, k := ProducersExactly(steps, n - 1, key);
      var l := OutputsRecorded(Producers(steps, n - 1), steps[n - 1].id, steps[n - 1].outputs, key);
      RecordedStep(steps, n, key);
      if l < |steps[n - 1].outputs| {
        j, k := n - 1, l;
      }
    }
  }

  lemma RecordedStep(steps: seq<Step>, n: nat, key: string)
    requires 0 < n <= |steps|
    ensures forall j: nat, k: nat :: RecordedAt(steps, n, key, j, k) <==> RecordedAt(steps, n - 1, key, j, k) || (j == n - 1 && RecordedAt(steps, n, key, n - 1, k))
  {
  }

  /** An internal input is accepted exactly if it is well named and declared, and refers to
      the last output that an earlier step recorded under its key, which has its contract. */
  lemma InternalInputExactly(steps: seq<Step>, declared: seq<Contract>, i: nat, x: ArtifactInput)
    requires i <= |steps| && x.artifactId == ""
    ensures InputAccepted(Producers(steps, i), declared, x) <==>
            && IsOutputName(x.name) && IsIdentity(x.contract) && x.contract in declared && x.fromStep != "" && x.fromOutput != ""
            && exists j: nat, k: nat :: LastRecordedAt(steps, i, x.fromStep + [NUL] + x.fromOutput, j, k) && steps[j].outputs[k].contract == x.contract
  {
    var key := x.fromStep + [NUL] + x.fromOutput;
    assert key == Key(x.fromStep, x.fromOutput);
    var j, k := ProducersExactly(steps, i, key);
    LastRecordedOnce(steps, i, key);
  }

  lemma LastRecordedOnce(steps: seq<Step>, n: nat, key: string)
    ensures forall i: nat, k: nat, j: nat, l: nat :: LastRecordedAt(steps, n, key, i, k) && LastRecordedAt(steps, n, key, j, l) ==> i == j && k == l
  {
  }

  // ---- Creations, told by the effects alone ----

  /** Two creations are of one resource: the same external identity and, on Proxmox, the same
      connection. */
  predicate SameResource(m: Manifest, plan: Plan, i: nat, e: nat, j: nat, f: nat)
    requires Creates(plan, i, e) && Creates(plan, j, f)
  {
    && plan.steps[i].effects[e].externalId == plan.steps[j].effects[f].externalId
    && (m.provider == "proxmox" ==> plan.steps[i].input == plan.steps[j].input)
  }

  predicate InOrder(i: nat, e: nat, j: nat, f: nat) {
    i < j || (i == j && e < f)
  }

  /** No resource is created twice. */
  ghost predicate CreatesOnce(m: Manifest, plan: Plan) {
    forall i: nat, e: nat, j: nat, f: nat :: Creates(plan, i, e) && Creates(plan, j, f) && InOrder(i, e, j, f) ==> !SameResource(m, plan, i, e, j, f)
  }

  lemma {:induction false} CreationInStep(m: Manifest, step: Step, n: nat, place: nat) returns (e: nat)
    requires n <= |step.effects| && place < |CreatedBy(m, step, n)|
    ensures e < n && step.effects[e].action == "create" && LedgerID(m.provider, step.input, step.effects[e].externalId) == Some(CreatedBy(m, step, n)[place])
    ensures place == |CreatedBy(m, step, e)|
  {
    if place < |CreatedBy(m, step, n - 1)| {
      e := CreationInStep(m, step, n - 1, place);
    } else {
      e := n - 1;
    }
  }

  /** Every place among the creations is that of some creation. */
  lemma {:induction false} CreationAt(m: Manifest, plan: Plan, n: nat, place: nat) returns (i: nat, e: nat)
    requires n <= |plan.steps| && place < |Created(m, plan.steps, n)|
    ensures i < n && Creates(plan, i, e)
    ensures LedgerID(m.provider, plan.steps[i].input, plan.steps[i].effects[e].externalId) == Some(Created(m, plan.steps, n)[place])
    ensures place == |Created(m, plan.steps, i)| + |CreatedBy(m, plan.steps[i], e)|
  {
    if place < |Created(m, plan.steps, n - 1)| {
      i, e := CreationAt(m, plan, n - 1, place);
    } else {
      i := n - 1;
      e := CreationInStep(m, plan.steps[i], |plan.steps[i].effects|, place - |Created(m, plan.steps, i)|);
    }
  }

  /** Later places belong to later creations. */
  lemma PlacesInOrder(m: Manifest, plan: Plan, i: nat, e: nat, j: nat, f: nat)
    requires Creates(plan, i, e) && Creates(plan, j, f)
    requires |Created(m, plan.steps, i)| + |CreatedBy(m, plan.steps[i], e)| < |Created(m, plan.steps, j)| + |CreatedBy(m, plan.steps[j], f)|
    ensures InOrder(i, e, j, f)
  {
    if j < i {
      CreatedPrefix(m, plan.steps, j + 1, i);
      CreatedByPrefix(m, plan.steps[j], f, |plan.steps[j].effects|);
    } else if i == j && f <= e {
      CreatedByPrefix(m, plan.steps[i], f, e);
    }
  }

  lemma SameLedgerID(m: Manifest, plan: Plan, i: nat, e: nat, j: nat, f: nat)
    requires Creates(plan, i, e) && Creates(plan, j, f)
    requires LedgerID(m.provider, plan.steps[i].input, plan.steps[i].effects[e].externalId).Some?
    requires LedgerID(m.provider, plan.steps[j].input, plan.steps[j].effects[f].externalId).Some?
    ensures SameResource(m, plan, i, e, j, f) <==>
            LedgerID(m.provider, plan.steps[i].input, plan.steps[i].effects[e].externalId)
            == LedgerID(m.provider, plan.steps[j].input, plan.steps[j].effects[f].externalId)
  {
    var a, b, x, y := plan.steps[i].input, plan.steps[j].input, plan.steps[i].effects[e].externalId, plan.steps[j].effects[f].externalId;
    if LedgerID(m.provider, a, x) == LedgerID(m.provider, b, y) {
      LedgerIDInjective(m.provider, a, x, b, y);
    }
  }

  lemma CreatedOnceIsDistinct(m: Manifest, plan: Plan)
    requires CreatesOnce(m, plan)
    ensures Distinct(Created(m, plan.steps, |plan.steps|))
  {
    var created := Created(m, plan.steps, |plan.steps|);
    forall p: nat, q: nat | p < q < |created| ensures created[p] != created[q] {
      var i, e := CreationAt(m, plan, |plan.steps|, p);
      var j, f := CreationAt(m, plan, |plan.steps|, q);
      PlacesInOrder(m, plan, i, e, j, f);
      SameLedgerID(m, plan, i, e, j, f);
    }
  }

  /** What validatePlanEffects accepts, read off the plan: besides the checks of every single
      step and effect only that no resource is created twice. */
  lemma PlanEffectsExactly(m: Manifest, plan: Plan)
    ensures PlanEffectsAccepted(m, plan) <==>
            && plan.pluginId == m.id && |plan.steps| <= 100
            && (forall i: nat :: i < |plan.steps| ==> IdentityAccepted(plan.steps, i) && EffectsAccepted(m, plan.steps[i]))
            && CreatesOnce(m, plan)
  {
    if CreatesOnce(m, plan) {
      CreatedOnceIsDistinct(m, plan);
    }
    if PlanEffectsAccepted(m, plan) {
      forall i: nat, e: nat, j: nat, f: nat | Creates(plan, i, e) && Creates(plan, j, f) && InOrder(i, e, j, f) ensures !SameResource(m, plan, i, e, j, f) {
        assert EffectsAccepted(m, plan.steps[i]) && EffectsAccepted(m, plan.steps[j]);
        CreatedOnce(m, plan, i, e, j, f);
        SameLedgerID(m, plan, i, e, j, f);
      }
    }
  }
}
