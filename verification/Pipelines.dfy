/** The pipeline records of internal/domain: definitions, stages and the run
    stages the worker keeps beside them. */
module Pipelines {
  import opened Text

  datatype Status =
    | Pending
    | Queued
    | Prechecking
    | Running
    | Verifying
    | Succeeded
    | Failed
    | Canceled

  predicate Terminal(status: Status) {
    status == Succeeded || status == Failed || status == Canceled
  }

  /** Where a machines stage places its virtual machines. */
  datatype Placement = Placement(connectionRef: string, node: string, machineNodes: seq<string>)

  /** A stage spec, represented by what the code decodes from its JSON text: the
      machine placement, the source operation of a cleanup, and the rest. An
      undecodable spec has neither of the first two. */
  datatype Spec = Spec(placement: Option<Placement>, sourceOperationId: Option<string>, fields: map<string, string>)

  datatype Binding = Binding(path: string, fromStage: string, fromOutput: string)

  datatype Stage = Stage(
    id: string,
    pluginId: string,
    title: string,
    spec: Spec,
    dependsOn: seq<string>,
    bindings: seq<Binding>)

  /** The artifact a pipeline yields: of a stage, by output name or by contract. */
  datatype Output = Output(stage: string, output: string, artifactType: string, version: string)

  datatype Definition = Definition(maxParallelStages: int, stages: seq<Stage>, result: Output)

  datatype RunStage = RunStage(stageId: string, title: string, status: Status, operationId: string)

  /** The stages of one cluster, in order. */
  const PHASES: seq<string> := ["machines", "kubernetes", "storage", "observability", "platform"]

  function StageIds(stages: seq<Stage>): (ids: seq<string>)
    ensures |ids| == |stages|
    ensures forall i :: 0 <= i < |stages| ==> ids[i] == stages[i].id
  {
    seq(|stages|, i requires 0 <= i < |stages| => stages[i].id)
  }

  /** The stage named `id` occurs strictly before position `i`. */
  predicate DeclaredBefore(stages: seq<Stage>, i: int, id: string) {
    exists j :: 0 <= j < i && j < |stages| && stages[j].id == id
  }

  /** Every control dependency and artifact input of stage `i` names an earlier stage. */
  predicate BackwardEdgesAt(stages: seq<Stage>, i: int)
    requires 0 <= i < |stages|
  {
    && (forall d :: d in stages[i].dependsOn ==> DeclaredBefore(stages, i, d))
    && (forall b :: b in stages[i].bindings ==> DeclaredBefore(stages, i, b.fromStage))
  }

  predicate BackwardEdges(stages: seq<Stage>) {
    forall i :: 0 <= i < |stages| ==> BackwardEdgesAt(stages, i)
  }
}
