/**
 The stage pipeline of `ex2/nexus_pipeline.py`: an append-only list of
 stages whose `process` threads its input through every stage in
 registration order, the three concrete stages, the format adapters that
 run the inherited fold, and the manager that dispatches to them.
 */
module Pipelines {

  /**
   A stage: anything with an `execute` method. The three stages the module
   defines are named; `Custom` stands for any other object whose `execute`
   maps data of type `T` to data of type `T`.
   */
  datatype Stage<!T> = InputStage | TransformStage | OutputStage | Custom(run: T -> T)

  /** The stages the module itself defines, as opposed to a caller's own. */
  predicate IsBuiltIn<T>(stage: Stage<T>) {
    !stage.Custom?
  }

  /** `stage.execute(data)`: the built-in stages return their input. */
  function Execute<T>(stage: Stage<T>, data: T): (r: T)
    ensures IsBuiltIn(stage) ==> r == data
  {
    match stage
    case InputStage => data
    case TransformStage => data
    case OutputStage => data
    case Custom(run) => run(data)
  }

  /** A `ProcessingPipeline`: its stages in the order they were added. */
  datatype ProcessingPipeline<!T> = ProcessingPipeline(stages: seq<Stage<T>>)

  /** A freshly constructed pipeline. */
  function NewPipeline<T>(): (p: ProcessingPipeline<T>)
    ensures |p.stages| == 0
  {
    ProcessingPipeline([])
  }

  /** `add_stage`: appends; the earlier stages stay, in their order. */
  function AddStage<T>(p: ProcessingPipeline<T>, stage: Stage<T>): (q: ProcessingPipeline<T>)
    ensures |q.stages| == |p.stages| + 1
    ensures q.stages[..|p.stages|] == p.stages
    ensures q.stages[|p.stages|] == stage
  {
    ProcessingPipeline(p.stages + [stage])
  }

  /** Runs `stages` on `data`, first stage first, each on the previous one's output. */
  function Fold<T>(stages: seq<Stage<T>>, data: T): T
    decreases |stages|
  {
    if stages == [] then data else Fold(stages[1..], Execute(stages[0], data))
  }

  /** `process`: the left fold of `execute` over the stages. */
  function Process<T>(p: ProcessingPipeline<T>, data: T): T {
    Fold(p.stages, data)
  }

  /** One stage execution: the stage, what it was given and what it returned. */
  datatype Step<!T> = Step(stage: Stage<T>, input: T, output: T)

  /** The stage executions `process` performs, in order. */
  function Trace<T>(stages: seq<Stage<T>>, data: T): seq<Step<T>>
    decreases |stages|
  {
    if stages == [] then []
    else
      var out := Execute(stages[0], data);
      [Step(stages[0], data, out)] + Trace(stages[1..], out)
  }

  /**
   The `for` loop of `process`: the result starts as the input and each
   stage in turn replaces it by its own output.
   */
  method RunStages<T>(p: ProcessingPipeline<T>, data: T) returns (result: T)
    ensures result == Process(p, data)
  {
    result := data;
    for i := 0 to |p.stages|
      invariant result == Fold(p.stages[..i], data)
    {
      FoldAppend(p.stages[..i], [p.stages[i]], data);
      assert p.stages[..i + 1] == p.stages[..i] + [p.stages[i]];
      result := Execute(p.stages[i], result);
    }
    assert p.stages[..|p.stages|] == p.stages;
  }

  // ---------------------------------------------------------------------------
  // Laws of the fold
  // ---------------------------------------------------------------------------

  /** Running `a + b` is running `a`, then running `b` on its result. */
  lemma {:induction false} FoldAppend<T>(a: seq<Stage<T>>, b: seq<Stage<T>>, data: T)
    ensures Fold(a + b, data) == Fold(b, Fold(a, data))
    decreases |a|
  {
    if a == [] {
      assert a + b == b;
    } else {
      FoldAppend(a[1..], b, Execute(a[0], data));
      assert (a + b)[1..] == a[1..] + b;
    }
  }

  /** A pipeline with no stages returns its input. */
  lemma ProcessEmpty<T>(data: T)
    ensures Process(NewPipeline<T>(), data) == data
  {
  }

  /** Adding a stage composes exactly one more step after the existing ones. */
  lemma ProcessAddStage<T>(p: ProcessingPipeline<T>, stage: Stage<T>, data: T)
    ensures Process(AddStage(p, stage), data) == Execute(stage, Process(p, data))
  {
    FoldAppend(p.stages, [stage], data);
  }

  /**
   Since each built-in stage is the identity, a pipeline built from them
   alone is the identity too, whatever its length.
   */
  lemma {:induction false} ProcessIsIdentity<T>(p: ProcessingPipeline<T>, data: T)
    requires forall i :: 0 <= i < |p.stages| ==> IsBuiltIn(p.stages[i])
    ensures Process(p, data) == data
    decreases |p.stages|
  {
    if p.stages != [] {
      ProcessIsIdentity(ProcessingPipeline(p.stages[1..]), data);
    }
  }

  /** A pipeline of one caller-supplied stage computes that stage's function. */
  lemma ProcessCustom<T>(f: T -> T, data: T)
    ensures Process(AddStage(NewPipeline(), Custom(f)), data) == f(data)
  {
    ProcessAddStage(NewPipeline(), Custom(f), data);
  }

  /**
   `process` executes every stage once, in registration order, handing each
   stage the previous stage's output; the last output is the result.
   */
  lemma {:induction false} TraceFollowsStages<T>(stages: seq<Stage<T>>, data: T)
    ensures |Trace(stages, data)| == |stages|
    ensures forall i :: 0 <= i < |stages| ==> Trace(stages, data)[i].stage == stages[i]
    ensures forall i :: 0 <= i < |stages| ==>
      Trace(stages, data)[i].output == Execute(stages[i], Trace(stages, data)[i].input)
    ensures stages != [] ==> Trace(stages, data)[0].input == data
    ensures forall i :: 0 < i < |stages| ==> Trace(stages, data)[i].input == Trace(stages, data)[i - 1].output
    ensures stages != [] ==> Trace(stages, data)[|stages| - 1].output == Fold(stages, data)
    decreases |stages|
  {
    if stages != [] {
      var out := Execute(stages[0], data);
      TraceFollowsStages(stages[1..], out);
      var t := Trace(stages, data);
      assert t[1..] == Trace(stages[1..], out);
    }
  }

  /** The executions of `a + b` are those of `a`, then those of `b` on `a`'s result. */
  lemma {:induction false} TraceAppend<T>(a: seq<Stage<T>>, b: seq<Stage<T>>, data: T)
    ensures Trace(a + b, data) == Trace(a, data) + Trace(b, Fold(a, data))
    decreases |a|
  {
    if a == [] {
      assert a + b == b;
    } else {
      var out := Execute(a[0], data);
      assert (a + b)[0] == a[0];
      assert (a + b)[1..] == a[1..] + b;
      TraceAppend(a[1..], b, out);
      assert Trace(a + b, data) == [Step(a[0], data, out)] + Trace(a[1..] + b, out);
    }
  }

  // ---------------------------------------------------------------------------
  // Adapters and the manager
  // ---------------------------------------------------------------------------

  /** The data shape an adapter is for: `JSONAdapter`, `CSVAdapter`, `StreamAdapter`. */
  datatype AdapterKind = Json | Csv | Streaming

  /** An adapter is a pipeline with an id. */
  datatype Adapter<!T> = Adapter(kind: AdapterKind, pipelineId: string, pipeline: ProcessingPipeline<T>)

  /** A freshly constructed adapter: through the base constructor, no stages. */
  function NewAdapter<T>(kind: AdapterKind, pipelineId: string): (a: Adapter<T>)
    ensures a.kind == kind && a.pipelineId == pipelineId
    ensures |a.pipeline.stages| == 0
  {
    Adapter(kind, pipelineId, NewPipeline())
  }

  /** The inherited `add_stage` on an adapter: its kind and id stay. */
  function AdapterAddStage<T>(a: Adapter<T>, stage: Stage<T>): (b: Adapter<T>)
    ensures b.kind == a.kind && b.pipelineId == a.pipelineId
    ensures b.pipeline.stages == a.pipeline.stages + [stage]
  {
    a.(pipeline := AddStage(a.pipeline, stage))
  }

  /**
   An adapter's `process`: it runs the inherited fold over its stages and
   returns nothing; what remains is the stage executions it caused.
   */
  function AdapterProcess<T>(a: Adapter<T>, data: T): seq<Step<T>> {
    Trace(a.pipeline.stages, data)
  }

  /**
   A stage added to an adapter runs once more, after all earlier ones, on
   the result the adapter's stages computed before it was added.
   */
  lemma AdapterProcessAddStage<T>(a: Adapter<T>, stage: Stage<T>, data: T)
    ensures var before := Process(a.pipeline, data);
      AdapterProcess(AdapterAddStage(a, stage), data)
        == AdapterProcess(a, data) + [Step(stage, before, Execute(stage, before))]
  {
    TraceAppend(a.pipeline.stages, [stage], data);
  }

  /** What `NexusManager.run` can be given. */
  datatype Target<!T> = Plain(pipeline: ProcessingPipeline<T>) | Adapted(adapter: Adapter<T>)

  /** The stages `target.process(data)` executes. */
  function Stages<T>(target: Target<T>): seq<Stage<T>> {
    match target
    case Plain(p) => p.stages
    case Adapted(a) => a.pipeline.stages
  }

  /**
   `NexusManager.run(target, data)`: calls `target.process(data)` and
   returns nothing, so its whole effect is that call's stage executions.
   */
  function Run<T>(target: Target<T>, data: T): (steps: seq<Step<T>>)
    ensures |steps| == |Stages(target)|
    ensures forall i :: 0 <= i < |steps| ==> steps[i].stage == Stages(target)[i]
    ensures forall i :: 0 <= i < |steps| ==> steps[i].output == Execute(steps[i].stage, steps[i].input)
    ensures steps != [] ==> steps[0].input == data
    ensures forall i :: 0 < i < |steps| ==> steps[i].input == steps[i - 1].output
    ensures target.Adapted? ==> steps == AdapterProcess(target.adapter, data)
    ensures target.Plain? && steps != [] ==> steps[|steps| - 1].output == Process(target.pipeline, data)
  {
    TraceFollowsStages(Stages(target), data);
    Trace(Stages(target), data)
  }
}
