/** The pipeline engine: an executor that runs the stages in order and can be
    paused while it awaits a stage, and the stepwise alternative. */
module Pipeline {
  import opened Wrappers

  datatype Stage = Extraction | Normalization | IdentityMatching | GraphBuild | Scheduling

  /** The stages in the order in which they run. */
  function StageAt(i: nat): Stage
    requires i < 5
  {
    if i == 0 then Extraction else if i == 1 then Normalization else if i == 2 then IdentityMatching
    else if i == 3 then GraphBuild else Scheduling
  }

  function IndexOf(s: Stage): (i: nat)
    ensures i < 5 && StageAt(i) == s
  {
    match s
    case Extraction => 0
    case Normalization => 1
    case IdentityMatching => 2
    case GraphBuild => 3
    case Scheduling => 4
  }

  datatype Status = Idle | Running | Paused | Completed | Failed

  /** What a stage handler comes back with; a timeout is one way to throw. */
  datatype StageResult<D> =
    | Threw(message: string)
    | Returned(failed: bool, output: D, errors: seq<string>, warnings: seq<string>)

  /** A handler is given the output so far, which is missing if the engine was
      neither started nor seeded. */
  type Handler<!D> = (Stage, Option<D>) -> StageResult<D>

  datatype Snapshot<D> = Snapshot(stage: Stage, output: D)

  /** What a stage reported, or with what it threw. */
  datatype Message = Message(stage: Stage, text: string) | Thrown(stage: Stage, text: string)

  /** The engine's fields. */
  datatype Engine<D> = Engine(
    status: Status, currentStage: Option<Stage>, completedStages: seq<Stage>, progress: nat,
    errors: seq<Message>, warnings: seq<Message>,
    snapshots: seq<Snapshot<D>>, currentOutput: Option<D>, initialInput: Option<D>, executionId: nat)

  function Fresh<D>(): Engine<D>
  {
    Engine(Idle, None, [], 0, [], [], [], None, None, 0)
  }

  function Tag(s: Stage, texts: seq<string>): seq<Message>
  {
    seq(|texts|, i requires 0 <= i < |texts| => Message(s, texts[i]))
  }

  // ------------------------------------------------------------- the executor

  function Finished<D>(e: Engine<D>): Engine<D>
  {
    e.(status := Completed, currentStage := None, progress := 100)
  }

  /** Entering stage `i`; a pause that arrives while the stage is awaited shows in
      the status when the stage comes back. */
  function Entered<D>(e: Engine<D>, i: nat, pause: bool): Engine<D>
    requires i < 5
  {
    e.(currentStage := Some(StageAt(i)), progress := 20 * i, status := if pause then Paused else e.status)
  }

  /** The engine after stage `i` came back with a result. */
  function Received<D>(e: Engine<D>, i: nat, r: StageResult<D>): Engine<D>
    requires i < 5
  {
    var s := StageAt(i);
    match r
    case Threw(message) =>
      e.(status := Failed, errors := e.errors + [Thrown(s, message)], currentStage := Some(s))
    case Returned(failed, output, errors, warnings) =>
      var noted := e.(snapshots := e.snapshots + [Snapshot(s, output)],
                      errors := e.errors + Tag(s, errors), warnings := e.warnings + Tag(s, warnings));
      if failed then noted.(status := Failed, currentStage := Some(s), progress := 20 * (i + 1))
      else noted.(completedStages := e.completedStages + [s], currentOutput := Some(output))
  }

  /** The executor from stage `i` on, when a pause arrives during each stage that
      `pauses` names. */
  function Executed<D>(h: Handler<D>, e: Engine<D>, i: nat, pauses: nat -> bool): Engine<D>
    decreases 5 - i
  {
    if i >= 5 then Finished(e)
    else if e.status.Paused? then e.(currentStage := Some(StageAt(i)))
    else if !e.status.Running? then Finished(e)
    else if StageAt(i) in e.completedStages then Executed(h, e, i + 1, pauses)
    else
      var r := h(StageAt(i), e.currentOutput);
      var next := Received(Entered(e, i, pauses(i)), i, r);
      if r.Threw? || r.failed then next else Executed(h, next, i + 1, pauses)
  }

  function Never(i: nat): bool { false }

  /** The state in which `start` hands over to the executor. */
  function Begun<D>(e: Engine<D>, input: D): Engine<D>
  {
    e.(status := Running, currentStage := Some(Extraction), progress := 0, errors := [], warnings := [], snapshots := [],
       initialInput := Some(input), currentOutput := Some(input), executionId := e.executionId + 1)
  }

  function Resumed<D>(e: Engine<D>): Engine<D>
  {
    e.(status := Running, executionId := e.executionId + 1)
  }

  datatype Answer<T> = Ok(value: T) | Error(message: string)

  class PipelineEngine<!D> {
    const handler: Handler<D>
    var run: Engine<D>

    constructor (handler: Handler<D>)
      ensures this.handler == handler && run == Fresh()
    {
      this.handler := handler;
      run := Fresh();
    }

    method ExecuteRemainingStages(fromIndex: nat, pauses: nat -> bool)
      requires fromIndex < 5
      modifies this`run
      ensures run == Executed(handler, old(run), fromIndex, pauses)
    {
      var i := fromIndex;
      while i < 5
        invariant i <= 5
        invariant Executed(handler, run, i, pauses) == Executed(handler, old(run), fromIndex, pauses)
        decreases 5 - i
      {
        if run.status.Paused? {
          run := run.(currentStage := Some(StageAt(i)));
          return;
        }
        if !run.status.Running? {
          break;
        }
        var stage := StageAt(i);
        if stage in run.completedStages {
          i := i + 1;
          continue;
        }
        run := run.(currentStage := Some(stage), progress := 20 * i);
        var input := run.currentOutput;
        if pauses(i) {
          var _ := Pause();
        }
        var result := handler(stage, input);
        if result.Threw? {
          run := run.(status := Failed, errors := run.errors + [Thrown(stage, result.message)], currentStage := Some(stage));
          return;
        }
        run := run.(snapshots := run.snapshots + [Snapshot(stage, result.output)],
                    errors := run.errors + Tag(stage, result.errors), warnings := run.warnings + Tag(stage, result.warnings));
        if result.failed {
          run := run.(status := Failed, currentStage := Some(stage), progress := 20 * (i + 1));
          return;
        }
        run := run.(completedStages := run.completedStages + [stage], currentOutput := Some(result.output));
        i := i + 1;
      }
      run := run.(status := Completed, currentStage := None, progress := 100);
    }

    method Start(input: D, pauses: nat -> bool) returns (answer: Answer<Engine<D>>)
      modifies this`run
      ensures answer.Error? <==> old(run).status.Running?
      ensures answer.Error? ==> run == old(run)
      ensures answer.Ok? ==> answer.value == run == Executed(handler, Begun(old(run), input), 0, pauses)
    {
      if run.status.Running? {
        return Error("Pipeline is already running");
      }
      run := run.(executionId := run.executionId + 1, status := Running, currentStage := Some(StageAt(0)), progress := 0,
                  errors := [], warnings := [], snapshots := [], initialInput := Some(input), currentOutput := Some(input));
      assert run == Begun(old(run), input);
      ExecuteRemainingStages(0, pauses);
      return Ok(run);
    }

    method Pause() returns (answer: Answer<Engine<D>>)
      modifies this`run
      ensures answer.Error? <==> !old(run).status.Running?
      ensures run == if old(run).status.Running? then old(run).(status := Paused) else old(run)
    {
      if !run.status.Running? {
        return Error("Can only pause a running pipeline");
      }
      run := run.(status := Paused);
      return Ok(run);
    }

    /** Resumes once the executor that saw the pause has returned. */
    method Resume(pauses: nat -> bool) returns (answer: Answer<Engine<D>>)
      modifies this`run
      ensures answer.Error? <==> !old(run).status.Paused? || old(run).currentStage.None?
      ensures answer.Error? ==> run == old(run)
      ensures answer.Ok? ==>
        answer.value == run == Executed(handler, Resumed(old(run)), IndexOf(old(run).currentStage.value), pauses)
    {
      if !run.status.Paused? {
        return Error("Can only resume a paused pipeline");
      }
      if run.currentStage.None? {
        return Error("No stage to resume from");
      }
      run := run.(executionId := run.executionId + 1, status := Running);
      assert run == Resumed(old(run));
      ExecuteRemainingStages(IndexOf(run.currentStage.value), pauses);
      return Ok(run);
    }

    method Seed(input: D)
      modifies this`run
      ensures run == Seeded(old(run), input)
    {
      run := run.(initialInput := Some(input), currentOutput := Some(input));
    }

    /** Runs the next stage alone; errors leave the engine as they find it, which
        is RUNNING once the stage has been entered. */
    method NextStage() returns (answer: Answer<Option<Snapshot<D>>>)
      modifies this`run
      ensures run == Stepped(handler, old(run))
      ensures answer.Ok? <==> CanStep(old(run)) && (|old(run).completedStages| < 5 ==> StepReturns(handler, old(run)))
      ensures !(old(run).status in {Idle, Completed}) || |old(run).completedStages| >= 5 ==> run == old(run)
      ensures answer.Ok? && |old(run).completedStages| >= 5 ==> answer.value == None
      ensures answer.Ok? && |old(run).completedStages| < 5 ==> run.snapshots != [] && answer.value == Some(run.snapshots[|run.snapshots| - 1])
    {
      if !run.status.Idle? && !run.status.Completed? {
        return Error("nextStage requires IDLE or COMPLETED status");
      }
      var startIndex := |run.completedStages|;
      if startIndex >= 5 {
        return Ok(None);
      }
      var stage := StageAt(startIndex);
      run := run.(executionId := run.executionId + 1, status := Running, currentStage := Some(stage));
      if run.currentOutput.None? {
        return Error("No data seeded. Call seed() or start() first.");
      }
      var result := handler(stage, run.currentOutput);
      if result.Threw? {
        return Error(result.message);
      }
      run := run.(snapshots := run.snapshots + [Snapshot(stage, result.output)],
                  completedStages := run.completedStages + [stage], currentOutput := Some(result.output));
      run := run.(errors := run.errors + Tag(stage, result.errors), warnings := run.warnings + Tag(stage, result.warnings));
      if result.failed {
        run := run.(status := Failed);
      } else if |run.completedStages| >= 5 {
        run := run.(status := Completed, currentStage := None);
      } else {
        run := run.(status := Idle, currentStage := Some(StageAt(startIndex + 1)));
      }
      run := run.(progress := 20 * |run.completedStages|);
      return Ok(Some(run.snapshots[|run.snapshots| - 1]));
    }

    method PreviousStage() returns (snapshot: Option<Snapshot<D>>)
      modifies this`run
      ensures run == SteppedBack(old(run))
      ensures snapshot ==
        if |old(run).completedStages| == 0 || run.snapshots == [] then None else Some(run.snapshots[|run.snapshots| - 1])
    {
      if |run.completedStages| == 0 {
        return None;
      }
      var snapshots := if run.snapshots == [] then [] else run.snapshots[..|run.snapshots| - 1];
      var prevStage := run.completedStages[|run.completedStages| - 1];
      run := run.(snapshots := snapshots, completedStages := run.completedStages[..|run.completedStages| - 1]);
      run := run.(currentOutput := if |snapshots| > 0 then Some(snapshots[|snapshots| - 1].output) else run.initialInput);
      run := run.(currentStage := Some(prevStage), progress := 20 * |run.completedStages|, status := Idle);
      return if |snapshots| > 0 then Some(snapshots[|snapshots| - 1]) else None;
    }

    method Reset()
      modifies this`run
      ensures run == Fresh()
    {
      run := Fresh();
    }

    method Replay(pauses: nat -> bool) returns (answer: Answer<Engine<D>>)
      modifies this`run
      ensures answer.Error? <==> old(run).completedStages == [] || old(run).initialInput.None?
      ensures answer.Error? ==> run == old(run)
      ensures answer.Ok? ==> answer.value == run == Executed(handler, Begun(Fresh(), old(run).initialInput.value), 0, pauses)
    {
      if run.completedStages == [] {
        return Error("No completed stages to replay");
      }
      if run.initialInput.None? {
        return Error("No initial data to replay from");
      }
      var initialInput := run.initialInput.value;
      Reset();
      answer := Start(initialInput, pauses);
    }
  }

  // ------------------------------------------------------------- stepwise runs

  function Seeded<D>(e: Engine<D>, input: D): Engine<D>
  {
    e.(initialInput := Some(input), currentOutput := Some(input))
  }

  predicate CanStep<D>(e: Engine<D>) { e.status.Idle? || e.status.Completed? }

  predicate StepReturns<D>(h: Handler<D>, e: Engine<D>)
    requires |e.completedStages| < 5
  {
    e.currentOutput.Some? && h(StageAt(|e.completedStages|), e.currentOutput).Returned?
  }

  function Stepped<D>(h: Handler<D>, e: Engine<D>): Engine<D>
  {
    if !CanStep(e) || |e.completedStages| >= 5 then e else
      var i := |e.completedStages|;
      var s := StageAt(i);
      var running := e.(executionId := e.executionId + 1, status := Running, currentStage := Some(s));
      if !StepReturns(h, e) then running else
        var r := h(s, e.currentOutput);
        running.(snapshots := e.snapshots + [Snapshot(s, r.output)], completedStages := e.completedStages + [s],
                 currentOutput := Some(r.output),
                 errors := e.errors + Tag(s, r.errors), warnings := e.warnings + Tag(s, r.warnings),
                 status := if r.failed then Failed else if i == 4 then Completed else Idle,
                 currentStage := if r.failed then Some(s) else if i == 4 then None else Some(StageAt(i + 1)),
                 progress := 20 * (i + 1))
  }

  function SteppedBack<D>(e: Engine<D>): Engine<D>
  {
    if e.completedStages == [] then e else
      var k := |e.completedStages| - 1;
      var snapshots := if e.snapshots == [] then [] else e.snapshots[..|e.snapshots| - 1];
      e.(snapshots := snapshots, completedStages := e.completedStages[..k],
         currentOutput := if snapshots != [] then Some(snapshots[|snapshots| - 1].output) else e.initialInput,
         currentStage := Some(e.completedStages[k]), progress := 20 * k, status := Idle)
  }
}
