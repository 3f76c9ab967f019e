/** Whole pipeline runs: pausing, stepping, stepping back and starting again. */
module PipelineRuns {
  import opened Wrappers
  import opened Pipeline

  /** Equal but for the execution counter. */
  ghost predicate Same<D>(a: Engine<D>, b: Engine<D>)
  {
    a.(executionId := 0) == b.(executionId := 0)
  }

  function Order(n: nat): seq<Stage>
    requires n <= 5
  {
    seq(n, i requires 0 <= i < n => StageAt(i))
  }

  /** The engine has completed exactly the stages before stage `i`. */
  ghost predicate InStep<D>(e: Engine<D>, i: nat)
  {
    i <= 5 && e.completedStages == Order(i)
  }

  lemma OrderGrows(i: nat)
    requires i < 5
    ensures Order(i) + [StageAt(i)] == Order(i + 1) && StageAt(i) !in Order(i)
  {
  }

  lemma {:induction false} CounterIsIdle<D>(h: Handler<D>, e: Engine<D>, n: nat, i: nat, pauses: nat -> bool)
    ensures Executed(h, e.(executionId := n), i, pauses) == Executed(h, e, i, pauses).(executionId := n)
    decreases 5 - i
  {
    var e' := e.(executionId := n);
    if i < 5 && e.status.Running? {
      if StageAt(i) in e.completedStages {
        CounterIsIdle(h, e, n, i + 1, pauses);
      } else {
        var r := h(StageAt(i), e.currentOutput);
        var next := Received(Entered(e, i, pauses(i)), i, r);
        assert Received(Entered(e', i, pauses(i)), i, r) == next.(executionId := n);
        if r.Returned? && !r.failed {
          CounterIsIdle(h, next, n, i + 1, pauses);
        }
      }
    }
  }

  // ------------------------------------------------------------------ pausing

  /** A running executor at stage `i`: whether and where it is paused, going on
      from there without pauses ends like never having been paused. */
  lemma {:induction false} PauseIsResumable<D>(h: Handler<D>, e: Engine<D>, i: nat, pauses: nat -> bool)
    requires e.status.Running? && InStep(e, i)
    ensures var r := Executed(h, e, i, pauses);
      if r.status.Paused? then
        && r.currentStage.Some? && InStep(r, IndexOf(r.currentStage.value))
        && Executed(h, r.(status := Running), IndexOf(r.currentStage.value), Never) == Executed(h, e, i, Never)
      else r == Executed(h, e, i, Never)
    decreases 5 - i
  {
    if i < 5 {
      OrderGrows(i);
      var res := h(StageAt(i), e.currentOutput);
      if res.Returned? && !res.failed {
        var plain := Received(Entered(e, i, false), i, res);
        if pauses(i) {
          PausedBetween(h, e, i, pauses, res);
        } else {
          PauseIsResumable(h, plain, i + 1, pauses);
        }
      }
    }
  }

  lemma PausedBetween<D>(h: Handler<D>, e: Engine<D>, i: nat, pauses: nat -> bool, res: StageResult<D>)
    requires e.status.Running? && InStep(e, i) && i < 5 && pauses(i)
    requires res == h(StageAt(i), e.currentOutput) && res.Returned? && !res.failed
    ensures var r := Executed(h, e, i, pauses);
      if r.status.Paused? then
        && r.currentStage.Some? && InStep(r, IndexOf(r.currentStage.value))
        && Executed(h, r.(status := Running), IndexOf(r.currentStage.value), Never) == Executed(h, e, i, Never)
      else r == Executed(h, e, i, Never)
  {
    OrderGrows(i);
    var plain := Received(Entered(e, i, false), i, res);
    var paused := Received(Entered(e, i, true), i, res);
    assert paused == plain.(status := Paused);
    assert Executed(h, e, i, Never) == Executed(h, plain, i + 1, Never);
    assert Executed(h, e, i, pauses) == Executed(h, paused, i + 1, pauses);
    if i + 1 < 5 {
      OrderGrows(i + 1);
      var r := paused.(currentStage := Some(StageAt(i + 1)));
      assert Executed(h, paused, i + 1, pauses) == r;
      assert IndexOf(StageAt(i + 1)) == i + 1;
      CurrentStageIsRewritten(h, plain, i + 1, Some(StageAt(i + 1)));
      assert r.(status := Running) == plain.(currentStage := Some(StageAt(i + 1)));
    }
  }

  lemma CurrentStageIsRewritten<D>(h: Handler<D>, e: Engine<D>, i: nat, s: Option<Stage>)
    requires e.status.Running? && InStep(e, i) && i < 5
    ensures Executed(h, e.(currentStage := s), i, Never) == Executed(h, e, i, Never)
  {
    OrderGrows(i);
    assert Entered(e.(currentStage := s), i, false) == Entered(e, i, false);
  }

  /** A paused engine that is resumed, possibly paused again, and so on. */
  function Sessions<D>(h: Handler<D>, e: Engine<D>, schedules: seq<nat -> bool>): Engine<D>
    decreases |schedules|
  {
    if schedules == [] || !e.status.Paused? || e.currentStage.None? then e else
      var r := Executed(h, Resumed(e), IndexOf(e.currentStage.value), schedules[0]);
      Sessions(h, r, schedules[1..])
  }

  lemma {:induction false} SessionsAreTransparent<D>(h: Handler<D>, e: Engine<D>, schedules: seq<nat -> bool>, whole: Engine<D>)
    requires if e.status.Paused? then
        && e.currentStage.Some? && InStep(e, IndexOf(e.currentStage.value))
        && Same(Executed(h, e.(status := Running), IndexOf(e.currentStage.value), Never), whole)
      else Same(e, whole)
    ensures var r := Sessions(h, e, schedules);
      if r.status.Paused? then
        && r.currentStage.Some?
        && Same(Executed(h, Resumed(r), IndexOf(r.currentStage.value), Never), whole)
      else Same(r, whole)
    decreases |schedules|
  {
    if e.status.Paused? {
      var i := IndexOf(e.currentStage.value);
      CounterIsIdle(h, e.(status := Running), e.executionId + 1, i, Never);
      assert Resumed(e) == e.(status := Running).(executionId := e.executionId + 1);
      if schedules != [] {
        var r := Executed(h, Resumed(e), i, schedules[0]);
        PauseIsResumable(h, Resumed(e), i, schedules[0]);
        SessionsAreTransparent(h, r, schedules[1..], whole);
      }
    }
  }

  /** Pausing is transparent: a run of an engine that has completed no stages,
      paused any number of times at any stages and resumed each time, ends with
      the same stages, snapshots, output, errors, warnings and status as the
      uninterrupted run; while it is still paused, resuming it once more without
      a pause ends so. */
  lemma PausingIsTransparent<D>(h: Handler<D>, e: Engine<D>, input: D, first: nat -> bool, schedules: seq<nat -> bool>)
    requires e.completedStages == []
    ensures var r := Sessions(h, Executed(h, Begun(e, input), 0, first), schedules);
      var whole := Executed(h, Begun(e, input), 0, Never);
      if r.status.Paused? then
        && r.currentStage.Some?
        && Same(Executed(h, Resumed(r), IndexOf(r.currentStage.value), Never), whole)
      else Same(r, whole)
  {
    var b := Begun(e, input);
    assert InStep(b, 0);
    PauseIsResumable(h, b, 0, first);
    SessionsAreTransparent(h, Executed(h, b, 0, first), schedules, Executed(h, b, 0, Never));
  }

  // ------------------------------------------------------------- what a run does

  lemma StagesInOrder()
    ensures Order(5) == [Extraction, Normalization, IdentityMatching, GraphBuild, Scheduling]
  {
  }

  /** What stage `i` is given: the input of the run, then each stage's output. */
  function Feed<D>(h: Handler<D>, input: D, i: nat): Option<D>
    requires i <= 5
  {
    if i == 0 then Some(input)
    else var r := h(Order(5)[i - 1], Feed(h, input, i - 1)); if r.Returned? then Some(r.output) else None
  }

  function ResultOf<D>(h: Handler<D>, input: D, i: nat): StageResult<D>
    requires i < 5
  {
    h(Order(5)[i], Feed(h, input, i))
  }

  predicate Good<D>(h: Handler<D>, input: D, i: nat)
    requires i < 5
  {
    ResultOf(h, input, i).Returned? && !ResultOf(h, input, i).failed
  }

  /** Stage `n` is the first that throws or reports failure; 5 if none does. */
  ghost predicate FirstBad<D>(h: Handler<D>, input: D, n: nat)
  {
    n <= 5 && (forall i :: 0 <= i < n ==> Good(h, input, i)) && (n < 5 ==> !Good(h, input, n))
  }

  /** The messages of one kind that the first `n` stages reported. */
  function Reported<D>(h: Handler<D>, input: D, n: nat, errors: bool): seq<Message>
    requires n <= 5
  {
    if n == 0 then [] else
      var r := ResultOf(h, input, n - 1);
      Reported(h, input, n - 1, errors) + (if r.Threw? then [] else Said(Order(5)[n - 1], if errors then r.errors else r.warnings))
  }

  function Said(s: Stage, texts: seq<string>): seq<Message>
  {
    seq(|texts|, k requires 0 <= k < |texts| => Message(s, texts[k]))
  }

  function Outputs<D>(h: Handler<D>, input: D, n: nat): seq<Snapshot<D>>
    requires n <= 5
  {
    if n == 0 then [] else
      var r := ResultOf(h, input, n - 1);
      Outputs(h, input, n - 1) + (if r.Threw? then [] else [Snapshot(Order(5)[n - 1], r.output)])
  }

  /** How a run ends whose first bad stage is `n`: completed if there is none; failed
      at that stage otherwise, with its message if it threw, with its own errors,
      warnings and snapshot if it reported failure, and with nothing of later ones. */
  ghost predicate EndsAt<D>(h: Handler<D>, input: D, n: nat, e: Engine<D>)
    requires n <= 5
  {
    && e.completedStages == Order(5)[..n] && e.currentOutput == Feed(h, input, n) && e.initialInput == Some(input)
    && (if n == 5 then
          && e.status == Completed && e.currentStage == None && e.progress == 100
          && e.snapshots == Outputs(h, input, 5)
          && e.errors == Reported(h, input, 5, true) && e.warnings == Reported(h, input, 5, false)
        else
          var r, s := ResultOf(h, input, n), Order(5)[n];
          && e.status == Failed && e.currentStage == Some(s)
          && (if r.Threw? then
                && e.snapshots == Outputs(h, input, n) && e.progress == 20 * n
                && e.errors == Reported(h, input, n, true) + [Thrown(s, r.message)]
                && e.warnings == Reported(h, input, n, false)
              else
                && e.snapshots == Outputs(h, input, n + 1) && e.progress == 20 * (n + 1)
                && e.errors == Reported(h, input, n + 1, true) && e.warnings == Reported(h, input, n + 1, false)))
  }

  /** An engine that is about to run stage `i`, all before it having been good. */
  ghost predicate Before<D>(h: Handler<D>, input: D, i: nat, e: Engine<D>)
    requires i <= 5
  {
    && e.status.Running? && e.completedStages == Order(i) && e.currentOutput == Feed(h, input, i) && e.initialInput == Some(input)
    && e.snapshots == Outputs(h, input, i)
    && e.errors == Reported(h, input, i, true) && e.warnings == Reported(h, input, i, false)
  }

  lemma TagIsSaid(s: Stage, texts: seq<string>)
    ensures Tag(s, texts) == Said(s, texts)
  {
  }

  lemma OrderPrefix(i: nat)
    requires i <= 5
    ensures Order(5)[..i] == Order(i) && (i < 5 ==> Order(5)[i] == StageAt(i))
  {
  }

  lemma GoodStage<D>(h: Handler<D>, input: D, i: nat, e: Engine<D>)
    requires i < 5 && Before(h, input, i, e) && Good(h, input, i)
    ensures Before(h, input, i + 1, Received(Entered(e, i, false), i, ResultOf(h, input, i)))
  {
    OrderPrefix(i);
    OrderGrows(i);
    TagIsSaid(StageAt(i), ResultOf(h, input, i).errors);
    TagIsSaid(StageAt(i), ResultOf(h, input, i).warnings);
  }

  lemma BadStage<D>(h: Handler<D>, input: D, i: nat, e: Engine<D>)
    requires i < 5 && Before(h, input, i, e) && !Good(h, input, i)
    ensures EndsAt(h, input, i, Received(Entered(e, i, false), i, ResultOf(h, input, i)))
  {
    OrderPrefix(i);
    var r := ResultOf(h, input, i);
    if r.Returned? {
      TagIsSaid(StageAt(i), r.errors);
      TagIsSaid(StageAt(i), r.warnings);
    }
  }

  lemma {:induction false} RunsFrom<D>(h: Handler<D>, input: D, i: nat, n: nat, e: Engine<D>)
    requires i <= n && FirstBad(h, input, n) && Before(h, input, i, e)
    ensures EndsAt(h, input, n, Executed(h, e, i, Never))
    decreases 5 - i
  {
    OrderPrefix(i);
    if i < 5 {
      OrderGrows(i);
      if i < n {
        GoodStage(h, input, i, e);
        RunsFrom(h, input, i + 1, n, Received(Entered(e, i, false), i, ResultOf(h, input, i)));
      } else {
        BadStage(h, input, i, e);
      }
    }
  }

  /** A whole run: each stage is given what the one before it put out, up to the first
      that throws or reports failure. */
  lemma RunMeaning<D>(h: Handler<D>, e: Engine<D>, input: D, n: nat)
    requires e.completedStages == [] && FirstBad(h, input, n)
    ensures EndsAt(h, input, n, Executed(h, Begun(e, input), 0, Never))
  {
    RunsFrom(h, input, |e.completedStages|, n, Begun(e, input));
  }

  // ----------------------------------------------------------------- stepping

  /** What a single step leaves behind, by how the stage comes back: an engine that is
      stuck in RUNNING if there is nothing to run on or the stage throws; one that has
      failed, with the stage counted as completed, if it reports failure; else one
      that rests before the next stage or has completed. */
  ghost predicate StepLeaves<D>(h: Handler<D>, e: Engine<D>, r: Engine<D>, s: Stage)
    requires |e.completedStages| < 5
  {
    var stuck := e.(executionId := e.executionId + 1, status := Running, currentStage := Some(s));
    if e.currentOutput == None || h(s, e.currentOutput).Threw? then r == stuck
    else
      var x, n := h(s, e.currentOutput), |e.completedStages| + 1;
      && r.completedStages == e.completedStages + [s] && r.snapshots == e.snapshots + [Snapshot(s, x.output)]
      && r.currentOutput == Some(x.output) && r.initialInput == e.initialInput && r.executionId == e.executionId + 1
      && Adds(e.errors, r.errors, s, x.errors) && Adds(e.warnings, r.warnings, s, x.warnings)
      && r.progress * 5 == 100 * n
      && r.status == (if x.failed then Failed else if n == 5 then Completed else Idle)
      && r.currentStage == (if x.failed then Some(s) else if n == 5 then None else Some(StageAt(n)))
  }

  /** Behind the old messages come the texts, in order, under the stage's name. */
  ghost predicate Adds(before: seq<Message>, after: seq<Message>, s: Stage, texts: seq<string>)
  {
    && |after| == |before| + |texts| && before <= after
    && forall k :: 0 <= k < |texts| ==> after[|before| + k] == Message(s, texts[k])
  }

  lemma StepMeaning<D>(h: Handler<D>, e: Engine<D>)
    requires e.status in {Idle, Completed} && |e.completedStages| < 5
    ensures StepLeaves(h, e, Stepped(h, e), Order(5)[|e.completedStages|])
  {
  }

  function Steps<D>(h: Handler<D>, e: Engine<D>, n: nat): Engine<D>
    decreases n
  {
    if n == 0 then e else Steps(h, Stepped(h, e), n - 1)
  }

  /** A stepped engine and an executor that have come equally far. */
  ghost predicate Aligned<D>(s: Engine<D>, e: Engine<D>, i: nat)
  {
    && InStep(e, i) && e.status.Running? && e.currentOutput.Some?
    && s.completedStages == e.completedStages && s.snapshots == e.snapshots
    && s.currentOutput == e.currentOutput && s.initialInput == e.initialInput
    && s.errors == e.errors && s.warnings == e.warnings
    && (if i < 5 then s.status.Idle? else s.status.Completed? && s.currentStage.None? && s.progress == 100)
  }

  lemma {:induction false} StepsFollow<D>(h: Handler<D>, s: Engine<D>, e: Engine<D>, i: nat)
    requires Aligned(s, e, i) && Executed(h, e, i, Never).status.Completed?
    ensures Same(Steps(h, s, 5 - i), Executed(h, e, i, Never))
    decreases 5 - i
  {
    if i < 5 {
      OrderGrows(i);
      var r := h(StageAt(i), e.currentOutput);
      assert |s.completedStages| == i;
      var next := Received(Entered(e, i, false), i, r);
      assert Aligned(Stepped(h, s), next, i + 1);
      StepsFollow(h, Stepped(h, s), next, i + 1);
    }
  }

  /** An engine at rest without a trace of an earlier run. */
  ghost predicate Unstarted<D>(e: Engine<D>)
  {
    e.status.Idle? && e.completedStages == [] && e.snapshots == [] && e.errors == [] && e.warnings == []
  }

  /** Stepping through all stages that are not completed yet. */
  function SteppedThrough<D>(h: Handler<D>, e: Engine<D>): Engine<D>
    requires |e.completedStages| <= 5
  {
    Steps(h, e, 5 - |e.completedStages|)
  }

  /** Seeding an unstarted engine and stepping through its stages ends like the run
      that completes. */
  lemma SteppingReachesTheRun<D>(h: Handler<D>, e: Engine<D>, input: D)
    requires Unstarted(e) && Executed(h, Begun(e, input), 0, Never).status.Completed?
    ensures Same(SteppedThrough(h, Seeded(e, input)), Executed(h, Begun(e, input), 0, Never))
  {
    SeededIsAligned(e, input, |e.completedStages|);
    AlignedStepsThrough(h, Seeded(e, input), Begun(e, input), |e.completedStages|);
  }

  lemma AlignedStepsThrough<D>(h: Handler<D>, s: Engine<D>, e: Engine<D>, i: nat)
    requires Aligned(s, e, i) && Executed(h, e, i, Never).status.Completed?
    ensures |s.completedStages| == i && Same(SteppedThrough(h, s), Executed(h, e, i, Never))
  {
    StepsFollow(h, s, e, i);
  }

  lemma SeededIsAligned<D>(e: Engine<D>, input: D, i: nat)
    requires Unstarted(e) && i == |e.completedStages|
    ensures Aligned(Seeded(e, input), Begun(e, input), i)
  {
  }

  /** The current output is the last snapshot's, or the input before the first. */
  ghost predicate Coherent<D>(e: Engine<D>)
  {
    e.currentOutput == if e.snapshots == [] then e.initialInput else Some(e.snapshots[|e.snapshots| - 1].output)
  }

  /** Stepping back undoes a step on stages, snapshots, output and input. */
  lemma PreviousUndoesNext<D>(h: Handler<D>, e: Engine<D>)
    requires Coherent(e) && CanStep(e) && |e.completedStages| < 5 && StepReturns(h, e)
    ensures var b := SteppedBack(Stepped(h, e));
      && b.completedStages == e.completedStages && b.snapshots == e.snapshots
      && b.currentOutput == e.currentOutput && b.initialInput == e.initialInput
  {
    var n := Stepped(h, e);
    assert n.snapshots[..|n.snapshots| - 1] == e.snapshots;
    assert n.completedStages[..|n.completedStages| - 1] == e.completedStages;
  }

  /** Steps in both directions keep the output coherent ... */
  lemma StepsAreCoherent<D>(h: Handler<D>, e: Engine<D>)
    requires Coherent(e)
    ensures Coherent(Stepped(h, e)) && Coherent(SteppedBack(e))
  {
  }

  lemma StageIsCoherent<D>(e: Engine<D>, i: nat, pause: bool, r: StageResult<D>)
    requires i < 5 && r.Returned? && !r.failed
    ensures Coherent(Received(Entered(e, i, pause), i, r))
  {
  }

  /** ... and so does a run of the executor unless a stage reports failure. */
  lemma {:induction false} ExecutedIsCoherent<D>(h: Handler<D>, e: Engine<D>, i: nat, pauses: nat -> bool)
    requires Coherent(e)
    ensures !Executed(h, e, i, pauses).status.Failed? ==> Coherent(Executed(h, e, i, pauses))
    decreases 5 - i
  {
    if i < 5 && e.status.Running? {
      if StageAt(i) in e.completedStages {
        ExecutedIsCoherent(h, e, i + 1, pauses);
      } else {
        var r := h(StageAt(i), e.currentOutput);
        if r.Returned? && !r.failed {
          StageIsCoherent(e, i, pauses(i), r);
          ExecutedIsCoherent(h, Received(Entered(e, i, pauses(i)), i, r), i + 1, pauses);
        }
      }
    }
  }

  // ------------------------------------------------------------ starting again

  /** A run only adds to the completed stages, and takes no snapshot of a stage
      that was completed before. */
  lemma {:induction false} RunAddsStages<D>(h: Handler<D>, e: Engine<D>, i: nat, pauses: nat -> bool, s: Stage)
    ensures e.completedStages <= Executed(h, e, i, pauses).completedStages
    ensures s in e.completedStages && (forall x :: x in e.snapshots ==> x.stage != s) ==>
      forall x :: x in Executed(h, e, i, pauses).snapshots ==> x.stage != s
    decreases 5 - i
  {
    if i < 5 && e.status.Running? {
      if StageAt(i) in e.completedStages {
        RunAddsStages(h, e, i + 1, pauses, s);
      } else {
        var r := h(StageAt(i), e.currentOutput);
        if r.Returned? && !r.failed {
          RunAddsStages(h, Received(Entered(e, i, pauses(i)), i, r), i + 1, pauses, s);
        }
      }
    }
  }

  lemma {:induction false} SnapshotsStay<D>(h: Handler<D>, e: Engine<D>, i: nat, pauses: nat -> bool)
    ensures e.snapshots <= Executed(h, e, i, pauses).snapshots
    decreases 5 - i
  {
    if i < 5 && e.status.Running? {
      if StageAt(i) in e.completedStages {
        SnapshotsStay(h, e, i + 1, pauses);
      } else {
        var r := h(StageAt(i), e.currentOutput);
        if r.Returned? && !r.failed {
          SnapshotsStay(h, Received(Entered(e, i, pauses(i)), i, r), i + 1, pauses);
        }
      }
    }
  }

  /** A fresh run completes stages from the first on, each with its snapshot. */
  lemma FreshRunBeginsAtTheFirst<D>(h: Handler<D>, input: D)
    ensures var r := Executed(h, Begun(Fresh(), input), 0, Never);
      r.completedStages == [] ||
      (r.completedStages[0] == Extraction && r.snapshots != [] && r.snapshots[0].stage == Extraction)
  {
    var b := Begun(Fresh(), input);
    var res := h(StageAt(0), Some(input));
    if res.Returned? && !res.failed {
      var next := Received(Entered(b, 0, false), 0, res);
      RunAddsStages(h, next, 1, Never, Extraction);
      SnapshotsStay(h, next, 1, Never);
      assert next.completedStages == [Extraction] && next.snapshots == [Snapshot(Extraction, res.output)];
    }
  }

  /** Starting does not forget the completed stages of an earlier run, whose work
      is then skipped: a start behaves like one on a fresh engine exactly when the
      engine has no completed stages. */
  lemma StartIsFreshExactly<D>(h: Handler<D>, e: Engine<D>, input: D)
    ensures Same(Executed(h, Begun(e, input), 0, Never), Executed(h, Begun(Fresh(), input), 0, Never))
       <==> e.completedStages == []
  {
    var b, f := Begun(e, input), Begun(Fresh(), input);
    if e.completedStages == [] {
      assert b == f.(executionId := b.executionId);
      CounterIsIdle(h, f, b.executionId, 0, Never);
    } else {
      RunAddsStages(h, b, 0, Never, Extraction);
      FreshRunBeginsAtTheFirst(h, input);
      var r, g := Executed(h, b, 0, Never), Executed(h, f, 0, Never);
      assert r.completedStages[0] == e.completedStages[0];
      if g.snapshots != [] {
        assert g.snapshots[0] in g.snapshots;
      }
    }
  }

  /** After a completed run, starting again executes nothing at all. */
  lemma RestartSkipsEverything<D>(h: Handler<D>, e: Engine<D>, input: D)
    requires e.completedStages == Order(5)
    ensures var r := Executed(h, Begun(e, input), 0, Never);
      r.status.Completed? && r.snapshots == [] && r.currentOutput == Some(input)
  {
    var b := Begun(e, input);
    forall i: nat | i < 5 ensures StageAt(i) in b.completedStages {
      assert Order(5)[i] == StageAt(i);
    }
    assert Executed(h, b, 0, Never) == Executed(h, b, 1, Never) == Executed(h, b, 2, Never);
    assert Executed(h, b, 2, Never) == Executed(h, b, 3, Never) == Executed(h, b, 4, Never) == Finished(b);
  }
}
