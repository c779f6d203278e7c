// The fail-fast, sequential view-generation run (App.tsx, handleGenerate),
// stated as values: what the image model answers, the snapshot of the step
// list after each update, and the whole sequence of snapshots a run publishes.
// The class in app.dfy runs the loop; this module says what it must produce.

module Pipeline {
  import opened Types
  import opened StepStore

  /** What a failing call throws: an `Error` object with its message, or any other value. */
  datatype Thrown = ErrorObject(message: string) | OtherValue

  /**
   * One answer of the image model (generateImageView): the base64 payload of
   * the generated image, or what the call threw.  The model itself is not
   * modelled; a run is driven by a script of answers, one per step.
   */
  datatype CallResult = Generated(base64: string) | Threw(thrown: Thrown)

  const DataUrlPrefix: string := "data:image/png;base64,"
  const UnknownErrorMessage: string := "An unknown error occurred."

  /** The image reference a completed step gets: a PNG data URL. */
  function DataUrl(base64: string): string
  {
    DataUrlPrefix + base64
  }

  /** The message recorded for a failure: the Error's own message, or a fixed text. */
  function ErrorMessage(thrown: Thrown): string
  {
    match thrown
    case ErrorObject(message) => message
    case OtherValue => UnknownErrorMessage
  }

  /** The run-level summary naming the failed step. */
  function FailureSummary(title: string, message: string): string
  {
    "Failed at step: " + title + ". " + message
  }

  /** The status a step is given once the model has answered. */
  function SettleStatus(answer: CallResult): GenerationStatus
  {
    if answer.Generated? then Completed else Error
  }

  /** The fields a step is given once the model has answered. */
  function SettlePatch(answer: CallResult): StepPatch
  {
    match answer
    case Generated(base64) => StepPatch(Some(DataUrl(base64)), None)
    case Threw(thrown) => StepPatch(None, Some(ErrorMessage(thrown)))
  }

  function Settle(step: GenerationStep, answer: CallResult): GenerationStep
  {
    Patched(step, SettleStatus(answer), SettlePatch(answer))
  }

  /** The index of the first failing answer, or the number of answers if none fails. */
  function FirstFailure(answers: seq<CallResult>): (k: nat)
    ensures k <= |answers|
    ensures forall j :: 0 <= j < k ==> answers[j].Generated?
    ensures k < |answers| ==> answers[k].Threw?
  {
    if answers == [] then 0
    else if answers[0].Threw? then 0
    else 1 + FirstFailure(answers[1..])
  }

  /** How many steps a run settles: all of them, or those up to and including the failed one. */
  function SettledCount(answers: seq<CallResult>): (c: nat)
    ensures c <= |answers|
  {
    var k := FirstFailure(answers);
    if k < |answers| then k + 1 else k
  }

  /** The shape of a run's inputs: one scripted answer per registry step. */
  predicate Scripted(registry: seq<GenerationStep>, answers: seq<CallResult>)
  {
    |answers| == |registry|
  }

  /**
   * The step list once the first `settled` steps have been answered and,
   * when `generating` holds, the next one has been marked generating.
   */
  function Snapshot(registry: seq<GenerationStep>, answers: seq<CallResult>, settled: nat, generating: bool)
    : seq<GenerationStep>
    requires Scripted(registry, answers)
    requires settled <= |registry| && (generating ==> settled < |registry|)
  {
    seq(|registry|, j requires 0 <= j < |registry| =>
      if j < settled then Settle(registry[j], answers[j])
      else if j == settled && generating then Patched(registry[j], Generating, NoPatch)
      else registry[j])
  }

  /**
   * The values the step list takes while the first `i` steps are run: the
   * reset registry, then for each step the list with that step generating
   * followed by the list with that step settled.
   */
  function Trace(registry: seq<GenerationStep>, answers: seq<CallResult>, i: nat): (t: seq<seq<GenerationStep>>)
    requires Scripted(registry, answers) && i <= |registry|
    ensures |t| == 2 * i + 1
  {
    if i == 0 then [Snapshot(registry, answers, 0, false)]
    else Trace(registry, answers, i - 1)
         + [Snapshot(registry, answers, i - 1, true), Snapshot(registry, answers, i, false)]
  }

  /** Everything a run publishes to the step list, in order. */
  function RunTrace(registry: seq<GenerationStep>, answers: seq<CallResult>): seq<seq<GenerationStep>>
    requires Scripted(registry, answers)
  {
    Trace(registry, answers, SettledCount(answers))
  }

  /** The step list a run leaves behind. */
  function FinalSteps(registry: seq<GenerationStep>, answers: seq<CallResult>): seq<GenerationStep>
    requires Scripted(registry, answers)
  {
    Snapshot(registry, answers, SettledCount(answers), false)
  }

  /** The run-level error a run leaves behind: none, or the summary for the failed step. */
  function RunError(registry: seq<GenerationStep>, answers: seq<CallResult>): Option<string>
    requires Scripted(registry, answers)
  {
    var k := FirstFailure(answers);
    if k < |answers| then Some(FailureSummary(registry[k].title, ErrorMessage(answers[k].thrown)))
    else None
  }

  predicate AllUntouched(steps: seq<GenerationStep>)
  {
    forall i :: 0 <= i < |steps| ==> Untouched(steps[i])
  }

  /** No two steps are generating at once. */
  predicate AtMostOneGenerating(steps: seq<GenerationStep>)
  {
    forall i, j ::
      0 <= i < |steps| && 0 <= j < |steps| && steps[i].status == Generating && steps[j].status == Generating
      ==> i == j
  }

  // ---------------------------------------------------------------------------
  // The loop's two steps, in terms of snapshots

  /** Before nothing is answered, the snapshot is the registry itself. */
  lemma SnapshotStart(registry: seq<GenerationStep>, answers: seq<CallResult>)
    requires Scripted(registry, answers)
    ensures Snapshot(registry, answers, 0, false) == registry
  {
  }

  /** Marking step i generating turns the settled-i snapshot into the generating-i one. */
  lemma BeginStep(registry: seq<GenerationStep>, answers: seq<CallResult>, i: nat)
    requires Scripted(registry, answers) && DistinctIds(registry) && i < |registry|
    ensures UpdateById(Snapshot(registry, answers, i, false), registry[i].id, Generating, NoPatch)
            == Snapshot(registry, answers, i, true)
  {
    var before := Snapshot(registry, answers, i, false);
    assert before[i] == registry[i];
    UpdateSingleStep(before, i, Generating, NoPatch);
    assert before[i := Patched(before[i], Generating, NoPatch)] == Snapshot(registry, answers, i, true);
  }

  /** Settling step i with its answer turns the generating-i snapshot into the settled-(i+1) one. */
  lemma SettleStep(registry: seq<GenerationStep>, answers: seq<CallResult>, i: nat)
    requires Scripted(registry, answers) && DistinctIds(registry) && i < |registry|
    ensures UpdateById(Snapshot(registry, answers, i, true), registry[i].id,
                       SettleStatus(answers[i]), SettlePatch(answers[i]))
            == Snapshot(registry, answers, i + 1, false)
  {
    var during := Snapshot(registry, answers, i, true);
    assert during[i] == Patched(registry[i], Generating, NoPatch);
    UpdateSingleStep(during, i, SettleStatus(answers[i]), SettlePatch(answers[i]));
    assert during[i := Patched(during[i], SettleStatus(answers[i]), SettlePatch(answers[i]))]
        == Snapshot(registry, answers, i + 1, false);
  }

  // ---------------------------------------------------------------------------
  // The trace

  /** Entry 0 of the trace is the registry; entries 2j+1 and 2j+2 are step j generating, then settled. */
  lemma {:induction false} TraceAt(registry: seq<GenerationStep>, answers: seq<CallResult>, i: nat, j: nat)
    requires Scripted(registry, answers) && i <= |registry| && j < i
    ensures Trace(registry, answers, i)[0] == registry
    ensures Trace(registry, answers, i)[2 * j + 1] == Snapshot(registry, answers, j, true)
    ensures Trace(registry, answers, i)[2 * j + 2] == Snapshot(registry, answers, j + 1, false)
  {
    SnapshotStart(registry, answers);
    if i > 1 {
      TraceAt(registry, answers, i - 1, if j < i - 1 then j else 0);
    }
  }

  /** Every entry of the trace is a snapshot. */
  lemma TraceEntry(registry: seq<GenerationStep>, answers: seq<CallResult>, i: nat, t: nat)
    returns (settled: nat, generating: bool)
    requires Scripted(registry, answers) && i <= |registry| && t < 2 * i + 1
    ensures settled <= i && (generating ==> settled < i)
    ensures t == 0 <==> settled == 0 && !generating
    ensures Trace(registry, answers, i)[t] == Snapshot(registry, answers, settled, generating)
  {
    if t == 0 {
      SnapshotStart(registry, answers);
      if i > 0 { TraceAt(registry, answers, i, 0); }
      settled, generating := 0, false;
    } else if t % 2 == 1 {
      TraceAt(registry, answers, i, (t - 1) / 2);
      settled, generating := (t - 1) / 2, true;
    } else {
      TraceAt(registry, answers, i, (t - 2) / 2);
      settled, generating := t / 2, false;
    }
  }

  /**
   * A run over a non-empty registry first publishes the registry itself,
   * before any step is touched, and then marks the first step generating.
   */
  lemma RunStart(registry: seq<GenerationStep>, answers: seq<CallResult>)
    requires Scripted(registry, answers) && |registry| > 0
    ensures |RunTrace(registry, answers)| >= 3
    ensures RunTrace(registry, answers)[0] == registry
    ensures RunTrace(registry, answers)[1] == Snapshot(registry, answers, 0, true)
  {
    var c := SettledCount(answers);
    assert c >= 1;
    TraceAt(registry, answers, c, 0);
  }

  /** Publishing step i generating, then settled, extends the trace of the first i steps to i + 1. */
  lemma TraceStep(registry: seq<GenerationStep>, answers: seq<CallResult>, i: nat, before: seq<seq<GenerationStep>>)
    requires Scripted(registry, answers) && i < |registry|
    ensures before + Trace(registry, answers, i)
              + [Snapshot(registry, answers, i, true)] + [Snapshot(registry, answers, i + 1, false)]
            == before + Trace(registry, answers, i + 1)
  {
    var t := Trace(registry, answers, i);
    var during, after := Snapshot(registry, answers, i, true), Snapshot(registry, answers, i + 1, false);
    assert Trace(registry, answers, i + 1) == t + [during, after];
    assert before + t + [during] + [after] == before + (t + [during, after]);
  }

  /** The last value a run publishes is the step list it leaves behind. */
  lemma TraceEndsInFinal(registry: seq<GenerationStep>, answers: seq<CallResult>)
    requires Scripted(registry, answers)
    ensures |RunTrace(registry, answers)| == 2 * SettledCount(answers) + 1
    ensures RunTrace(registry, answers)[|RunTrace(registry, answers)| - 1] == FinalSteps(registry, answers)
  {
    var c := SettledCount(answers);
    if c == 0 {
      SnapshotStart(registry, answers);
    } else {
      TraceAt(registry, answers, c, c - 1);
    }
  }

  /** In a snapshot, a step is generating exactly when it is the one marked so. */
  lemma SnapshotGenerating(registry: seq<GenerationStep>, answers: seq<CallResult>, settled: nat, generating: bool)
    requires Scripted(registry, answers) && AllUntouched(registry)
    requires settled <= |registry| && (generating ==> settled < |registry|)
    ensures forall j :: 0 <= j < |registry| ==>
              (Snapshot(registry, answers, settled, generating)[j].status == Generating <==> generating && j == settled)
  {
    var s := Snapshot(registry, answers, settled, generating);
    forall j | 0 <= j < |registry|
      ensures s[j].status == Generating <==> generating && j == settled
    {
      assert Untouched(registry[j]);
    }
  }

  /** At every instant of a run at most one step is generating. */
  lemma TraceAtMostOneGenerating(registry: seq<GenerationStep>, answers: seq<CallResult>, t: nat)
    requires Scripted(registry, answers) && AllUntouched(registry)
    requires t < |RunTrace(registry, answers)|
    ensures AtMostOneGenerating(RunTrace(registry, answers)[t])
  {
    var settled, generating := TraceEntry(registry, answers, SettledCount(answers), t);
    SnapshotGenerating(registry, answers, settled, generating);
  }

  /** Every step of every snapshot is well formed: results and errors appear only on terminal steps. */
  lemma SnapshotWellFormed(registry: seq<GenerationStep>, answers: seq<CallResult>, settled: nat, generating: bool)
    requires Scripted(registry, answers) && AllUntouched(registry)
    requires settled <= |registry| && (generating ==> settled < |registry|)
    ensures AllWellFormed(Snapshot(registry, answers, settled, generating))
  {
    var s := Snapshot(registry, answers, settled, generating);
    forall j | 0 <= j < |registry|
      ensures WellFormedStep(s[j])
    {
      assert Untouched(registry[j]);
    }
  }

  /** Every value a run publishes satisfies the per-step invariant. */
  lemma TraceWellFormed(registry: seq<GenerationStep>, answers: seq<CallResult>, t: nat)
    requires Scripted(registry, answers) && AllUntouched(registry)
    requires t < |RunTrace(registry, answers)|
    ensures AllWellFormed(RunTrace(registry, answers)[t])
  {
    var settled, generating := TraceEntry(registry, answers, SettledCount(answers), t);
    SnapshotWellFormed(registry, answers, settled, generating);
  }

  // ---------------------------------------------------------------------------
  // The outcome

  /**
   * After a run, the steps before the first failure are completed with their
   * data URL, the failed step carries the message, and the later steps are
   * exactly as the registry left them.
   */
  lemma FinalShape(registry: seq<GenerationStep>, answers: seq<CallResult>, j: nat)
    requires Scripted(registry, answers) && j < |registry|
    ensures var k := FirstFailure(answers);
            var step := FinalSteps(registry, answers)[j];
            step.id == registry[j].id && step.title == registry[j].title && step.prompt == registry[j].prompt &&
            (j < k ==> step.status == Completed && step.imageUrl == Some(DataUrl(answers[j].base64))
                       && step.error == registry[j].error) &&
            (j == k ==> step.status == Error && step.error == Some(ErrorMessage(answers[j].thrown))
                        && step.imageUrl == registry[j].imageUrl) &&
            (j > k ==> step == registry[j])
  {
  }

  /** A run whose answer i is the first failure settles steps 0..i and reports step i. */
  lemma HaltedOutcome(registry: seq<GenerationStep>, answers: seq<CallResult>, i: nat)
    requires Scripted(registry, answers) && i < |answers|
    requires forall j :: 0 <= j < i ==> answers[j].Generated?
    requires answers[i].Threw?
    ensures FirstFailure(answers) == i
    ensures FinalSteps(registry, answers) == Snapshot(registry, answers, i + 1, false)
    ensures RunTrace(registry, answers) == Trace(registry, answers, i + 1)
    ensures RunError(registry, answers) == Some(FailureSummary(registry[i].title, ErrorMessage(answers[i].thrown)))
  {
  }

  /** A run whose every answer succeeds settles all steps and reports no error. */
  lemma CompletedOutcome(registry: seq<GenerationStep>, answers: seq<CallResult>)
    requires Scripted(registry, answers)
    requires forall j :: 0 <= j < |answers| ==> answers[j].Generated?
    ensures FirstFailure(answers) == |answers|
    ensures FinalSteps(registry, answers) == Snapshot(registry, answers, |registry|, false)
    ensures RunTrace(registry, answers) == Trace(registry, answers, |registry|)
    ensures RunError(registry, answers).None?
  {
  }

  /** A run leaves every step completed exactly when no answer failed. */
  lemma AllCompletedIffNoFailure(registry: seq<GenerationStep>, answers: seq<CallResult>)
    requires Scripted(registry, answers) && AllUntouched(registry)
    ensures AllCompleted(FinalSteps(registry, answers)) <==> FirstFailure(answers) == |answers|
  {
    var k := FirstFailure(answers);
    var final := FinalSteps(registry, answers);
    if k < |answers| {
      assert final[k].status == Error;
    } else {
      forall j | 0 <= j < |final| ensures final[j].status == Completed {
        assert answers[j].Generated?;
      }
    }
  }

  /** The run reports an error exactly when some answer failed. */
  lemma RunErrorIffFailure(registry: seq<GenerationStep>, answers: seq<CallResult>)
    requires Scripted(registry, answers)
    ensures RunError(registry, answers).Some? <==> exists j :: 0 <= j < |answers| && answers[j].Threw?
  {
    var k := FirstFailure(answers);
    if k < |answers| {
      assert answers[k].Threw?;
    }
  }
}
