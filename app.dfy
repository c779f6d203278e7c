// The application state and its handlers (App.tsx): upload, the sequential
// generation run, reset, the materialization trigger and its timer, and the
// gate that shows the materialization panel once every step is completed.

module App {
  import opened Types
  import Constants
  import opened StepStore
  import opened Pipeline
  import GenerationGrid
  import Materializer

  /** The uploaded file.  Its content reaches the image model only, which is not modelled. */
  datatype ImageFile = ImageFile(name: string, mimeType: string)

  const MissingImageMessage: string := "Please upload an image first."

  /** What handleGenerate and handleReset rely on about the registry they start from. */
  lemma RegistryFacts(registry: seq<GenerationStep>)
    requires Constants.RegistryShape(registry)
    ensures |registry| == 6 && DistinctIds(registry) && AllUntouched(registry)
  {
    Constants.ShapeDistinct(registry);
  }

  /** The observable state of the application. */
  datatype AppView = AppView(
    originalImage: Option<ImageFile>,
    originalImageUrl: Option<string>,
    generationSteps: seq<GenerationStep>,
    isGenerating: bool,
    error: Option<string>,
    materializationStatus: MaterializationStatus)

  /** The flags shown beside the steps: whether a run is on, its error, and the materialization status. */
  datatype StatusFlags = StatusFlags(isGenerating: bool, error: Option<string>, materializationStatus: MaterializationStatus)

  /** The flags while a run is in progress: generating, no error, materialization idle. */
  const Running: StatusFlags := StatusFlags(true, None, Idle)

  /** The flags of n renders in a row while a run is in progress. */
  function RunningFlags(n: nat): (r: seq<StatusFlags>)
    ensures |r| == n && forall t :: 0 <= t < n ==> r[t] == Running
  {
    seq(n, _ => Running)
  }

  /**
   * A step logs two more renders after a render of a run in progress: the
   * first is still in progress, the second carries the flags the step leaves.
   */
  lemma RunningFlagsStep(before: seq<StatusFlags>, n: nat, last: StatusFlags)
    ensures before + RunningFlags(n) + [Running] + [Running, last] == before + RunningFlags(n + 2) + [last]
  {
    assert RunningFlags(n) + [Running] + [Running] == RunningFlags(n + 2);
  }

  /** The render of a run in progress that ends the log can be told apart from those before it. */
  lemma RunningFlagsLast(before: seq<StatusFlags>, n: nat)
    ensures (before + RunningFlags(n) + [Running])[..|before| + n] == before + RunningFlags(n)
  {
  }

  /** What handleReset makes of a state: the upload stays, everything else starts over. */
  function ResetView(v: AppView, registry: seq<GenerationStep>): (r: AppView)
    requires Constants.RegistryShape(registry)
    ensures r.generationSteps == registry
    ensures r.originalImage == v.originalImage && r.originalImageUrl == v.originalImageUrl
    ensures !GenerationGrid.HasStarted(r.generationSteps)
    ensures !r.isGenerating && r.error.None? && r.materializationStatus == Idle
  {
    RegistryFacts(registry);
    v.(generationSteps := registry, isGenerating := false, error := None, materializationStatus := Idle)
  }

  /** Resetting twice is resetting once. */
  lemma ResetIdempotent(v: AppView, registry: seq<GenerationStep>)
    requires Constants.RegistryShape(registry)
    ensures ResetView(ResetView(v, registry), registry) == ResetView(v, registry)
  {
  }

  class AppState {
    /** INITIAL_GENERATION_STEPS, which every run and every reset starts from. */
    const registry: seq<GenerationStep>
    var originalImage: Option<ImageFile>
    var originalImageUrl: Option<string>
    var generationSteps: seq<GenerationStep>
    var isGenerating: bool
    var error: Option<string>
    var materializationStatus: MaterializationStatus
    /** Every value assigned to generationSteps, in order: everything an observer can have seen. */
    ghost var published: seq<seq<GenerationStep>>
    /** The flags in force at each of those assignments, once the handler's other updates of the same batch are made. */
    ghost var flagsSeen: seq<StatusFlags>

    ghost predicate Valid()
      reads this
    {
      Constants.RegistryShape(registry)
    }

    function View(): AppView
      reads this
    {
      AppView(originalImage, originalImageUrl, generationSteps, isGenerating, error, materializationStatus)
    }

    function Flags(): StatusFlags
      reads this
    {
      StatusFlags(isGenerating, error, materializationStatus)
    }

    constructor ()
      ensures registry == Constants.InitialGenerationSteps() && Valid()
      ensures originalImage.None? && originalImageUrl.None?
      ensures generationSteps == registry && !isGenerating && error.None? && materializationStatus == Idle
      ensures published == [registry] && flagsSeen == [StatusFlags(false, None, Idle)]
    {
      registry := Constants.InitialGenerationSteps();
      originalImage := None;
      originalImageUrl := None;
      generationSteps := Constants.InitialGenerationSteps();
      isGenerating := false;
      error := None;
      materializationStatus := Idle;
      published := [Constants.InitialGenerationSteps()];
      flagsSeen := [StatusFlags(false, None, Idle)];
      Constants.RegistryHasShape();
    }

    /** handleImageUpload: keep the file and its object URL, then reset. */
    method UploadImage(file: ImageFile, objectUrl: string)
      requires Valid()
      modifies this
      ensures View() == ResetView(old(View()).(originalImage := Some(file), originalImageUrl := Some(objectUrl)), registry)
      ensures published == old(published) + [registry]
      ensures flagsSeen == old(flagsSeen) + [StatusFlags(false, None, Idle)]
    {
      originalImage := Some(file);
      originalImageUrl := Some(objectUrl);
      Reset();
    }

    /** updateStepStatus: rewrite the steps with the given id; nothing else changes. */
    method UpdateStepStatus(id: int, status: GenerationStatus, patch: StepPatch)
      modifies this
      ensures generationSteps == UpdateById(old(generationSteps), id, status, patch)
      ensures published == old(published) + [generationSteps]
      ensures flagsSeen == old(flagsSeen) + [old(Flags())]
      ensures originalImage == old(originalImage) && originalImageUrl == old(originalImageUrl)
      ensures isGenerating == old(isGenerating) && error == old(error)
      ensures materializationStatus == old(materializationStatus)
    {
      generationSteps := UpdateById(generationSteps, id, status, patch);
      published := published + [generationSteps];
      flagsSeen := flagsSeen + [Flags()];
    }

    /**
     * handleGenerate.  Without an upload it only reports the missing image.
     * Otherwise it starts over from the registry and runs the steps in
     * order: each is marked generating, the image model is asked (its
     * answers are given as `answers`, one per step), and the step is
     * completed with a data URL, or marked failed, which ends the run.
     */
    method Generate(answers: seq<CallResult>)
      requires Valid() && Scripted(registry, answers)
      modifies this
      ensures originalImage == old(originalImage) && originalImageUrl == old(originalImageUrl)
      ensures old(originalImage).None? ==>
                error == Some(MissingImageMessage) && generationSteps == old(generationSteps) &&
                isGenerating == old(isGenerating) && materializationStatus == old(materializationStatus) &&
                published == old(published) && flagsSeen == old(flagsSeen)
      ensures old(originalImage).Some? ==>
                generationSteps == FinalSteps(registry, answers) && !isGenerating &&
                error == RunError(registry, answers) && materializationStatus == Idle &&
                published == old(published) + RunTrace(registry, answers)
      // Every state the run publishes before its last is shown as
      // generating, without error and with materialization idle; the last
      // is shown with the final flags.
      ensures old(originalImage).Some? ==>
                flagsSeen == old(flagsSeen) + RunningFlags(|RunTrace(registry, answers)| - 1) +
                             [StatusFlags(false, RunError(registry, answers), Idle)]
    {
      if originalImage.None? {
        error := Some(MissingImageMessage);
        return;
      }
      isGenerating := true;
      error := None;
      generationSteps := registry;
      materializationStatus := Idle;
      published := published + [generationSteps];
      flagsSeen := flagsSeen + [Flags()];
      SnapshotStart(registry, answers);
      RunSteps(answers, old(published), old(flagsSeen));
    }

    /**
     * handleGenerate's loop over the registry, from the state it sets up:
     * the steps run in order until one fails, and the run stops generating.
     * The ghost parameters are the logs as they were before the run started.
     */
    method RunSteps(answers: seq<CallResult>, ghost publishedBefore: seq<seq<GenerationStep>>,
                    ghost flagsBefore: seq<StatusFlags>)
      requires Valid() && Scripted(registry, answers)
      requires generationSteps == Snapshot(registry, answers, 0, false) && Flags() == Running
      requires published == publishedBefore + Trace(registry, answers, 0)
      requires flagsSeen == flagsBefore + RunningFlags(0) + [Running]
      modifies this
      ensures originalImage == old(originalImage) && originalImageUrl == old(originalImageUrl)
      ensures generationSteps == FinalSteps(registry, answers)
      ensures Flags() == StatusFlags(false, RunError(registry, answers), Idle)
      ensures published == publishedBefore + RunTrace(registry, answers)
      ensures flagsSeen == flagsBefore + RunningFlags(|RunTrace(registry, answers)| - 1) + [Flags()]
    {
      RegistryFacts(registry);
      var i := 0;
      while i < |registry|
        invariant 0 <= i <= |registry|
        invariant forall j :: 0 <= j < i ==> answers[j].Generated?
        invariant generationSteps == Snapshot(registry, answers, i, false)
        invariant published == publishedBefore + Trace(registry, answers, i)
        invariant flagsSeen == flagsBefore + RunningFlags(2 * i) + [Running]
        invariant Flags() == Running
        invariant originalImage == old(originalImage) && originalImageUrl == old(originalImageUrl)
      {
        var failed := GenerateStep(answers, i, publishedBefore, flagsBefore);
        if failed {
          HaltedOutcome(registry, answers, i);
          return;
        }
        i := i + 1;
      }
      CompletedOutcome(registry, answers);
      RunningFlagsLast(flagsBefore, 2 * |registry|);
      StopGenerating();
    }

    /** The `setIsGenerating(false)` that ends a run which did not fail. */
    method StopGenerating()
      requires flagsSeen != []
      modifies this
      ensures View() == old(View()).(isGenerating := false)
      ensures published == old(published)
      ensures flagsSeen == old(flagsSeen)[..|old(flagsSeen)| - 1] + [Flags()]
    {
      isGenerating := false;
      // Applied together with the last step update.
      flagsSeen := flagsSeen[..|flagsSeen| - 1] + [Flags()];
    }

    /**
     * The body of handleGenerate's loop for step i: mark it generating, ask
     * the model, then complete the step with the data URL, or, when the call
     * throws, mark it failed, report it by title and stop generating.
     */
    method GenerateStep(answers: seq<CallResult>, i: nat, ghost publishedBefore: seq<seq<GenerationStep>>,
                        ghost flagsBefore: seq<StatusFlags>) returns (failed: bool)
      requires Valid() && Scripted(registry, answers) && i < |registry|
      requires generationSteps == Snapshot(registry, answers, i, false) && Flags() == Running
      requires published == publishedBefore + Trace(registry, answers, i)
      requires flagsSeen == flagsBefore + RunningFlags(2 * i) + [Running]
      modifies this
      ensures failed <==> answers[i].Threw?
      ensures generationSteps == Snapshot(registry, answers, i + 1, false)
      ensures published == publishedBefore + Trace(registry, answers, i + 1)
      ensures flagsSeen == flagsBefore + RunningFlags(2 * i + 2) + [Flags()]
      ensures originalImage == old(originalImage) && originalImageUrl == old(originalImageUrl)
      ensures materializationStatus == old(materializationStatus)
      ensures !failed ==> isGenerating == old(isGenerating) && error == old(error)
      ensures failed ==>
                !isGenerating && error == Some(FailureSummary(registry[i].title, ErrorMessage(answers[i].thrown)))
    {
      RegistryFacts(registry);
      var step := registry[i];
      BeginStep(registry, answers, i);
      SettleStep(registry, answers, i);
      TraceStep(registry, answers, i, publishedBefore);
      UpdateStepStatus(step.id, Generating, NoPatch);
      match answers[i] {
        case Generated(resultBase64) =>
          var resultImageUrl := DataUrl(resultBase64);
          UpdateStepStatus(step.id, Completed, StepPatch(Some(resultImageUrl), None));
          failed := false;
        case Threw(thrown) =>
          StepFailed(step, thrown);
          failed := true;
      }
      RunningFlagsStep(flagsBefore, 2 * i, Flags());
    }

    /** handleGenerate's catch block: mark the step failed, report it by title and stop generating. */
    method StepFailed(step: GenerationStep, thrown: Thrown)
      modifies this
      ensures generationSteps == UpdateById(old(generationSteps), step.id, Error, StepPatch(None, Some(ErrorMessage(thrown))))
      ensures published == old(published) + [generationSteps]
      ensures Flags() == StatusFlags(false, Some(FailureSummary(step.title, ErrorMessage(thrown))), old(materializationStatus))
      ensures flagsSeen == old(flagsSeen) + [Flags()]
      ensures originalImage == old(originalImage) && originalImageUrl == old(originalImageUrl)
    {
      var errorMessage := ErrorMessage(thrown);
      UpdateStepStatus(step.id, Error, StepPatch(None, Some(errorMessage)));
      error := Some(FailureSummary(step.title, errorMessage));
      isGenerating := false;
      // Applied together with the step update.
      flagsSeen := flagsSeen[..|flagsSeen| - 1] + [Flags()];
    }

    /** handleReset: back to the registry, no error, not generating, materialization idle. */
    method Reset()
      requires Valid()
      modifies this
      ensures View() == ResetView(old(View()), registry)
      ensures published == old(published) + [registry]
      ensures flagsSeen == old(flagsSeen) + [StatusFlags(false, None, Idle)]
    {
      generationSteps := registry;
      error := None;
      isGenerating := false;
      materializationStatus := Idle;
      published := published + [generationSteps];
      flagsSeen := flagsSeen + [Flags()];
    }

    /** handleMaterialize: start the simulated processing. */
    method Materialize()
      modifies this
      ensures View() == old(View()).(materializationStatus := Processing)
      ensures published == old(published) && flagsSeen == old(flagsSeen)
    {
      materializationStatus := Processing;
    }

    /**
     * The timer handleMaterialize starts: when it fires the status becomes
     * completed, whatever happened in between.
     */
    method MaterializeTimerFired()
      modifies this
      ensures View() == old(View()).(materializationStatus := Materialized)
      ensures published == old(published) && flagsSeen == old(flagsSeen)
    {
      materializationStatus := Materialized;
    }

    /** allStepsCompleted: the gate that shows the materialization panel. */
    function AllStepsCompleted(): (r: bool)
      reads this
      ensures r <==> forall i :: 0 <= i < |generationSteps| ==> generationSteps[i].status == Completed
    {
      AllCompleted(generationSteps)
    }
  }

  // ---------------------------------------------------------------------------
  // Runs from a registry of the registry's shape (Constants.RegistryHasShape)

  /** Once a run has marked its first step generating, the grid is shown for the rest of the run. */
  lemma RunShowsGrid(registry: seq<GenerationStep>, answers: seq<CallResult>, t: nat)
    requires Constants.RegistryShape(registry) && Scripted(registry, answers)
    requires t < |RunTrace(registry, answers)|
    ensures GenerationGrid.HasStarted(RunTrace(registry, answers)[t]) <==> t > 0
  {
    RegistryFacts(registry);
    var settled, generating := TraceEntry(registry, answers, SettledCount(answers), t);
    var snapshot := RunTrace(registry, answers)[t];
    if t > 0 {
      assert snapshot[0].status != Pending;
    } else {
      SnapshotStart(registry, answers);
      assert snapshot == registry;
    }
  }

  /** After a run whose every call succeeds, step k is completed with the data URL of answer k. */
  lemma FullRunFinal(registry: seq<GenerationStep>, answers: seq<CallResult>)
    requires Constants.RegistryShape(registry) && Scripted(registry, answers)
    requires forall j :: 0 <= j < |answers| ==> answers[j].Generated?
    ensures var final := FinalSteps(registry, answers);
            |final| == 6 && DistinctIds(final) &&
            forall k :: 0 <= k < 6 ==>
              final[k].id == k + 1 && final[k].title == Constants.RegistryTitles[k] &&
              final[k].status == Completed && final[k].imageUrl == Some(DataUrl(answers[k].base64))
  {
    CompletedOutcome(registry, answers);
    var final := FinalSteps(registry, answers);
    forall k | 0 <= k < 6
      ensures final[k].id == k + 1 && final[k].title == Constants.RegistryTitles[k]
      ensures final[k].status == Completed && final[k].imageUrl == Some(DataUrl(answers[k].base64))
    {
      FinalShape(registry, answers, k);
    }
  }

  /**
   * A run whose every call succeeds completes all six steps, reports no
   * error, opens the materialization gate, and gives the viewer the front,
   * 3/4, opposite and back views, opening on the 3/4 view.
   */
  lemma FullRunViews(registry: seq<GenerationStep>, answers: seq<CallResult>)
    requires Constants.RegistryShape(registry) && Scripted(registry, answers)
    requires forall j :: 0 <= j < |answers| ==> answers[j].Generated?
    ensures AllCompleted(FinalSteps(registry, answers))
    ensures RunError(registry, answers).None?
    ensures var views := Materializer.RotationViews(FinalSteps(registry, answers));
            |views| == 4 &&
            views[0].title == "Front View" && views[1].title == "3/4 View" &&
            views[2].title == "Opposite View" && views[3].title == "Back View" &&
            Materializer.DefaultIndex(views, Materializer.DefaultViewTitle) == 1
  {
    var final := FinalSteps(registry, answers);
    CompletedOutcome(registry, answers);
    FullRunFinal(registry, answers);
    assert forall k :: 0 <= k < 4 ==> final[k].imageUrl.value[0] == 'd';
    Materializer.RotationOfShownSteps(final);
    var views := Materializer.RotationViews(final);
    assert views[0].title != Materializer.DefaultViewTitle;
  }

  /** The header of the data URLs a run produces: no comma before the payload. */
  lemma DataUrlShape(payload: string)
    ensures DataUrl(payload) == "data:image/png;base64" + "," + payload
    ensures Materializer.StartsWith(DataUrl(payload), "data:")
    ensures Materializer.Base64Payload(DataUrl(payload)) == payload
  {
    assert DataUrlPrefix == "data:image/png;base64" + ",";
    Materializer.PayloadAfterHeader("data:image/png;base64", payload);
    assert DataUrl(payload)[..5] == "data:";
  }

  /**
   * After a run whose every call succeeds, the archive holds one base64
   * file per step, named after the step's title and holding exactly the
   * payload the image model returned for it.
   */
  lemma FullRunArchive(registry: seq<GenerationStep>, answers: seq<CallResult>)
    requires Scripted(registry, answers)
    requires forall j :: 0 <= j < |answers| ==> answers[j].Generated?
    ensures var entries := Materializer.ArchiveEntries(FinalSteps(registry, answers));
            |entries| == |registry| &&
            forall j :: 0 <= j < |entries| ==>
              entries[j] == Materializer.Base64Entry(Materializer.Filename(registry[j].title), answers[j].base64)
  {
    CompletedOutcome(registry, answers);
    var final := FinalSteps(registry, answers);
    forall j | 0 <= j < |final|
      ensures final[j].imageUrl == Some(DataUrl(answers[j].base64))
      ensures final[j].title == registry[j].title
      ensures Materializer.StartsWith(final[j].imageUrl.value, "data:")
      ensures Materializer.Base64Payload(final[j].imageUrl.value) == answers[j].base64
    {
      FinalShape(registry, answers, j);
      DataUrlShape(answers[j].base64);
    }
    Materializer.DataUrlEntries(final);
  }

  /** The archive names of the uploaded image and the six views, in list order. */
  const ArchiveNames: seq<string> := [
    "original_view.png",
    "opposite_view.png",
    "front_view.png",
    "back_view.png",
    "3_4_view.png",
    "top_down_view.png",
    "bottom_up_view.png"
  ]

  /** The six titles of the registry become the last six archive names. */
  lemma TitleFilenames()
    ensures forall i :: 0 <= i < |Constants.RegistryTitles| ==>
              Materializer.Filename(Constants.RegistryTitles[i]) == ArchiveNames[i + 1]
  {
    OppositeFilename();
    FrontFilename();
    BackFilename();
    ThreeQuarterFilename();
    TopDownFilename();
    BottomUpFilename();
  }

  lemma OppositeFilename() ensures Materializer.Filename("Opposite View") == "opposite_view.png"
  {
    Materializer.FilenameByChars("Opposite View", "opposite_view");
  }

  lemma FrontFilename() ensures Materializer.Filename("Front View") == "front_view.png"
  {
    Materializer.FilenameByChars("Front View", "front_view");
  }

  lemma BackFilename() ensures Materializer.Filename("Back View") == "back_view.png"
  {
    Materializer.FilenameByChars("Back View", "back_view");
  }

  lemma ThreeQuarterFilename() ensures Materializer.Filename("3/4 View") == "3_4_view.png"
  {
    Materializer.FilenameByChars("3/4 View", "3_4_view");
  }

  lemma TopDownFilename() ensures Materializer.Filename("Top-Down View") == "top_down_view.png"
  {
    Materializer.FilenameByChars("Top-Down View", "top_down_view");
  }

  lemma BottomUpFilename() ensures Materializer.Filename("Bottom-Up View") == "bottom_up_view.png"
  {
    Materializer.FilenameByChars("Bottom-Up View", "bottom_up_view");
  }

  /** The original view and the six registry steps get pairwise distinct archive names. */
  lemma ArchiveNamesDistinct(registry: seq<GenerationStep>)
    requires Constants.RegistryShape(registry)
    ensures Materializer.Filename("Original View") == ArchiveNames[0]
    ensures forall i :: 0 <= i < |registry| ==> Materializer.Filename(registry[i].title) == ArchiveNames[i + 1]
    ensures forall i, j :: 0 <= i < j < |ArchiveNames| ==> ArchiveNames[i] != ArchiveNames[j]
  {
    Materializer.OriginalFilename();
    TitleFilenames();
  }

  /** The fifth name differs: the readme writes a hyphen where the archive has an underscore. */
  lemma ArchiveNamesNotReadme()
    ensures ArchiveNames != Materializer.ReadmeAssetNames
  {
    assert ArchiveNames[4][1] == '_' && Materializer.ReadmeAssetNames[4][1] == '-';
  }

  /** After a run whose every call succeeds, the six step files carry the last six archive names. */
  lemma FullRunArchiveNames(registry: seq<GenerationStep>, answers: seq<CallResult>)
    requires Constants.RegistryShape(registry) && Scripted(registry, answers)
    requires forall j :: 0 <= j < |answers| ==> answers[j].Generated?
    ensures var entries := Materializer.ArchiveEntries(FinalSteps(registry, answers));
            |entries| == 6 && forall j :: 0 <= j < 6 ==> entries[j].filename == ArchiveNames[j + 1]
  {
    FullRunArchive(registry, answers);
    ArchiveNamesDistinct(registry);
  }

  /**
   * The readme as written announces a file the archive never holds, while
   * a list taken from the entries of a successful run with an uploaded
   * image names exactly the seven files archived.
   */
  lemma FullRunReadme(registry: seq<GenerationStep>, answers: seq<CallResult>, objectUrl: string)
    requires Constants.RegistryShape(registry) && Scripted(registry, answers)
    requires forall j :: 0 <= j < |answers| ==> answers[j].Generated?
    requires Materializer.StartsWith(objectUrl, "blob:")
    ensures var entries := Materializer.ArchiveEntries(
              Materializer.AllImages(FinalSteps(registry, answers), Some(objectUrl)));
            Materializer.ReadmeAssetList(entries) == ArchiveNames &&
            Materializer.ReadmeAssetList(entries) != Materializer.ReadmeAssetNames
  {
    var final := FinalSteps(registry, answers);
    var stepEntries := Materializer.ArchiveEntries(final);
    var entries := Materializer.ArchiveEntries(Materializer.AllImages(final, Some(objectUrl)));
    Materializer.OriginalEntryFirst(final, Some(objectUrl));
    FullRunArchiveNames(registry, answers);
    var names := Materializer.ReadmeAssetList(entries);
    forall i | 0 <= i < |names| ensures names[i] == ArchiveNames[i] {
      if i > 0 {
        assert entries[i] == stepEntries[i - 1];
      }
    }
    assert names == ArchiveNames;
    ArchiveNamesNotReadme();
  }

  /**
   * A run whose call k is the first to fail leaves the steps before k
   * completed with their data URLs, step k failed with the call's message,
   * the steps after k untouched and pending, the gate closed, and reports
   * step k by title.
   */
  lemma FailedRun(registry: seq<GenerationStep>, answers: seq<CallResult>, k: nat)
    requires Constants.RegistryShape(registry) && Scripted(registry, answers)
    requires k < |answers| && answers[k].Threw?
    requires forall j :: 0 <= j < k ==> answers[j].Generated?
    ensures var final := FinalSteps(registry, answers);
            (forall j :: 0 <= j < k ==>
               final[j].status == Completed && final[j].imageUrl == Some(DataUrl(answers[j].base64))) &&
            final[k].status == Error && final[k].error == Some(ErrorMessage(answers[k].thrown)) &&
            (forall j :: k < j < |final| ==> final[j] == registry[j] && final[j].status == Pending)
    ensures !AllCompleted(FinalSteps(registry, answers))
    ensures RunError(registry, answers)
            == Some("Failed at step: " + Constants.RegistryTitles[k] + ". " + ErrorMessage(answers[k].thrown))
  {
    HaltedOutcome(registry, answers, k);
    var final := FinalSteps(registry, answers);
    forall j | 0 <= j < |final|
      ensures j < k ==> final[j].status == Completed && final[j].imageUrl == Some(DataUrl(answers[j].base64))
      ensures j == k ==> final[j].status == Error && final[j].error == Some(ErrorMessage(answers[k].thrown))
      ensures j > k ==> final[j] == registry[j] && final[j].status == Pending
    {
      FinalShape(registry, answers, j);
    }
  }

  /**
   * The third call is blocked: the first two views are completed, the back
   * view carries the failure's message, the last three are still pending,
   * and the run reports the back view by title.
   */
  lemma ThirdCallBlocked(registry: seq<GenerationStep>, answers: seq<CallResult>)
    requires Constants.RegistryShape(registry) && Scripted(registry, answers)
    requires answers[0].Generated? && answers[1].Generated? && answers[2].Threw?
    ensures var final := FinalSteps(registry, answers);
            final[0].status == Completed && final[1].status == Completed &&
            final[2].status == Error && final[2].error == Some(ErrorMessage(answers[2].thrown)) &&
            final[3] == registry[3] && final[4] == registry[4] && final[5] == registry[5] &&
            final[3].status == Pending && final[4].status == Pending && final[5].status == Pending
    ensures RunError(registry, answers) == Some("Failed at step: Back View. " + ErrorMessage(answers[2].thrown))
  {
    RegistryFacts(registry);
    HaltedOutcome(registry, answers, 2);
    var message := ErrorMessage(answers[2].thrown);
    assert registry[2].title == "Back View";
    assert FailureSummary("Back View", message) == "Failed at step: Back View. " + message;
    FinalShape(registry, answers, 0);
    FinalShape(registry, answers, 1);
    FinalShape(registry, answers, 2);
    FinalShape(registry, answers, 3);
    FinalShape(registry, answers, 4);
    FinalShape(registry, answers, 5);
  }
}
