# 3D Materializer Assistant — a Dafny model of the generation runner

The application takes one uploaded character image and asks an image model
for six more views of the character: opposite, front, back, 3/4, top-down and
bottom-up. It asks in a fixed order, one view at a time, and stops at the
first failure. Once every view is complete, a materialization panel simulates
a photogrammetry run. It then shows the front, 3/4, opposite and back views in
a drag-to-rotate viewer and offers every image in a downloadable archive.

This project models that core and proves what it promises:

- `types.dfy` (module `Types`): the step record, its four statuses, and the
  three materialization states.
- `constants.dfy` (module `Constants`): the fixed six-step registry, with the
  prompts verbatim.
- `step_store.dfy` (module `StepStore`): `updateStepStatus` as an update by id
  over the ordered step list, and the `allStepsCompleted` gate.
- `pipeline.dfy` (module `Pipeline`): what a run must produce, stated as
  values. The image model is an oracle: a script with one answer per step.
  Each answer is a base64 payload or a thrown value. From the script the module
  defines the snapshot of the step list after every update, the whole sequence
  of snapshots a run publishes (`RunTrace`), the final list and the run-level
  error.
- `app.dfy` (module `App`): the application state as a class.
  - The handlers are methods: upload, `handleGenerate` with its loop, reset,
    materialize and the materialize timer.
  - Each handler is proved against the `Pipeline` functions.
  - A ghost field `published` logs every value written to `generationSteps`.
    This lets "at most one step is generating at any instant" be stated about
    everything an observer can see, not just the end state.
  - A second ghost field `flagsSeen` logs, beside each of those values, the
    flags then in force: `isGenerating`, `error` and `materializationStatus`.
    React applies the state updates a handler makes between two `await`s
    together, so a value is logged with the flags set alongside it: the
    failed step with the run's error, the last completed step with
    `isGenerating` false.
  - The lemmas relate whole runs to the grid, the rotation viewer and the
    archive.
- `generation_grid.dfy` (module `GenerationGrid`): `hasStarted` and the
  one-card-per-step listing.
- `materializer.dfy` (module `Materializer`):
  - the viewer's index arithmetic, as a class with the mouse handlers;
  - the cyclic processing-stage counter, as a class;
  - the choice and order of the rotation views;
  - the archive's list of image entries, as a loop and as a specification function;
  - the file-name sanitiser and the extraction of the data-URL payload.

The application lemmas take the registry as a parameter, together with
`Constants.RegistryShape`: six untouched steps with ids 1..6 and the six
titles in order. `Constants.RegistryHasShape` proves that
`INITIAL_GENERATION_STEPS` has this shape. `App.AppState.constructor` fixes
the state's `registry` to it.

## Model

| member | source | states |
|---|---|---|
| Constants.RegistryIds | constants.ts:3-82 | the registry has exactly six steps, with ids 1..6 in ascending order and pairwise distinct |
| Constants.RegistryUntouched | constants.ts:3-82 | every registry step starts pending, with a null image and no error; each one satisfies the per-step invariant |
| Constants.RegistryTitlesInOrder | constants.ts:3-82 | the titles are Opposite, Front, Back, 3/4, Top-Down and Bottom-Up View, in that order |
| Constants.RegistryPromptsNonEmpty | constants.ts:7-79 | every prompt sent to the image model is non-empty |
| Constants.RegistryHasShape | constants.ts:3-82 | the registry has the shape the application relies on: untouched steps, ids counting from 1, the six titles in order |
| Constants.ShapeDistinct | constants.ts:3-82 | ids that count up from 1 are pairwise distinct |
| App.RegistryFacts | constants.ts:3-82 | a registry of that shape has six untouched steps with distinct ids |
| StepStore.UpdateById | App.tsx:33-39 | the update keeps length and order; a step with another id is unchanged; a step with the id gets the new status and the patch's fields, and keeps its id, title and prompt |
| StepStore.UpdateSingleStep | App.tsx:33-39 | with distinct ids, updating the id of step k rewrites step k and nothing else |
| StepStore.UpdateUnknownId | App.tsx:33-39 | an update for an id no step carries leaves the list as it was |
| StepStore.UpdateIdempotent | App.tsx:33-39 | applying the same update twice equals applying it once |
| StepStore.AllCompleted | App.tsx:92 | true exactly when every step is completed |
| App.AppState.AllStepsCompleted | App.tsx:92 | the gate is open exactly when every step of the current list is completed |
| Pipeline.FirstFailure | App.tsx:56-70 | the position of the first thrown answer, or the number of answers; every answer before it succeeded |
| Pipeline.Trace | App.tsx:49-60 | the first i steps of a run publish 2i+1 snapshots |
| Pipeline.SnapshotStart | App.tsx:49 | before any answer, the snapshot is the registry itself |
| Pipeline.BeginStep | App.tsx:58 | marking step i generating takes the settled-i snapshot to the generating-i one |
| Pipeline.SettleStep | App.tsx:59-66 | settling step i with its answer (completed with the data URL, or error with the message) takes the generating-i snapshot to the settled-(i+1) one |
| Pipeline.TraceAt | App.tsx:49-66 | entry 0 of the trace is the registry; entries 2j+1 and 2j+2 are step j generating, then step j settled |
| Pipeline.TraceEntry | App.tsx:49-66 | every published value is a snapshot, and it is the untouched one exactly at entry 0 |
| Pipeline.RunStart | App.tsx:47-58 | a run first publishes the registry, before any step is touched, and then marks the first step generating |
| Pipeline.TraceStep | App.tsx:56-66 | one pass of the loop extends what was published by the trace of one more step |
| Pipeline.TraceEndsInFinal | App.tsx:56-72 | the last value a run publishes is the list it leaves behind |
| Pipeline.SnapshotGenerating | App.tsx:56-66 | in a snapshot, a step is generating exactly when it is the step being run |
| Pipeline.TraceAtMostOneGenerating | App.tsx:56-66 | at every instant of a run at most one step is generating |
| Pipeline.SnapshotWellFormed | types.ts:3-10 | in every snapshot a pending or generating step has neither image nor error, a completed step has only an image, and a failed step has only an error |
| Pipeline.TraceWellFormed | App.tsx:56-66 | every value a run publishes satisfies that per-step invariant |
| Pipeline.FinalShape | App.tsx:56-69 | after a run, the steps before the first failure are completed with their data URLs, the failed step carries the message, and later steps are exactly as in the registry |
| Pipeline.HaltedOutcome | App.tsx:62-69 | when call i is the first to throw, the run settles steps 0..i, publishes their trace and reports step i by title with its message |
| Pipeline.CompletedOutcome | App.tsx:56-72 | when every call succeeds, the run settles all steps and reports no error |
| Pipeline.AllCompletedIffNoFailure | App.tsx:56-72 | a run opens the gate exactly when no call threw |
| Pipeline.RunErrorIffFailure | App.tsx:62-69 | a run reports an error exactly when some call threw |
| App.ResetView | App.tsx:75-81 | a reset keeps the upload, restores the registry (so the grid hides), clears the error, and stops generating and materializing |
| App.ResetIdempotent | App.tsx:75-81 | resetting twice gives the same state as resetting once |
| App.AppState.constructor | App.tsx:18-25 | the initial state: no upload, the registry, not generating, no error, materialization idle; the logs hold that one render |
| App.AppState.UploadImage | App.tsx:27-31 | keeps the file and its object URL, then resets everything else, logging the registry with the reset flags |
| App.AppState.UpdateStepStatus | App.tsx:33-39 | the step list becomes the update by id of the old list and is published with the unchanged flags; nothing else changes |
| App.AppState.Generate | App.tsx:41-73 | without an upload it only sets the missing-image error. Otherwise the steps, error and gate become the run's outcome, it stops generating, materialization is idle, and it publishes exactly the run's trace; every state the run publishes before its last is shown as generating, without error and with materialization idle, and the last is shown with the final flags |
| App.AppState.RunSteps | App.tsx:56-72 | from the state a run sets up, the loop leaves the run's final steps and error, stops generating, extends the step log by the rest of the run's trace, and logs every render but the last as a run in progress and the last with the final flags |
| App.AppState.GenerateStep | App.tsx:56-70 | one pass of the loop: step i goes generating, then settled, and the step log grows by those two snapshots. It reports failure exactly when the call threw, and then records the summary and stops generating; the first render is logged as in progress, the second with the flags the step leaves |
| App.AppState.StepFailed | App.tsx:62-68 | the catch block: the step is marked failed with the error's message, the summary by title becomes the error, generation stops, and the failed step is logged with those flags |
| App.AppState.StopGenerating | App.tsx:72 | the run stops generating, nothing else changes, and the last logged render carries the new flags |
| App.RunningFlags | App.tsx:47-51 | n renders of a run in progress: generating, no error, materialization idle |
| App.RunningFlagsStep | App.tsx:56-70 | a step adds a render still in progress and one with the flags it leaves |
| App.RunningFlagsLast | App.tsx:72 | dropping the last render of the log leaves the renders before it |
| App.AppState.Reset | App.tsx:75-81 | the state becomes the reset of the old state, and the registry is published with the flags not generating, no error, materialization idle |
| App.AppState.Materialize | App.tsx:84-86 | materialization becomes processing; nothing else changes |
| App.AppState.MaterializeTimerFired | App.tsx:87-89 | when the timer fires, materialization becomes completed, whatever state it was in |
| App.RunShowsGrid | App.tsx:47-60 | the grid is hidden at the start of a run and shown from the first generating step to the end of the run |
| App.FullRunFinal | App.tsx:56-61 | after a fully successful run, step k is completed with the data URL of answer k |
| App.FullRunViews | components/Materializer.tsx:222-236 | after a fully successful run: the gate opens, no error is shown, and the viewer gets exactly the Front, 3/4, Opposite and Back views, opening on the 3/4 view at index 1 |
| App.FailedRun | App.tsx:62-69 | when call k is the first to throw: earlier steps are completed with their data URLs; step k is an error with the call's message; later steps are pending and untouched; the gate is closed; the error names step k's title |
| App.ThirdCallBlocked | App.tsx:62-69 | when the third call throws: the first two views are completed, the back view has failed, the last three are pending, and the error is "Failed at step: Back View. " followed by the message |
| App.DataUrlShape | App.tsx:60 | a result's data URL is the header, a comma and the payload; it starts with "data:"; extracting its payload returns the original payload |
| App.FullRunArchive | components/Materializer.tsx:155-167 | after a fully successful run, the archive holds one base64 file per step, in order, named after the step's title and holding exactly the model's payload |
| App.TitleFilenames | components/Materializer.tsx:158 | the six titles become opposite_view.png, front_view.png, back_view.png, 3_4_view.png, top_down_view.png and bottom_up_view.png |
| App.OppositeFilename | components/Materializer.tsx:158 | "Opposite View" is archived as opposite_view.png |
| App.FrontFilename | components/Materializer.tsx:158 | "Front View" is archived as front_view.png |
| App.BackFilename | components/Materializer.tsx:158 | "Back View" is archived as back_view.png |
| App.ThreeQuarterFilename | components/Materializer.tsx:158 | "3/4 View" is archived as 3_4_view.png |
| App.TopDownFilename | components/Materializer.tsx:158 | "Top-Down View" is archived as top_down_view.png |
| App.BottomUpFilename | components/Materializer.tsx:158 | "Bottom-Up View" is archived as bottom_up_view.png |
| App.ArchiveNamesDistinct | components/Materializer.tsx:147-158 | the original view and the six registry steps get seven pairwise distinct archive names |
| App.FullRunArchiveNames | components/Materializer.tsx:155-167 | after a fully successful run, the six step files carry the last six archive names |
| App.ArchiveNamesNotReadme | components/Materializer.tsx:134-141 | the names actually archived differ from the list the readme announces |
| App.FullRunReadme | components/Materializer.tsx:134-167 | a readme list taken from the entries of a successful run with an upload names exactly the seven archived image files; the list as written does not |
| GenerationGrid.HasStarted | components/GenerationGrid.tsx:10 | true exactly when some step is not pending |
| GenerationGrid.Cards | components/GenerationGrid.tsx:18-20 | one card per step, in step order, keyed by the step's id |
| GenerationGrid.Render | components/GenerationGrid.tsx:9-22 | renders nothing exactly when every step is pending; otherwise one card per step, in order |
| Materializer.Next | components/Materializer.tsx:52 | a forward step stays within the views |
| Materializer.Prev | components/Materializer.tsx:57 | a backward step stays within the views |
| Materializer.NextStep | components/Materializer.tsx:52 | a forward step goes to the following view, and from the last view to the first |
| Materializer.PrevStep | components/Materializer.tsx:57 | a backward step goes to the preceding view, and from the first view to the last |
| Materializer.PrevUndoesNext | components/Materializer.tsx:52-57 | a step back undoes a step forward, and the other way round |
| Materializer.Advance | components/Materializer.tsx:52 | any number of forward steps stays within the views |
| Materializer.AdvanceWithinTurn | components/Materializer.tsx:52 | within one turn, k forward steps add k and wrap past the end at most once |
| Materializer.FullTurn | components/Materializer.tsx:52 | n forward steps over n views return to the start |
| Materializer.FindIndex | components/Materializer.tsx:17 | the first view with the title, or -1 exactly when no view has it |
| Materializer.DefaultIndex | components/Materializer.tsx:16-19 | the first view with the default title, or 0 when there is none; within the views whenever there are any |
| Materializer.InteractiveViewer.constructor | components/Materializer.tsx:15-23 | the viewer opens on the default index, not dragging, with startX 0 |
| Materializer.InteractiveViewer.MouseDown | components/Materializer.tsx:29-33 | starts dragging from the cursor's x; the index is unchanged |
| Materializer.InteractiveViewer.MouseUp | components/Materializer.tsx:35-37 | stops dragging; the index and startX are unchanged |
| Materializer.InteractiveViewer.MouseLeave | components/Materializer.tsx:39-41 | stops dragging; the index and startX are unchanged |
| Materializer.InteractiveViewer.MouseMove | components/Materializer.tsx:43-60 | while dragging: a move beyond +50 goes to the next view, beyond -50 to the previous one, either restarts the drag at the cursor's x, and anything smaller changes nothing. When not dragging it changes nothing. The index stays within the views |
| Materializer.InteractiveViewer.CurrentView | components/Materializer.tsx:74-76 | the view on screen is one of the views |
| Materializer.StageCounter.constructor | components/Materializer.tsx:109 | the stage starts at 0 |
| Materializer.StageCounter.StatusChanged | components/Materializer.tsx:112-122 | when the status changes to anything but processing, the stage resets to 0; entering processing keeps it; the stage stays a valid index |
| Materializer.StageCounter.Tick | components/Materializer.tsx:115-117 | while processing, each tick advances the stage cyclically over the six stages |
| Materializer.StageCounter.StageLabel | components/Materializer.tsx:213 | the line shown is always one of the processing stages |
| Materializer.FindById | components/Materializer.tsx:223-226 | finds a step with the id, or nothing exactly when no step has it |
| Materializer.FindByIdFirst | components/Materializer.tsx:223-226 | `find` returns the first step with the id, whatever steps with the same id follow |
| Materializer.FindByIdUnique | components/Materializer.tsx:223-226 | with distinct ids, finding step k's id finds step k |
| Materializer.ViewsFor | components/Materializer.tsx:222-227 | at most one view per id |
| Materializer.ViewsForSound | components/Materializer.tsx:222-227 | every listed view is the shown view of a step with one of the ids |
| Materializer.ViewsForComplete | components/Materializer.tsx:222-227 | when every id has a shown step, nothing is dropped and the order of the ids is kept |
| Materializer.ViewsForNone | components/Materializer.tsx:222-227 | when no id has a shown step, the list is empty |
| Materializer.ShownView | components/Materializer.tsx:223-226 | one view for an id exactly when a step has the id and the step found shows an image |
| Materializer.ViewsForSingle | components/Materializer.tsx:222-227 | the list for a single id is that id's shown view, or nothing |
| Materializer.ViewsForAppend | components/Materializer.tsx:222-227 | the ids are handled one at a time: the list for two runs of ids is the list for the first followed by the list for the second |
| Materializer.RotationViews | components/Materializer.tsx:222-227 | at most four views |
| Materializer.RotationViewsByIds | components/Materializer.tsx:222-227 | the views are those of steps 2, 4, 1 and 3 in that order, each present exactly when that step shows an image, so a step without an image is skipped and the others keep their order |
| Materializer.RotationSkipsUnshown | components/Materializer.tsx:222-227 | with steps 1..3 shown and step 4 without an image, the views are steps 2, 1, 3, in that order |
| Materializer.RotationOfShownSteps | components/Materializer.tsx:222-227 | with steps 1..4 shown, the views are steps 2, 4, 1, 3, in that order |
| Materializer.FilenameStem | components/Materializer.tsx:158 | the stem has the title's length |
| Materializer.StemChars | components/Materializer.tsx:158 | the stem keeps the title's ASCII letters (lower-cased) and digits, puts '_' for every other character, and so contains only [a-z0-9_] |
| Materializer.FilenameByChars | components/Materializer.tsx:158 | a title whose sanitised characters spell a stem is archived as that stem + ".png" |
| Materializer.StemIdempotent | components/Materializer.tsx:158 | sanitising a stem again changes nothing |
| Materializer.IndexOf | components/Materializer.tsx:165 | the first position of the character, or -1 exactly when it is absent |
| Materializer.Base64Payload | components/Materializer.tsx:165 | the text after the first comma; the whole string when there is no comma |
| Materializer.PayloadAfterHeader | components/Materializer.tsx:165 | for a header without a comma, the payload after header + "," comes back whole |
| Materializer.AllImages | components/Materializer.tsx:147-153 | the list is the steps with at most one image before them: one exactly when the original URL is truthy, and then it is the "Original View" image of that URL |
| Materializer.ArchiveEntries | components/Materializer.tsx:155-168 | at most one entry per image |
| Materializer.ArchiveEntriesAppend | components/Materializer.tsx:155-168 | the entries of two lists are the entries of each, concatenated |
| Materializer.SkippedImage | components/Materializer.tsx:155-167 | an image without a truthy URL, or whose URL is neither blob: nor data:, adds nothing to the archive |
| Materializer.OriginalFilename | components/Materializer.tsx:149-158 | the uploaded image is archived as original_view.png |
| Materializer.OriginalEntryFirst | components/Materializer.tsx:147-163 | with a blob original URL, the original's fetched entry comes first, then the steps' entries; without a truthy URL, only the steps' entries |
| Materializer.DataUrlEntry | components/Materializer.tsx:164-166 | a step with a data URL adds one base64 entry with its payload, named after its title |
| Materializer.OneEntryEach | components/Materializer.tsx:155-167 | images that each contribute exactly one known entry give exactly those entries, in order |
| Materializer.DataUrlEntries | components/Materializer.tsx:155-167 | steps that all carry data URLs add one base64 entry each, in order |
| Materializer.CollectArchiveEntries | components/Materializer.tsx:147-168 | the loop collects exactly the entry list of the images, with the original first when its URL is truthy |
| Materializer.ReadmeNamesAbsentFile | components/Materializer.tsx:134-141 | the readme announces 3-4_view.png, but the 3/4 view is archived as 3_4_view.png and no title produces 3-4_view.png |
| Materializer.ReadmeAssetList | components/Materializer.tsx:134-141 | a readme list taken from the entries names each archived file once, in order |

## Left out

- The image model (services/geminiService.ts) is an oracle: a script of answers, one per registry step. Its SDK configuration and the wording of its errors, including the "Gemini API Error: " prefix, are opaque messages here.
- App.AppState.Generate: assumes that reading the upload as base64 succeeds. That helper, fileToBase64, is not part of this model. If it threw, the source would leave `isGenerating` true; the model does not capture this.
- App.AppState.Generate: runs atomically. The source awaits each call, so an upload or reset during a run could interleave with the old loop's writes, since runs carry no token. This concurrency is not modelled.
- App.AppState.MaterializeTimerFired: the 7500 ms delay is not modelled, only the transition. The transition is unconditional, as in the source: a timer that fires after a reset still sets completed.
- Materializer.StageCounter.Tick: the 1200 ms interval is not modelled, only the step each tick makes.
- JSZip packaging, fetching blob: URLs, the download link, `alert`, console logging and the readme's date are left out. The archive's images are modelled as its list of image entries: name, then URL or base64 text.
- Materializer.CollectArchiveEntries: the `readme.txt` file added to the zip before the images (components/Materializer.tsx:145) is not part of the entry list; the readme's asset list is modelled separately by Materializer.ReadmeAssetNames and Materializer.ReadmeAssetList.
- Materializer.InteractiveViewer.constructor: the effect that resets the index when the views or the default title change while mounted is not modelled; a viewer is built once per set of views.
- Materializer.InteractiveViewer.MouseMove: requires at least one view, because the source attaches the handlers only when there is one.
- StepStore.UpdateById: the patch covers the `imageUrl` and `error` keys, the only ones the source passes. A general `Partial<GenerationStep>` could override other fields too.
- Materializer.FilenameStem: exact for ASCII titles only. `toLowerCase` on other characters can change the length, and no title in the registry uses them.
- App.AppState.Generate: requires one scripted answer per registry step. A run that stops early never reads the answers after the failing one.
- The rendering of the step cards, the spinner and the uploader's drag-and-drop are left out. The uploader's only logic is an `image/` type check.

## Findings

| source | as written | input that shows it | evidently intended | confidence | as-written member | corrected member |
|---|---|---|---|---|---|---|
| components/Materializer.tsx:139 | the readme inside the archive lists `3-4_view.png` | any successful run: the 3/4 view is written as `3_4_view.png`, because the sanitiser turns '/' into '_' | the readme lists the names actually archived | high; not executed | Materializer.ReadmeNamesAbsentFile | App.FullRunReadme |
