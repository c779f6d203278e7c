// The step status store: the ordered list of step records, updated by id
// (App.tsx, updateStepStatus and allStepsCompleted).

module StepStore {
  import opened Types

  /**
   * The optional `data` argument of an update: the step fields a caller
   * overrides.  `Some(v)` means the key is present with value `v`, `None`
   * that the key is absent and the step keeps its own value.
   */
  datatype StepPatch = StepPatch(imageUrl: Option<string>, error: Option<string>)

  /** An update that passes no `data`. */
  const NoPatch := StepPatch(None, None)

  /** `{ ...step, status, ...data }`: the new status, then the patch's fields. */
  function Patched(step: GenerationStep, status: GenerationStatus, patch: StepPatch): GenerationStep
  {
    step.(status := status,
          imageUrl := if patch.imageUrl.Some? then Some(patch.imageUrl.value) else step.imageUrl,
          error := if patch.error.Some? then Some(patch.error.value) else step.error)
  }

  /**
   * updateStepStatus: maps over the list, replacing every record whose id
   * matches and leaving all others as they were, in the same order.
   */
  function UpdateById(steps: seq<GenerationStep>, id: int, status: GenerationStatus, patch: StepPatch)
    : (r: seq<GenerationStep>)
    ensures |r| == |steps|
    ensures forall i :: 0 <= i < |steps| && steps[i].id != id ==> r[i] == steps[i]
    ensures forall i :: 0 <= i < |steps| && steps[i].id == id ==>
              r[i].id == id && r[i].title == steps[i].title && r[i].prompt == steps[i].prompt &&
              r[i].status == status &&
              r[i].imageUrl == (if patch.imageUrl.Some? then patch.imageUrl else steps[i].imageUrl) &&
              r[i].error == (if patch.error.Some? then patch.error else steps[i].error)
  {
    if steps == [] then []
    else
      [if steps[0].id == id then Patched(steps[0], status, patch) else steps[0]]
      + UpdateById(steps[1..], id, status, patch)
  }

  /** With distinct ids, an update by the id of step k rewrites step k alone. */
  lemma UpdateSingleStep(steps: seq<GenerationStep>, k: nat, status: GenerationStatus, patch: StepPatch)
    requires DistinctIds(steps)
    requires k < |steps|
    ensures UpdateById(steps, steps[k].id, status, patch) == steps[k := Patched(steps[k], status, patch)]
  {
    var r := UpdateById(steps, steps[k].id, status, patch);
    forall i | 0 <= i < |steps|
      ensures r[i] == steps[k := Patched(steps[k], status, patch)][i]
    {
      if i != k {
        if i < k { assert steps[i].id != steps[k].id; } else { assert steps[k].id != steps[i].id; }
      }
    }
  }

  /** An update for an id no step carries leaves the list as it was. */
  lemma UpdateUnknownId(steps: seq<GenerationStep>, id: int, status: GenerationStatus, patch: StepPatch)
    requires forall i :: 0 <= i < |steps| ==> steps[i].id != id
    ensures UpdateById(steps, id, status, patch) == steps
  {
  }

  /** Repeating an update changes nothing more. */
  lemma UpdateIdempotent(steps: seq<GenerationStep>, id: int, status: GenerationStatus, patch: StepPatch)
    ensures UpdateById(UpdateById(steps, id, status, patch), id, status, patch) == UpdateById(steps, id, status, patch)
  {
  }

  /** allStepsCompleted: `every` step has status completed. */
  function AllCompleted(steps: seq<GenerationStep>): (r: bool)
    ensures r <==> forall i :: 0 <= i < |steps| ==> steps[i].status == Completed
  {
    if steps == [] then true
    else steps[0].status == Completed && AllCompleted(steps[1..])
  }
}
