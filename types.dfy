// The shared record types of the application (types.ts).

module Types {

  /** A value that may be absent: TypeScript's `T | null` and optional fields. */
  datatype Option<+T> = None | Some(value: T)

  /** The four states a generation step goes through during one run. */
  datatype GenerationStatus = Pending | Generating | Completed | Error

  /**
   * One requested view.  `id`, `title` and `prompt` come from the registry;
   * `status`, `imageUrl` (null until the view exists) and `error` (absent
   * unless the step failed) are the per-run state.
   */
  datatype GenerationStep = GenerationStep(
    id: int,
    title: string,
    prompt: string,
    status: GenerationStatus,
    imageUrl: Option<string>,
    error: Option<string>)

  /**
   * The state of the simulated photogrammetry stage.  The source's
   * 'completed' is called `Materialized` here, so that it does not clash
   * with `GenerationStatus.Completed`.
   */
  datatype MaterializationStatus = Idle | Processing | Materialized

  /**
   * The per-step invariant of a run: a pending or generating step carries
   * neither a result nor an error, a completed step carries exactly a
   * result and a failed step exactly an error message.
   */
  predicate WellFormedStep(step: GenerationStep)
  {
    match step.status
    case Pending => step.imageUrl.None? && step.error.None?
    case Generating => step.imageUrl.None? && step.error.None?
    case Completed => step.imageUrl.Some? && step.error.None?
    case Error => step.error.Some? && step.imageUrl.None?
  }

  predicate AllWellFormed(steps: seq<GenerationStep>)
  {
    forall i :: 0 <= i < |steps| ==> WellFormedStep(steps[i])
  }

  /** No two steps share an id, so an update by id touches at most one step. */
  predicate DistinctIds(steps: seq<GenerationStep>)
  {
    forall i, j :: 0 <= i < j < |steps| ==> steps[i].id != steps[j].id
  }

  /** A step that no run has touched yet. */
  predicate Untouched(step: GenerationStep)
  {
    step.status == Pending && step.imageUrl.None? && step.error.None?
  }
}
