// The grid of step cards (components/GenerationGrid.tsx): hidden until some
// step has left `pending`, then one card per step, in list order.

module GenerationGrid {
  import opened Types

  /** `hasStarted`: some step is not pending. */
  function HasStarted(steps: seq<GenerationStep>): (r: bool)
    ensures r <==> exists i :: 0 <= i < |steps| && steps[i].status != Pending
  {
    if steps == [] then false
    else steps[0].status != Pending || HasStarted(steps[1..])
  }

  /** The props of one GenerationStepCard: its React key and the step it shows. */
  datatype Card = Card(key: int, step: GenerationStep)

  function Cards(steps: seq<GenerationStep>): (cards: seq<Card>)
    ensures |cards| == |steps|
    ensures forall i :: 0 <= i < |steps| ==> cards[i] == Card(steps[i].id, steps[i])
  {
    if steps == [] then []
    else [Card(steps[0].id, steps[0])] + Cards(steps[1..])
  }

  /** What the grid renders: nothing (`None`) before the run has started, else the cards. */
  function Render(steps: seq<GenerationStep>): (r: Option<seq<Card>>)
    ensures r.None? <==> forall i :: 0 <= i < |steps| ==> steps[i].status == Pending
    ensures r.Some? ==> |r.value| == |steps|
    ensures r.Some? ==> forall i :: 0 <= i < |steps| ==> r.value[i].step == steps[i] && r.value[i].key == steps[i].id
  {
    if HasStarted(steps) then Some(Cards(steps)) else None
  }
}
