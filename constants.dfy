// The fixed registry of generation steps (constants.ts).

module Constants {
  import opened Types

  // The prompt sent to the image model for each step, verbatim.
  const OppositePrompt: string := @"CONTEXT: You are an AI assistant creating an orthographic character turnaround sheet for 3D modeling.
SOURCE IMAGE: The user has provided a profile (side) view of a character.
TASK: Generate the opposite profile view of the character, showing them looking in the reverse direction.
CRITICAL RULES:
1. **Style Consistency:** Maintain 100% stylistic consistency with the source image. This includes line art, color palette, shading style, and all character features.
2. **No Changes:** DO NOT add, remove, or alter any details of the character's design. The output must be the exact same character from a different angle.
3. **Background:** The background must be a solid, neutral color."

  const FrontPrompt: string := @"CONTEXT: You are an AI assistant creating an orthographic character turnaround sheet for 3D modeling.
SOURCE IMAGE: The user has provided a single image of a character.
TASK: Generate a perfectly symmetrical, front-on orthographic view of the character, as if they are looking directly at the camera.
CRITICAL RULES:
1. **Style Consistency:** Maintain 100% stylistic consistency with the source image. This includes line art, color palette, shading style, and all character features.
2. **No Changes:** DO NOT add, remove, or alter any details of the character's design. The output must be the exact same character from a different angle.
3. **Background:** The background must be a solid, neutral color."

  const BackPrompt: string := @"CONTEXT: You are an AI assistant creating an orthographic character turnaround sheet for 3D modeling.
SOURCE IMAGE: The user has provided a single image of a character.
TASK: Generate a perfectly symmetrical, rear orthographic view of the character's head and shoulders from directly behind.
CRITICAL RULES:
1. **Style Consistency:** Maintain 100% stylistic consistency with the source image. This includes line art, color palette, shading style, and all character features.
2. **No Changes:** DO NOT add, remove, or alter any details of the character's design. The output must be the exact same character from a different angle.
3. **Background:** The background must be a solid, neutral color."

  const ThreeQuarterPrompt: string := @"CONTEXT: You are an AI assistant creating an orthographic character turnaround sheet for 3D modeling.
SOURCE IMAGE: The user has provided a single image of a character.
TASK: Generate a three-quarters (3/4) view. The character's head should be turned to face partially towards the viewer, midway between a front and side view.
CRITICAL RULES:
1. **Style Consistency:** Maintain 100% stylistic consistency with the source image. This includes line art, color palette, shading style, and all character features.
2. **No Changes:** DO NOT add, remove, or alter any details of the character's design. The output must be the exact same character from a different angle.
3. **Background:** The background must be a solid, neutral color."

  const TopDownPrompt: string := @"CONTEXT: You are an AI assistant creating an orthographic character turnaround sheet for 3D modeling.
SOURCE IMAGE: The user has provided a single image of a character.
TASK: Generate an orthographic top-down view, looking directly down at the top of the character's head.
CRITICAL RULES:
1. **Style Consistency:** Maintain 100% stylistic consistency with the source image. This includes line art, color palette, shading style, and all character features.
2. **No Changes:** DO NOT add, remove, or alter any details of the character's design. The output must be the exact same character from a different angle.
3. **Background:** The background must be a solid, neutral color."

  const BottomUpPrompt: string := @"CONTEXT: You are an AI assistant creating a character reference sheet for 3D modeling.
SOURCE IMAGE: The user has provided an image of a character.
TASK: Generate a ""worm's-eye view"" of the character. This is an orthographic bottom-up view, looking directly up from underneath the character's chin.
CRITICAL RULES:
1. **Upright Orientation:** The character MUST remain upright. DO NOT rotate or flip the character upside down. The perspective is from below, looking up at the character.
2. **Style Consistency:** Maintain 100% stylistic consistency with the source image. This includes line art, color palette, shading style, and all character features.
3. **No Changes:** DO NOT add, remove, or alter any details of the character's design. The output must be the exact same character from a different angle.
4. **Background:** The background must be a solid, neutral color."

  /** Builds a registry entry in its initial state: pending, no image, no error. */
  function InitialStep(id: int, title: string, prompt: string): GenerationStep
  {
    GenerationStep(id, title, prompt, Pending, None, None)
  }

  /** INITIAL_GENERATION_STEPS: the six views, in the order a run attempts them. */
  function InitialGenerationSteps(): seq<GenerationStep>
  {
    [
      InitialStep(1, "Opposite View", OppositePrompt),
      InitialStep(2, "Front View", FrontPrompt),
      InitialStep(3, "Back View", BackPrompt),
      InitialStep(4, "3/4 View", ThreeQuarterPrompt),
      InitialStep(5, "Top-Down View", TopDownPrompt),
      InitialStep(6, "Bottom-Up View", BottomUpPrompt)
    ]
  }
  
  /** The titles of the registry, in registry order. */
  const RegistryTitles: seq<string> :=
    ["Opposite View", "Front View", "Back View", "3/4 View", "Top-Down View", "Bottom-Up View"]

  /** Six steps with ids 1..6 in ascending order, hence pairwise distinct. */
  lemma RegistryIds()
    ensures |InitialGenerationSteps()| == 6
    ensures forall i :: 0 <= i < 6 ==> InitialGenerationSteps()[i].id == i + 1
    ensures DistinctIds(InitialGenerationSteps())
  {
  }

  /** Every registry step starts pending, with a null image and no error. */
  lemma RegistryUntouched()
    ensures forall i :: 0 <= i < |InitialGenerationSteps()| ==> Untouched(InitialGenerationSteps()[i])
    ensures AllWellFormed(InitialGenerationSteps())
  {
  }

  /** The registry's titles are the six view names, in order. */
  lemma RegistryTitlesInOrder()
    ensures |InitialGenerationSteps()| == |RegistryTitles|
    ensures forall i :: 0 <= i < |RegistryTitles| ==> InitialGenerationSteps()[i].title == RegistryTitles[i]
  {
  }

  /** Every prompt sent to the image model is a non-empty string. */
  lemma RegistryPromptsNonEmpty()
    ensures forall i :: 0 <= i < |InitialGenerationSteps()| ==> |InitialGenerationSteps()[i].prompt| > 0
  {
  }

  /**
   * What the rest of the application relies on about the registry: one
   * untouched step per title, in title order, with ids 1, 2, ... .
   */
  predicate RegistryShape(steps: seq<GenerationStep>)
  {
    |steps| == |RegistryTitles| &&
    forall i :: 0 <= i < |steps| ==>
      steps[i].id == i + 1 && steps[i].title == RegistryTitles[i] && Untouched(steps[i])
  }

  lemma RegistryHasShape()
    ensures RegistryShape(InitialGenerationSteps())
  {
    RegistryTitlesInOrder();
    RegistryIds();
    RegistryUntouched();
  }

  /** Ids that count up from 1 are pairwise distinct. */
  lemma ShapeDistinct(steps: seq<GenerationStep>)
    requires RegistryShape(steps)
    ensures DistinctIds(steps)
  {
  }
}
