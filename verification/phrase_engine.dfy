/**
  Phrase-based pitch modulation.  The shape arithmetic (floating-point phase,
  sine, rounding) is outside this model and is passed in as `shapeOffset`;
  what is modelled is the guard that switches modulation off.
 */
module PhraseEngine {
  import opened Models

  /** The shape arithmetic: offset in semitones for a shape, step, phrase length, octave range and amount. */
  type ShapeOffset = (PhraseShape, int, int, int, real) -> int

  /** No modulation unless the phrase has steps, the amount is positive and the range is non-zero. */
  predicate Modulates(totalSteps: int, range: int, amount: real) {
    totalSteps > 0 && amount > 0.0 && range != 0
  }

  /** `pitchOffset`: zero whenever modulation is off, otherwise whatever the shape gives. */
  function PitchOffset(shapeOffset: ShapeOffset, shape: PhraseShape, step: int, totalSteps: int, range: int, amount: real): (r: int)
    ensures !Modulates(totalSteps, range, amount) ==> r == 0
    ensures Modulates(totalSteps, range, amount) ==> r == shapeOffset(shape, step, totalSteps, range, amount)
  {
    if !(totalSteps > 0 && amount > 0.0 && range != 0) then 0
    else shapeOffset(shape, step, totalSteps, range, amount)
  }

  /** The default melodic settings never modulate, whatever the shape arithmetic is. */
  lemma DefaultNeverModulates(shapeOffset: ShapeOffset, step: int, totalSteps: int)
    ensures PitchOffset(shapeOffset, DefaultMelodic.phraseShape, step, totalSteps,
                        DefaultMelodic.phraseRange, DefaultMelodic.voicingAmount) == 0
  {
  }
}
