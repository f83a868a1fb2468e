/** Types shared by the whole model. */
module Common {

  /** A value that may be absent; `None` stands for a C null pointer. */
  datatype Option<T> = None | Some(value: T)

  /** A signed 16-bit PCM sample, as the speech engine consumes it. */
  newtype int16 = x: int | -0x8000 <= x < 0x8000

  /** One byte of a raw PCM file buffer. */
  newtype byte = x: int | 0 <= x < 0x100

  /** A floating-point audio sample of the DSP path (kept exact, as a real). */
  type Sample = real

  function Min(a: int, b: int): int { if a < b then a else b }

  function Max(a: real, b: real): real { if a < b then b else a }

  /**
   * Regrouping a concatenation. Stated once as a lemma because asserting it
   * inline is costly for the solver; used by Transcript.SegmentsAppend and
   * HotWords.RegistrationStep.
   */
  lemma AppendAssoc<T>(a: seq<T>, b: seq<T>, c: seq<T>)
    ensures a + (b + c) == (a + b) + c
  {
  }
}
