/** Tags and tuning constants shared by the whole pipeline. */
module Parameters {
  /** Dependency label carried by the root token of a sentence. */
  const Root: string := "ROOT"

  /** Part-of-speech tags that mark a preposition. */
  const Prep: seq<string> := ["IN"]

  /** The three recognised names of a context mode. */
  const SentenceMode: string := "sentence"
  const WindowMode: string := "window"
  const TreeMode: string := "semantic_tree"

  /** A lemma takes part in the model only if its count lies in [WordBottomBar, WordTopBar). */
  const WordTopBar: int := 30
  const WordBottomBar: int := 5

  /** A feature is eligible when it occurs at least FeatureFreqBar times. */
  const FeatureFreqBar: int := 1

  /** A (lemma, feature) count below CoOccurrenceBar is ignored by the norm. */
  const CoOccurrenceBar: int := 1

  /** The frequency band of lemmas that enter the model. */
  predicate InBand(count: int)
  {
    WordBottomBar <= count < WordTopBar
  }
}
