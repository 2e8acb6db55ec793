# nlp-pmi: context extraction, co-occurrence counting and corpus reading in Dafny

This project models the algorithmic core of nlp-pmi, a distributional-semantics toolkit. It
reads a dependency-parsed corpus, turns every token into a sample `(word, lemma, features)`
and counts which context features co-occur with which lemmas. The model covers three parts.

- **Context extraction** (`utils/sentence.py`, module `Sentences`). A sentence holds four
  parallel lists: words, lemmas, preposition flags and dependency edges `(head index, label)`.
  It yields one sample per token in one of three modes.
  - `"sentence"`: every other lemma of the sentence.
  - `"window"`: the Python slices `lemmas[i-2:i] + lemmas[i+1:i+3]`. Python's slicing is
    modelled exactly, so token 1 has no left neighbour: `lemmas[-1:1]` is empty.
  - `"semantic_tree"`: each non-ROOT edge `(p, r)` of token `i` appends a SON feature at `p`
    and a PARENT feature at `i`. When `p` is a preposition whose own head is not -1, the same
    pair is also appended between `i` and the grandparent. Head indices follow Python's
    negative indexing.

  The tree traversal (`ParseSemanticTree`) is imperative: one list per token, in an array,
  appended to edge by edge. It is proved equal to a functional specification, `TreeFeatures`.
  That specification is the sequence of appends the traversal performs, filtered per token.
  Any other mode name yields no samples.
- **Corpus reader** (`utils/data_loader.py`, module `DataLoader`, with `PyText` for Python's
  `str.split()` and `int()`).
  - A row that is exactly `"\n"` closes the current sentence.
  - Any other row must split into exactly ten fields with an integer head in field 6 (fields counted from 0);
    otherwise the read stops with `Malformed(row)`, where Python raises `ValueError`.
  - The head becomes 0-based, a POS tag in `["IN"]` marks a preposition, and surface-word
    counts and the token total are kept.

  The reading loop (`ReadFile`) is proved against a row-by-row state machine (`Step`, `Run`).
  Consistency, counting and a render/read round trip are proved about that state machine. The
  loader object flattens the samples of its sentences (`Data`).
- **Co-occurrence tables** (`Part1_PMI_Semantics/pmi_calculator.py`, module `Pmi`). The
  `PMICalculator` class has the source's dictionaries as map fields:
  - `contextVectors`: lemma → feature → count;
  - `ftrCount`: feature → count;
  - `ftrToLemma`: the reverse index;
  - `ftrList`: eligibility flags;
  - `normWords`: squared norms.

  Its methods fill these maps in place, as `_calculate_context` and `_norm` do. Every table
  is specified by the flat sequence of counted `(lemma, feature)` occurrences (`Pairs`), and
  the object invariant `Valid` ties each table to that sequence. The query guard of
  `calc_cosin_dist` is modelled on its own.

Despite the module's name, the code computes no PMI score and keeps no marginal totals.
Stored scores are raw counts, and the reverse index holds the value 1 for every entry,
because line 33 guards the increment. The model follows the code in all of this.
`parameters.dfy` holds the constants of `utils/parameters.py`.

## Model

| member | source | states |
|---|---|---|
| Sentences.SliceBound | utils/sentence.py:44-48 | a slice bound within [0, n] denotes itself, a negative one down to -n counts from the end, a bound above n becomes n and one below -n becomes 0 |
| Sentences.PySlice | utils/sentence.py:44-48 | Python's s[a:b]: the elements from the normalised start up to the normalised end, of length end - start when the end lies past the start, empty exactly when the end does not lie past the start, and s[a..b] for in-range bounds |
| Sentences.SentenceContext | utils/sentence.py:44 | the co-occurring lemmas of sentence mode, `lemmas[:i] + lemmas[i+1:]` with Python slicing (properties in SentenceContextExcludesSelf) |
| Sentences.WindowContext | utils/sentence.py:48 | the co-occurring lemmas of window mode, `lemmas[i-2:i] + lemmas[i+1:i+3]` with Python slicing (properties in WindowContextShape and WindowContextSize) |
| Sentences.PyIndex | utils/sentence.py:29 | a legal Python index (-n <= k < n) denotes a position below n; a non-negative index denotes itself and a negative index k denotes k + n |
| Sentences.SentenceContextExcludesSelf | utils/sentence.py:44 | sentence mode for token i is lemmas[..i] + lemmas[i+1..]: n-1 lemmas, the multiset of all lemmas minus one copy of lemma i |
| Sentences.WindowContextShape | utils/sentence.py:48 | window mode for token i is lemmas[i-2..i] only when i >= 2 (else nothing), followed by lemmas[i+1 .. min(n, i+3)] |
| Sentences.WindowContextSize | utils/sentence.py:48 | a window holds at most four lemmas, and exactly (2 if i >= 2 else 0) + min(n, i+3) - (i+1) |
| Sentences.AsFeatures | utils/sentence.py:44-48 | in sentence and window modes the k-th feature is the k-th co-occurring lemma itself |
| Sentences.HeadOf | utils/sentence.py:29-30 | the head index of a non-ROOT edge denotes a token of the sentence |
| Sentences.GrandOf | utils/sentence.py:33-38 | the grandparent index of a bridged edge denotes a token of the sentence |
| Sentences.Emits | utils/sentence.py:26-38 | edge i performs no append when its label is ROOT, four when bridged over a preposition, two otherwise, all aimed at tokens of the sentence |
| Sentences.Appends | utils/sentence.py:24 | the appends of edges 0 .. k-1, in traversal order, are all aimed at tokens of the sentence |
| Sentences.TreeFeatures | utils/sentence.py:22-39 | tree mode gives one feature list per token |
| Sentences.ParseSemanticTree | utils/sentence.py:22-39 | the traversal over an array of per-token lists returns exactly TreeFeatures(s) |
| Sentences.EmptyLists | utils/sentence.py:23 | the traversal starts from a fresh array with one empty list per token |
| Sentences.TraverseEdge | utils/sentence.py:24-38 | one loop iteration turns the lists of edges 0 .. i-1 into those of edges 0 .. i |
| Sentences.AppendEdge | utils/sentence.py:25-38 | edge i leaves every token's list as it was, followed by the features edge i aims at that token, in order |
| Sentences.AppendPair | utils/sentence.py:29-30 | appending x to token a's list and then y to token b's list changes no other list |
| Sentences.AppendsNext | utils/sentence.py:24 | each token's list after edge i is its list before edge i followed by edge i's features for it |
| Sentences.SelectAppend | utils/sentence.py:24 | performing two runs of appends one after the other builds each list from the first run's features followed by the second's |
| Sentences.SelectEmits | utils/sentence.py:26-38 | what a ROOT, an ordinary and a bridged edge add to one token's list, append by append |
| Sentences.AppendsKeep | utils/sentence.py:24 | the appends of edge i are among those of edges 0 .. k-1 whenever i < k |
| Sentences.AppendsSound | utils/sentence.py:24-27 | every append among edges 0 .. k-1 comes from a non-ROOT edge |
| Sentences.TreeFeaturesKeep | utils/sentence.py:29-38 | every feature an edge appends to a token is in that token's tree-mode list |
| Sentences.EdgeFeaturesPresent | utils/sentence.py:29-38 | a non-ROOT edge (p, r) at token i puts (lemma i, r, SON) in p's list and (lemma p, r, PARENT) in i's; a bridged edge does the same between i and the grandparent, with i's own label r |
| Sentences.TreeFeaturesSound | utils/sentence.py:24-38 | every feature in a token's tree-mode list was appended to that token by some non-ROOT edge |
| Sentences.AppendsCount | utils/sentence.py:24-38 | edges 0 .. k-1 perform two appends per non-ROOT edge plus two per bridged edge |
| Sentences.TreeFeatureCount | utils/sentence.py:26-38 | tree mode yields 2 x (non-ROOT edges) + 2 x (bridged edges) features in total |
| Sentences.Semantics | utils/sentence.py:41-53 | the samples of one sentence: the three independent mode tests, each contributing one (word, lemma, features) sample per token when it matches (properties in SemanticsShape) |
| Sentences.SemanticsShape | utils/sentence.py:41-53 | a recognised mode yields one sample per token, the i-th being (words[i], lemmas[i], its features); any other mode name yields nothing |
| Sentences.WordsSemantics | utils/sentence.py:41-53 | the three mode tests, run one after the other, produce exactly Semantics(s, mode) |
| Sentences.GarbageCanAppends | utils/sentence.py:6-8 | on the example tree [(2, det), (2, amod), (3, nsubj), (-1, ROOT)] the traversal performs six appends, none for the ROOT edge |
| Sentences.GarbageCanLists | utils/sentence.py:24-38 | those six appends give the four lists the code builds for the demo sentence; "a" receives the parent's lemma "garbage" |
| Sentences.GarbageCanTree | utils/sentence.py:22-39 | tree mode on "a yellow garbage can" gives exactly the lists the code builds for it |
| Sentences.GarbageCanWindow | utils/sentence.py:57-64 | window mode on the same sentence: "yellow" sees only "garbage" and "can", and "garbage" sees "a", "yellow" and "can" |
| Sentences.SatOnMatAppends | utils/sentence.py:32-38 | on "sat on mat", where "mat" hangs on the preposition "on", the pobj edge is bridged and the prep edge is not |
| Sentences.SatOnMatLists | utils/sentence.py:32-38 | the six appends of that example give each token its list |
| Sentences.SatOnMatBridge | utils/sentence.py:32-38 | tree mode links "mat" and "sit" both ways with the label pobj, besides the edges to "on" |
| PyText.IsSpace | utils/data_loader.py:46 | the characters Python's `str.isspace()` accepts, which are the separators of `str.split()` with no argument |
| PyText.RunLength | utils/data_loader.py:46 | the run of non-space characters at the start of a string ends at a space or at the end |
| PyText.Split | utils/data_loader.py:46 | every field str.split() returns is non-empty and free of whitespace |
| PyText.SplitJoin | utils/data_loader.py:46 | splitting fields joined by single spaces and ended by a line break gives back exactly those fields |
| PyText.SplitField | utils/data_loader.py:46 | a field followed by a space or by nothing splits off as the first field |
| PyText.SplitSpace | utils/data_loader.py:46 | a leading whitespace character does not change the split |
| PyText.ParseInt | utils/data_loader.py:53 | Python's `int()` on a field: an optional sign followed by decimal digits gives their value, anything else fails (round trip in ParseIntToString) |
| PyText.NatToString | utils/data_loader.py:53 | the decimal spelling of a natural number is a non-empty digit string |
| PyText.DigitsOfNat | utils/data_loader.py:53 | the digits of a natural number's decimal spelling have that number as their value |
| PyText.ParseIntToString | utils/data_loader.py:53 | int() reads back any integer's decimal spelling, and that spelling is a single field |
| DataLoader.ParseRow | utils/data_loader.py:46-53 | a token row must split into exactly ten fields with an integer in field 6 (counted from 0); it yields word, lemma, preposition flag (tag in PREP) and the 0-based head with the label (round trip in RenderRowReads) |
| DataLoader.Step | utils/data_loader.py:36-53 | one row of the reading loop: a separator finishes the open sentence, a token row is counted and appended to it, any other row stops the read with that row |
| DataLoader.Run | utils/data_loader.py:35-53 | the reading loop over all rows, stopping at the first malformed one (properties in RunSucceeds, RunCounts, RunConsistent) |
| DataLoader.Finish | utils/data_loader.py:54 | the read returns the total, the word counts and the finished sentences; the open sentence is dropped |
| DataLoader.Push | utils/data_loader.py:50-53 | appending a token to all four lists keeps them equally long |
| DataLoader.ReadFile | utils/data_loader.py:25-54 | the reading loop returns (total, word counts, sentences) of the row-by-row state machine, or the first malformed row |
| DataLoader.RunSucceeds | utils/data_loader.py:35-53 | a read succeeds exactly when every row is a separator or a ten-field row with an integer head; otherwise it reports the first row that is not |
| DataLoader.RunCounts | utils/data_loader.py:35-48 | a read keeps the sentences already finished and adds one per separator row; the total grows by one per token row, including rows of a trailing unfinished sentence; each surface word's count grows by the number of token rows that carry it |
| DataLoader.RunAppend | utils/data_loader.py:35 | reading two stretches of rows is reading the first, then the second from where the first left off |
| DataLoader.TrailingRowsDropped | utils/data_loader.py:35-44 | token rows after the last separator add no sentence to the result |
| DataLoader.NoBlankRows | utils/data_loader.py:36 | rows none of which is "\n" close no sentence |
| DataLoader.TokenTotalAppend | utils/data_loader.py:38 | the token count of two runs of sentences is the sum of their token counts |
| DataLoader.InitConsistent | utils/data_loader.py:26-34 | the reader's initial state is consistent |
| DataLoader.CountBump | utils/data_loader.py:48 | raising one word's count by 1 raises the sum of all counts by 1 |
| DataLoader.StepConsistent | utils/data_loader.py:35-53 | each row keeps the sentences' lists parallel, the counts positive, their sum equal to the total, and the total equal to the tokens in finished and open sentences |
| DataLoader.RunConsistent | utils/data_loader.py:35-53 | consistency holds after any successful read from a consistent state |
| DataLoader.ReadFileSound | utils/data_loader.py:25-54 | after a successful read every sentence has parallel lists, the word counts sum to the total, the total is the number of token rows, there is one sentence per separator row, and the sentences hold every counted token except the trailing ones |
| DataLoader.RenderRowReads | utils/data_loader.py:46-53 | a row written with 1-based head h+1 and tag IN (or NN) reads back as word, lemma, preposition flag and head h |
| DataLoader.PushPrefix | utils/data_loader.py:50-53 | appending token k to the first k tokens of a sentence gives its first k+1 tokens |
| DataLoader.StepRendered | utils/data_loader.py:46-53 | reading a rendered token row appends its token to the open sentence and finishes none |
| DataLoader.RunTokenRows | utils/data_loader.py:35-53 | reading a sentence's remaining token rows completes the open sentence and finishes none |
| DataLoader.RunCons | utils/data_loader.py:35 | reading a first row and then the rest is one step followed by a read of the rest, or stops at that row |
| DataLoader.RunBody | utils/data_loader.py:35-53 | reading a sentence's token rows from an empty open sentence leaves exactly that sentence open |
| DataLoader.RunSentence | utils/data_loader.py:36-44 | reading a sentence's rows and its separator finishes exactly that sentence and starts an empty one |
| DataLoader.RunRenderFirst | utils/data_loader.py:35-44 | reading the rendering of several sentences first finishes the first of them |
| DataLoader.RunRender | utils/data_loader.py:35-44 | reading the rendering of sentences appends exactly those sentences and leaves no open sentence |
| DataLoader.ReadRendered | utils/data_loader.py:25-54 | reading back the rendering of any renderable sentences returns exactly those sentences, with as many samples counted as they hold tokens |
| DataLoader.BlankBlank | utils/data_loader.py:36-44 | one token row followed by two separators gives the one-token sentence and then an empty sentence |
| DataLoader.AllSamplesLength | utils/data_loader.py:10-13 | a recognised mode yields one sample per token of the loaded sentences; any other mode yields none |
| DataLoader.SemanticsDataLoader.constructor | utils/data_loader.py:7-8 | the loader holds the total, word counts and sentences the read returns, with parallel lists and counts summing to the total |
| DataLoader.SemanticsDataLoader.Data | utils/data_loader.py:10-13 | the sample stream is the concatenation, in sentence order, of each sentence's samples |
| DataLoader.SamplesPerToken | utils/data_loader.py:10-13 | for a loaded corpus a recognised mode yields as many samples as tokens were counted, less those after the last separator |
| Pmi.InBandLemmas | Part1_PMI_Semantics/pmi_calculator.py:12-13 | the lemmas given a vector are exactly those whose count lies in [WORD_BOTTOM_BAR, WORD_TOP_BAR) |
| Pmi.Eligibility | Part1_PMI_Semantics/pmi_calculator.py:37-38 | one flag per counted feature, true exactly when its count reaches FEATURE_FREQ_BAR |
| Pmi.Pairs | Part1_PMI_Semantics/pmi_calculator.py:22-28 | the (lemma, feature) occurrences counted, sample after sample: each feature of an in-band sample once per occurrence, nothing for an out-of-band one |
| Pmi.Occ | Part1_PMI_Semantics/pmi_calculator.py:27 | the number of occurrences of one (lemma, feature) pair |
| Pmi.Reflects | Part1_PMI_Semantics/pmi_calculator.py:11-34 | the three counting tables are exactly those of a sequence of occurrences: counts per in-band lemma, counts per feature, and the reverse index with value 1 |
| Pmi.OccAppend | Part1_PMI_Semantics/pmi_calculator.py:22-28 | occurrence counts over two runs of samples add up |
| Pmi.OccOfSample | Part1_PMI_Semantics/pmi_calculator.py:26-28 | an in-band sample adds to (lemma, f) as many occurrences as f occurs among its features, and none to other lemmas |
| Pmi.PairsSnoc | Part1_PMI_Semantics/pmi_calculator.py:22 | the occurrences of samples plus one more are those of the samples followed by those of the last sample |
| Pmi.CountOneSample | Part1_PMI_Semantics/pmi_calculator.py:22-28 | an out-of-band sample adds no occurrence; an in-band one adds each of its features once per occurrence to its own lemma only |
| Pmi.PairsInBand | Part1_PMI_Semantics/pmi_calculator.py:23-24 | every counted occurrence has an in-band lemma |
| Pmi.FtrOccIsSum | Part1_PMI_Semantics/pmi_calculator.py:26-28 | a feature's occurrences are the sum of its occurrences with each lemma |
| Pmi.ReflectsNothing | Part1_PMI_Semantics/pmi_calculator.py:11-15 | before counting, every in-band lemma has an empty vector and the other tables are empty, as for no occurrences at all |
| Pmi.VectorsStep | Part1_PMI_Semantics/pmi_calculator.py:27 | raising context_vectors[l][f] by 1 records one more occurrence of (l, f) |
| Pmi.CountsStep | Part1_PMI_Semantics/pmi_calculator.py:28 | raising ftr_count[f] by 1 records one more occurrence of f |
| Pmi.ReverseStep | Part1_PMI_Semantics/pmi_calculator.py:31-34 | the guarded update of the reverse index keeps it holding exactly the seen (feature, lemma) pairs, each with value 1 |
| Pmi.ReflectsStep | Part1_PMI_Semantics/pmi_calculator.py:26-34 | one feature occurrence updates all three tables to reflect one more occurrence |
| Pmi.TablesAgree | Part1_PMI_Semantics/pmi_calculator.py:26-34 | every stored count is at least 1; ftr_count[f] is the sum over lemmas of context_vectors[l][f]; l is in ftr_to_lemma[f] exactly when f is in context_vectors[l], with value 1; the reverse index covers exactly the counted features |
| Pmi.OccBelowFtrOcc | Part1_PMI_Semantics/pmi_calculator.py:27-28 | a (lemma, feature) count never exceeds the feature's count |
| Pmi.OccLemmaInBand | Part1_PMI_Semantics/pmi_calculator.py:23-27 | a lemma with a counted occurrence is in band |
| Pmi.EveryFeatureEligible | Part1_PMI_Semantics/pmi_calculator.py:37-38 | with FEATURE_FREQ_BAR = 1 every counted feature is eligible |
| Pmi.MergedFlags | Part1_PMI_Semantics/pmi_calculator.py:37-38 | flags set for every counted feature over earlier flags are those flags overridden by Eligibility |
| Pmi.VectorFeaturesCounted | Part1_PMI_Semantics/pmi_calculator.py:27-28 | every feature in a lemma's vector has a feature count |
| Pmi.NormSquaredZero | Part1_PMI_Semantics/pmi_calculator.py:40-46 | a squared norm is non-negative, and 0 exactly when no entry is eligible with a count of at least CO_OCCURRENCE_BAR |
| Pmi.OutOfBandQuery | Part1_PMI_Semantics/pmi_calculator.py:59-61 | a query returns the empty result exactly when the first lemma is out of band, or a second lemma is supplied (not None, not empty) and is out of band; since `or` short-circuits, an out-of-band first lemma gives the empty result whatever the second lemma is, even one with no count |
| Pmi.SetFlags | Part1_PMI_Semantics/pmi_calculator.py:37-38 | the eligibility loop, over the features in any order, leaves the earlier flags overridden by Eligibility(ftr_count) |
| Pmi.PMICalculator.constructor | Part1_PMI_Semantics/pmi_calculator.py:8-18 | building the calculator leaves every table reflecting the counted occurrences of the loader's samples, the flags equal to Eligibility, and a squared norm for each in-band lemma |
| Pmi.PMICalculator.AddFeature | Part1_PMI_Semantics/pmi_calculator.py:26-34 | counting one feature occurrence keeps the three tables reflecting the occurrences, now with one more |
| Pmi.PMICalculator.CountSample | Part1_PMI_Semantics/pmi_calculator.py:22-34 | counting a sample adds its occurrences to the tables; an out-of-band sample changes no table |
| Pmi.PMICalculator.CountSamples | Part1_PMI_Semantics/pmi_calculator.py:22-34 | the loop over samples adds all their occurrences, sample after sample |
| Pmi.PMICalculator.CalculateContext | Part1_PMI_Semantics/pmi_calculator.py:20-38 | from empty tables, the tables end up reflecting the occurrences of all samples, and the flags equal Eligibility(ftr_count) |
| Pmi.PMICalculator.FlagFeatures | Part1_PMI_Semantics/pmi_calculator.py:37-38 | the flags become the earlier flags overridden by Eligibility(ftr_count) |
| Pmi.PMICalculator.Norm | Part1_PMI_Semantics/pmi_calculator.py:40-46 | the loop returns the sum of c*c over the entries (f, c) of the lemma's vector with f eligible and c >= CO_OCCURRENCE_BAR |
| Pmi.PMICalculator.ComputeNorms | Part1_PMI_Semantics/pmi_calculator.py:17-18 | every lemma with a vector, and no other, gets its squared norm |
| Pmi.PMICalculator.QueryTablesPresent | Part1_PMI_Semantics/pmi_calculator.py:59-61 | the guard lets a query through exactly when its lemmas have vectors, and then they also have norms; the second lemma needs a count only when the first is in band |

## Left out

- Pmi.PMICalculator.Norm: returns the square of `_norm`'s result. The source's `norm**0.5` is a floating-point square root and is not modelled; the integer sum of squares is kept.
- `_dist` and the numeric part of `calc_cosin_dist` (`Part1_PMI_Semantics/pmi_calculator.py:48-58,62-85`) are not modelled. They compute with `**0.5`, `math.acos` and `round()` in floating point. Only the out-of-band guard at lines 59-61 is modelled (`Pmi.OutOfBandQuery`, `Pmi.PMICalculator.QueryTablesPresent`).
- `Part2_word_to_vec/top_k.py` is not part of this model. It is a float-vector lookup (numpy parsing, dot products, `sqrt`, `acos`) outside the counting core.
- Pmi.PMICalculator.constructor: takes the lemma count table as a parameter. The source calls `lemma_list()` and `lemma_count()` on the loader, which `SemanticsDataLoader` does not define; it only has `words_list` and `word_count`, keyed by surface word. The constructor requires every sample lemma to be a key of that table, since a missing key would raise `KeyError` in the source.
- DataLoader.SemanticsDataLoader.constructor: requires the read to succeed. The source raises `ValueError` on a malformed row; that error path is modelled by `DataLoader.ReadFile`'s `Malformed` result.
- File I/O: `open()` in `utils/data_loader.py:29` is not modelled. The file is given as its sequence of rows, each with its line break, as iterating over a text file yields them.
- Default mode arguments: `semantic_type=SENTENCE` (`utils/sentence.py:41`), `semantic_type="sentence"` (`utils/data_loader.py:10`) and `semantics_type=SENTENCE` (`Part1_PMI_Semantics/pmi_calculator.py:8`) are not modelled. Every caller in the model passes the mode explicitly; omitting it in the source is the same as passing the sentence mode.
- Generator laziness: `words_semantics` and `data` are modelled as producing the whole sequence of samples at once.
- The accessors `word_count`, `words_list` and `__len__` (`utils/data_loader.py:15-22`) are the loader's constant fields `wordCount` and `len`.
- Sentences.ParseSemanticTree: requires every head and grandparent index it uses to be in Python's index range (`TreeValid`). The source would raise `IndexError` there; the model does not represent the exception. The same holds for tree mode in `Sentences.WordsSemantics` and `DataLoader.SemanticsDataLoader.Data`.
- Sentences.WellFormed: a sentence's four lists are assumed to be equally long. The reader always builds them so (`DataLoader.ReadFileSound`); unequal lists can only come from direct construction and are not modelled.
- PyText.ParseInt: Python's `int()` also accepts underscores between digits (`"1_0"`) and non-ASCII decimal digits; the model accepts only an optional sign followed by ASCII digits. Leading and trailing whitespace cannot occur, because fields come from `str.split()`.
- Dictionary iteration order: the eligibility loop, the norm loop and the norm table loop visit keys in an arbitrary order, not Python's insertion order. Their results do not depend on that order.
- The comment at `utils/sentence.py:16-21` disagrees with the code for token "a": it shows `<"a", <"det", P>>`, but line 30 appends the parent's lemma, giving `("garbage", ("det", PARENT))`. The model follows the code (`Sentences.GarbageCanLists`).
- The `__main__` demo blocks are not modelled. The demo sentence of `utils/sentence.py:57-65` appears as the worked examples `Sentences.GarbageCanTree` and `Sentences.GarbageCanWindow`.
