/**
 * The corpus reader of utils/data_loader.py. A corpus is a sequence of rows in a CoNLL-like
 * layout: one token per row with ten whitespace-separated fields, and a row holding only a
 * line break closing the current sentence. Reading is specified by a state machine over rows
 * (Step, Run); the reading loop and the loader object are proved against it.
 */
module DataLoader {
  import opened Parameters
  import opened Common
  import opened PyText
  import opened Sentences

  /** What one token row contributes: surface word, lemma, preposition flag and head edge. */
  datatype Token = Token(word: string, lemmaWord: string, isPrep: bool, edge: Edge)

  /** The reader's variables between two rows: token total, word counts, finished sentences, open sentence. */
  datatype ReadState = ReadState(total: nat, wordCount: map<string, int>, data: seq<Sentence>, pending: Sentence)

  /** A read either succeeds or stops at the first row it cannot unpack. */
  datatype Result<T> = Ok(value: T) | Malformed(row: string)

  const EmptySentence := Sentence([], [], [], [])
  const Init := ReadState(0, map[], [], EmptySentence)

  /** Only a row that is exactly a line break separates sentences. */
  predicate IsBlank(row: string)
  {
    row == "\n"
  }

  /**
   * A token row unpacks into exactly ten fields (0-based): 1 is the word, 2 the lemma, 4 the
   * part-of-speech tag, 6 the 1-based head index and 7 the dependency label. The head becomes
   * 0-based, so the root's head 0 becomes -1.
   */
  function ParseRow(row: string): Option<Token>
  {
    var fs := Split(row);
    if |fs| != 10 then None
    else match ParseInt(fs[6])
      case None => None
      case Some(h) => Some(Token(fs[1], fs[2], fs[4] in Prep, Edge(h - 1, fs[7])))
  }

  /** Appends one token to every column of a sentence. */
  function Push(s: Sentence, t: Token): (r: Sentence)
    ensures WellFormed(s) ==> WellFormed(r)
  {
    Sentence(s.words + [t.word], s.lemmas + [t.lemmaWord], s.isPrep + [t.isPrep], s.tree + [t.edge])
  }

  /** One iteration of the reading loop. */
  function Step(st: ReadState, row: string): Result<ReadState>
  {
    if IsBlank(row) then Ok(ReadState(st.total, st.wordCount, st.data + [st.pending], EmptySentence))
    else match ParseRow(row)
      case None => Malformed(row)
      case Some(t) =>
        Ok(ReadState(st.total + 1, st.wordCount[t.word := Get(st.wordCount, t.word) + 1],
                     st.data, Push(st.pending, t)))
  }

  /** The reading loop over all remaining rows. */
  function Run(st: ReadState, rows: seq<string>): Result<ReadState>
    decreases |rows|
  {
    if rows == [] then Ok(st)
    else match Step(st, rows[0])
      case Malformed(r) => Malformed(r)
      case Ok(next) => Run(next, rows[1..])
  }

  /** What the reader returns: the open sentence is not part of it. */
  function Finish(r: Result<ReadState>): Result<(nat, map<string, int>, seq<Sentence>)>
  {
    match r
    case Malformed(row) => Malformed(row)
    case Ok(st) => Ok((st.total, st.wordCount, st.data))
  }

  /** The reading loop, over the rows of the file. */
  method ReadFile(rows: seq<string>) returns (r: Result<(nat, map<string, int>, seq<Sentence>)>)
    ensures r == Finish(Run(Init, rows))
  {
    var data: seq<Sentence> := [];
    var wordCount: map<string, int> := map[];
    var totalSamples: nat := 0;
    var words: seq<string> := [];
    var lemmaWords: seq<string> := [];
    var isPrep: seq<bool> := [];
    var tree: seq<Edge> := [];
    for k := 0 to |rows|
      invariant Run(Init, rows) ==
                Run(ReadState(totalSamples, wordCount, data, Sentence(words, lemmaWords, isPrep, tree)), rows[k..])
    {
      var row := rows[k];
      assert rows[k..][0] == row && rows[k..][1..] == rows[k + 1..];
      if row == "\n" {
        data := data + [Sentence(words, lemmaWords, isPrep, tree)];
        words, lemmaWords, isPrep, tree := [], [], [], [];
        continue;
      }
      var fields := Split(row);
      if |fields| != 10 {
        return Malformed(row);
      }
      var head := ParseInt(fields[6]);
      if head.None? {
        return Malformed(row);
      }
      totalSamples := totalSamples + 1;
      wordCount := wordCount[fields[1] := Get(wordCount, fields[1]) + 1];
      words := words + [fields[1]];
      lemmaWords := lemmaWords + [fields[2]];
      isPrep := isPrep + [fields[4] in Prep];
      tree := tree + [Edge(head.value - 1, fields[7])];
    }
    assert rows[|rows|..] == [];
    r := Ok((totalSamples, wordCount, data));
  }

  // ---------------------------------------------------------------------------
  // What a read produces
  // ---------------------------------------------------------------------------

  /** A row the loop accepts: a separator or a token row with ten fields and an integer head. */
  predicate Readable(row: string)
  {
    IsBlank(row) || ParseRow(row).Some?
  }

  /**
   * A read succeeds exactly when every row is readable; otherwise it reports the first row
   * that is not.
   */
  lemma {:induction false} RunSucceeds(st: ReadState, rows: seq<string>)
    ensures Run(st, rows).Ok? <==> forall k :: 0 <= k < |rows| ==> Readable(rows[k])
    ensures Run(st, rows).Malformed? ==>
              exists f :: 0 <= f < |rows| && !Readable(rows[f]) && Run(st, rows).row == rows[f] &&
                          forall k :: 0 <= k < f ==> Readable(rows[k])
    decreases |rows|
  {
    if rows != [] {
      match Step(st, rows[0])
      case Malformed(_) =>
        assert !Readable(rows[0]);
      case Ok(next) =>
        RunSucceeds(next, rows[1..]);
        assert forall k :: 0 < k < |rows| ==> rows[k] == rows[1..][k - 1];
        if Run(st, rows).Malformed? {
          var f :| 0 <= f < |rows[1..]| && !Readable(rows[1..][f]) && Run(next, rows[1..]).row == rows[1..][f] &&
                   forall k :: 0 <= k < f ==> Readable(rows[1..][k]);
          assert forall k :: 0 <= k < f + 1 ==> Readable(rows[k]) by {
            forall k | 0 <= k < f + 1 ensures Readable(rows[k]) {
              if k > 0 { assert rows[k] == rows[1..][k - 1]; }
            }
          }
        }
    }
  }

  /** Number of separator rows. */
  function BlankRows(rows: seq<string>): nat
  {
    if rows == [] then 0 else (if IsBlank(rows[0]) then 1 else 0) + BlankRows(rows[1..])
  }

  /** Number of token rows. */
  function TokenRows(rows: seq<string>): nat
  {
    if rows == [] then 0 else (if IsBlank(rows[0]) then 0 else 1) + TokenRows(rows[1..])
  }

  /** Number of token rows whose surface word is w. */
  function WordRows(rows: seq<string>, w: string): nat
  {
    if rows == [] then 0
    else (if !IsBlank(rows[0]) && ParseRow(rows[0]).Some? && ParseRow(rows[0]).value.word == w then 1 else 0) +
         WordRows(rows[1..], w)
  }

  /**
   * A successful read keeps the sentences already finished, finishes one sentence per
   * separator row, counts one token per token row, and counts each word once per row that
   * carries it.
   */
  lemma {:induction false} RunCounts(st: ReadState, rows: seq<string>, w: string)
    requires Run(st, rows).Ok?
    ensures st.data <= Run(st, rows).value.data
    ensures |Run(st, rows).value.data| == |st.data| + BlankRows(rows)
    ensures Run(st, rows).value.total == st.total + TokenRows(rows)
    ensures Get(Run(st, rows).value.wordCount, w) == Get(st.wordCount, w) + WordRows(rows, w)
    decreases |rows|
  {
    if rows != [] {
      var next := Step(st, rows[0]).value;
      RunCounts(next, rows[1..], w);
    }
  }

  /** Running over two stretches of rows is running over the first, then the second. */
  lemma {:induction false} RunAppend(st: ReadState, a: seq<string>, b: seq<string>)
    ensures Run(st, a + b) == match Run(st, a) case Malformed(r) => Malformed(r) case Ok(m) => Run(m, b)
    decreases |a|
  {
    if a == [] {
      assert a + b == b;
    } else {
      assert (a + b)[0] == a[0] && (a + b)[1..] == a[1..] + b;
      match Step(st, a[0])
      case Malformed(_) =>
      case Ok(next) => RunAppend(next, a[1..], b);
    }
  }

  /** Token rows after the last separator do not reach the result: that sentence is dropped. */
  lemma TrailingRowsDropped(rows: seq<string>, tail: seq<string>)
    requires Run(Init, rows + tail).Ok?
    requires forall k :: 0 <= k < |tail| ==> !IsBlank(tail[k])
    ensures Run(Init, rows).Ok?
    ensures Finish(Run(Init, rows + tail)).value.2 == Finish(Run(Init, rows)).value.2
  {
    RunAppend(Init, rows, tail);
    var mid := Run(Init, rows).value;
    RunCounts(mid, tail, "");
    NoBlankRows(tail);
  }

  lemma {:induction false} NoBlankRows(rows: seq<string>)
    requires forall k :: 0 <= k < |rows| ==> !IsBlank(rows[k])
    ensures BlankRows(rows) == 0
  {
    if rows != [] {
      assert forall k :: 0 <= k < |rows[1..]| ==> rows[1..][k] == rows[k + 1];
      NoBlankRows(rows[1..]);
    }
  }

  // ---------------------------------------------------------------------------
  // The invariant a read keeps
  // ---------------------------------------------------------------------------

  /** Number of tokens in a sequence of sentences. */
  function TokenTotal(ss: seq<Sentence>): nat
  {
    if ss == [] then 0 else TokenTotal(ss[..|ss| - 1]) + |ss[|ss| - 1].words|
  }

  lemma {:induction false} TokenTotalAppend(a: seq<Sentence>, b: seq<Sentence>)
    ensures TokenTotal(a + b) == TokenTotal(a) + TokenTotal(b)
    decreases |b|
  {
    if b == [] {
      assert a + b == a;
    } else {
      assert (a + b)[..|a + b| - 1] == a + b[..|b| - 1];
      TokenTotalAppend(a, b[..|b| - 1]);
    }
  }

  /** The sum of all word counts. */
  ghost function WordTotal(wc: map<string, int>): int
  {
    SetSum(wc.Keys, w => Get(wc, w))
  }

  /**
   * Every sentence has equally long columns, every counted word has a positive count, the
   * counts add up to the token total, and that total is the number of tokens in the finished
   * sentences plus those of the open one.
   */
  ghost predicate Consistent(st: ReadState)
  {
    (forall k :: 0 <= k < |st.data| ==> WellFormed(st.data[k])) && WellFormed(st.pending) &&
    (forall w :: w in st.wordCount ==> st.wordCount[w] > 0) &&
    WordTotal(st.wordCount) == st.total &&
    TokenTotal(st.data) + |st.pending.words| == st.total
  }

  lemma InitConsistent()
    ensures Consistent(Init)
  {
  }

  lemma CountBump(wc: map<string, int>, x: string)
    ensures WordTotal(wc[x := Get(wc, x) + 1]) == WordTotal(wc) + 1
  {
    var wc2 := wc[x := Get(wc, x) + 1];
    var w1 := w => Get(wc, w);
    var w2 := w => Get(wc2, w);
    if x in wc {
      assert wc2.Keys == wc.Keys;
      SetSumBump(wc.Keys, w1, w2, x, 1);
    } else {
      assert wc2.Keys == wc.Keys + {x};
      SetSumInsert(wc.Keys, w2, x);
      SetSumCongruent(wc.Keys, w1, w2);
    }
  }

  lemma StepConsistent(st: ReadState, row: string)
    requires Consistent(st) && Step(st, row).Ok?
    ensures Consistent(Step(st, row).value)
  {
    var next := Step(st, row).value;
    if IsBlank(row) {
      TokenTotalAppend(st.data, [st.pending]);
      assert TokenTotal([st.pending]) == |st.pending.words| by {
        assert [st.pending][..0] == [];
      }
    } else {
      var t := ParseRow(row).value;
      CountBump(st.wordCount, t.word);
    }
  }

  /** Consistency holds after any successful read from a consistent state. */
  lemma {:induction false} RunConsistent(st: ReadState, rows: seq<string>)
    requires Consistent(st) && Run(st, rows).Ok?
    ensures Consistent(Run(st, rows).value)
    decreases |rows|
  {
    if rows != [] {
      StepConsistent(st, rows[0]);
      RunConsistent(Step(st, rows[0]).value, rows[1..]);
    }
  }

  /**
   * What a successful read of a file returns: well-formed sentences, word counts summing to
   * the token total, one sentence per separator row, and as many tokens in the sentences as
   * counted, except those after the last separator.
   */
  lemma ReadFileSound(rows: seq<string>)
    requires Run(Init, rows).Ok?
    ensures var st := Run(Init, rows).value;
            (forall k :: 0 <= k < |st.data| ==> WellFormed(st.data[k])) &&
            WordTotal(st.wordCount) == st.total == TokenRows(rows) &&
            |st.data| == BlankRows(rows) &&
            TokenTotal(st.data) + |st.pending.words| == st.total
  {
    InitConsistent();
    RunConsistent(Init, rows);
    RunCounts(Init, rows, "");
  }

  // ---------------------------------------------------------------------------
  // Round trip: rendering sentences as rows and reading them back
  // ---------------------------------------------------------------------------

  /** A sentence that can be written as rows: well formed, words, lemmas and labels are fields. */
  predicate Renderable(s: Sentence)
  {
    WellFormed(s) &&
    forall k :: 0 <= k < |s.words| ==> IsField(s.words[k]) && IsField(s.lemmas[k]) && IsField(s.tree[k].rel)
  }

  /** The fields of token k: index, word, lemma, _, tag (IN for a preposition), _, 1-based head, label, _, _. */
  function RowFields(s: Sentence, k: int): seq<string>
    requires Renderable(s) && 0 <= k < |s.words|
  {
    [IntToString(k + 1), s.words[k], s.lemmas[k], "_", if s.isPrep[k] then "IN" else "NN", "_",
     IntToString(s.tree[k].parent + 1), s.tree[k].rel, "_", "_"]
  }

  /** The row of token k, with its line break. */
  function RenderRow(s: Sentence, k: int): string
    requires Renderable(s) && 0 <= k < |s.words|
  {
    JoinFields(RowFields(s, k)) + "\n"
  }

  /** The token rows of a sentence from token k on. */
  function TokenRowsFrom(s: Sentence, k: nat): seq<string>
    requires Renderable(s) && k <= |s.words|
    decreases |s.words| - k
  {
    if k == |s.words| then [] else [RenderRow(s, k)] + TokenRowsFrom(s, k + 1)
  }

  /** All sentences, each followed by its separator row. */
  function Render(ss: seq<Sentence>): seq<string>
    requires forall k :: 0 <= k < |ss| ==> Renderable(ss[k])
  {
    if ss == [] then [] else TokenRowsFrom(ss[0], 0) + ["\n"] + Render(ss[1..])
  }

  function Prefix(s: Sentence, k: nat): Sentence
    requires WellFormed(s) && k <= |s.words|
  {
    Sentence(s.words[..k], s.lemmas[..k], s.isPrep[..k], s.tree[..k])
  }

  lemma RenderRowReads(s: Sentence, k: int)
    requires Renderable(s) && 0 <= k < |s.words|
    ensures ParseRow(RenderRow(s, k)) == Some(TokenAt(s, k))
  {
    var fs := RowFields(s, k);
    ParseIntToString(k + 1);
    ParseIntToString(s.tree[k].parent + 1);
    assert IsField("_") && IsField("IN") && IsField("NN");
    assert forall i :: 0 <= i < |fs| ==> IsField(fs[i]);
    SplitJoin(fs);
    assert Split(RenderRow(s, k)) == fs;
    assert ParseInt(fs[6]) == Some(s.tree[k].parent + 1);
  }

  /** The token of position k. */
  function TokenAt(s: Sentence, k: int): Token
    requires WellFormed(s) && 0 <= k < |s.words|
  {
    Token(s.words[k], s.lemmas[k], s.isPrep[k], s.tree[k])
  }

  lemma PushPrefix(s: Sentence, k: nat)
    requires WellFormed(s) && k < |s.words|
    ensures Push(Prefix(s, k), TokenAt(s, k)) == Prefix(s, k + 1)
  {
    assert s.words[..k + 1] == s.words[..k] + [s.words[k]];
    assert s.lemmas[..k + 1] == s.lemmas[..k] + [s.lemmas[k]];
    assert s.isPrep[..k + 1] == s.isPrep[..k] + [s.isPrep[k]];
    assert s.tree[..k + 1] == s.tree[..k] + [s.tree[k]];
  }

  /** Reading a rendered row appends its token to the open sentence. */
  lemma StepRendered(st: ReadState, s: Sentence, k: nat)
    requires Renderable(s) && k < |s.words| && st.pending == Prefix(s, k)
    ensures Step(st, RenderRow(s, k)).Ok?
    ensures Step(st, RenderRow(s, k)).value.data == st.data
    ensures Step(st, RenderRow(s, k)).value.pending == Prefix(s, k + 1)
  {
    RenderRowReads(s, k);
    PushPrefix(s, k);
    assert !IsBlank(RenderRow(s, k)) by {
      assert Split("\n") == [] by { SplitSpace('\n', ""); }
    }
  }

  lemma {:induction false} RunTokenRows(st: ReadState, s: Sentence, k: nat)
    requires Renderable(s) && k <= |s.words| && st.pending == Prefix(s, k)
    ensures Run(st, TokenRowsFrom(s, k)).Ok?
    ensures Run(st, TokenRowsFrom(s, k)).value.data == st.data
    ensures Run(st, TokenRowsFrom(s, k)).value.pending == s
    decreases |s.words| - k
  {
    if k == |s.words| {
      assert Prefix(s, k) == s;
    } else {
      var rows := TokenRowsFrom(s, k);
      assert rows[0] == RenderRow(s, k) && rows[1..] == TokenRowsFrom(s, k + 1);
      StepRendered(st, s, k);
      RunTokenRows(Step(st, rows[0]).value, s, k + 1);
    }
  }

  /** Running over a first row and the rest is a step, then the rest. */
  lemma RunCons(st: ReadState, row: string, rest: seq<string>)
    ensures Step(st, row).Malformed? ==> Run(st, [row] + rest) == Malformed(row)
    ensures Step(st, row).Ok? ==> Run(st, [row] + rest) == Run(Step(st, row).value, rest)
  {
    assert ([row] + rest)[0] == row && ([row] + rest)[1..] == rest;
  }

  /** Reading one rendered sentence and its separator finishes exactly that sentence. */
  lemma RunSentence(st: ReadState, s: Sentence, rows: seq<string>, rest: seq<string>) returns (after: ReadState)
    requires Renderable(s) && st.pending == EmptySentence
    requires rows == TokenRowsFrom(s, 0) + ["\n"] + rest
    ensures after.data == st.data + [s] && after.pending == EmptySentence
    ensures Run(st, rows) == Run(after, rest)
  {
    var mid := RunBody(st, s, ["\n"] + rest);
    assert rows == TokenRowsFrom(s, 0) + (["\n"] + rest);
    RunCons(mid, "\n", rest);
    after := Step(mid, "\n").value;
  }

  /** Reading the token rows of a sentence from an empty open sentence leaves it open and complete. */
  lemma RunBody(st: ReadState, s: Sentence, tail: seq<string>) returns (mid: ReadState)
    requires Renderable(s) && st.pending == EmptySentence
    ensures mid.data == st.data && mid.pending == s
    ensures Run(st, TokenRowsFrom(s, 0) + tail) == Run(mid, tail)
  {
    assert Prefix(s, 0) == EmptySentence;
    RunTokenRows(st, s, 0);
    RunAppend(st, TokenRowsFrom(s, 0), tail);
    mid := Run(st, TokenRowsFrom(s, 0)).value;
  }

  /** Reading the rendering of a first sentence finishes it and leaves the rendering of the rest. */
  lemma RunRenderFirst(st: ReadState, ss: seq<Sentence>) returns (after: ReadState)
    requires |ss| > 0 && forall k :: 0 <= k < |ss| ==> Renderable(ss[k])
    requires st.pending == EmptySentence
    ensures after.data == st.data + [ss[0]] && after.pending == EmptySentence
    ensures Run(st, Render(ss)) == Run(after, Render(ss[1..]))
  {
    after := RunSentence(st, ss[0], Render(ss), Render(ss[1..]));
  }

  /** Reading rows rs from st succeeds with the finished sentences `data` and no open sentence. */
  ghost predicate ReadsBack(st: ReadState, rs: seq<string>, data: seq<Sentence>)
  {
    Run(st, rs).Ok? && Run(st, rs).value.data == data && Run(st, rs).value.pending == EmptySentence
  }

  lemma {:induction false} RunRender(st: ReadState, ss: seq<Sentence>)
    requires forall k :: 0 <= k < |ss| ==> Renderable(ss[k])
    requires st.pending == EmptySentence
    ensures ReadsBack(st, Render(ss), st.data + ss)
    decreases |ss|
  {
    if ss == [] {
      assert Render(ss) == [];
      assert st.data + ss == st.data;
    } else {
      var after := RunRenderFirst(st, ss);
      RunRender(after, ss[1..]);
      assert (st.data + [ss[0]]) + ss[1..] == st.data + ss;
    }
  }

  /**
   * Reading back the rendering of any renderable sentences returns exactly those sentences,
   * with as many samples counted as they have tokens.
   */
  lemma ReadRendered(ss: seq<Sentence>)
    requires forall k :: 0 <= k < |ss| ==> Renderable(ss[k])
    ensures Finish(Run(Init, Render(ss))).Ok?
    ensures Finish(Run(Init, Render(ss))).value.2 == ss
    ensures Finish(Run(Init, Render(ss))).value.0 == TokenTotal(ss)
  {
    RunRender(Init, ss);
    ReadFileSound(Render(ss));
    assert Init.data + ss == ss;
  }

  /** Two separators in a row finish an empty sentence. */
  lemma BlankBlank(row: string)
    requires ParseRow(row).Some?
    ensures Finish(Run(Init, [row, "\n", "\n"])) ==
            Ok((1, map[ParseRow(row).value.word := 1], [Push(EmptySentence, ParseRow(row).value), EmptySentence]))
  {
    var t := ParseRow(row).value;
    assert !IsBlank(row) by {
      assert Split("\n") == [] by { SplitSpace('\n', ""); }
    }
    var s1 := ReadState(1, map[t.word := 1], [], Push(EmptySentence, t));
    assert Step(Init, row) == Ok(s1) by {
      assert Init.wordCount[t.word := Get(Init.wordCount, t.word) + 1] == map[t.word := 1];
    }
    var s2 := ReadState(1, map[t.word := 1], [Push(EmptySentence, t)], EmptySentence);
    var s3 := ReadState(1, map[t.word := 1], [Push(EmptySentence, t), EmptySentence], EmptySentence);
    assert [row, "\n", "\n"] == [row] + (["\n"] + (["\n"] + []));
    RunCons(Init, row, ["\n"] + (["\n"] + []));
    RunCons(s1, "\n", ["\n"] + []);
    RunCons(s2, "\n", []);
    assert IsBlank("\n");
    assert s1.data + [s1.pending] == s2.data;
    assert s2.data + [s2.pending] == s3.data;
    assert Run(s3, []) == Ok(s3);
    assert Run(Init, [row, "\n", "\n"]) == Ok(s3);
  }

  // ---------------------------------------------------------------------------
  // The loader object and its sample stream
  // ---------------------------------------------------------------------------

  /** Every sentence can be turned into samples in the given mode. */
  predicate Extractable(ss: seq<Sentence>, semanticType: string)
  {
    forall k :: 0 <= k < |ss| ==> WellFormed(ss[k]) && (semanticType == TreeMode ==> TreeValid(ss[k]))
  }

  /** Every sentence is well formed and its tree indexes only tokens of that sentence. */
  predicate TreesValid(ss: seq<Sentence>)
  {
    forall k :: 0 <= k < |ss| ==> WellFormed(ss[k]) && TreeValid(ss[k])
  }

  /** The samples of all sentences, sentence after sentence. */
  function AllSamples(ss: seq<Sentence>, semanticType: string): seq<Sample>
    requires Extractable(ss, semanticType)
  {
    if ss == [] then []
    else AllSamples(ss[..|ss| - 1], semanticType) + Semantics(ss[|ss| - 1], semanticType)
  }

  /** A known mode yields one sample per token of the sentences; any other mode yields none. */
  lemma {:induction false} AllSamplesLength(ss: seq<Sentence>, semanticType: string)
    requires Extractable(ss, semanticType)
    ensures |AllSamples(ss, semanticType)| == if KnownMode(semanticType) then TokenTotal(ss) else 0
  {
    if ss != [] {
      AllSamplesLength(ss[..|ss| - 1], semanticType);
      SemanticsShape(ss[|ss| - 1], semanticType);
    }
  }

  class SemanticsDataLoader {
    const len: nat
    const wordCount: map<string, int>
    const data: seq<Sentence>

    /** The loader holds well-formed sentences and word counts summing to its length. */
    ghost predicate Valid()
    {
      (forall k :: 0 <= k < |data| ==> WellFormed(data[k])) && WordTotal(wordCount) == len
    }

    /** Loads a corpus whose rows all read. */
    constructor(rows: seq<string>)
      requires Run(Init, rows).Ok?
      ensures Ok((len, wordCount, data)) == Finish(Run(Init, rows))
      ensures Valid()
    {
      var r := ReadFile(rows);
      len := r.value.0;
      wordCount := r.value.1;
      data := r.value.2;
      new;
      ReadFileSound(rows);
    }

    /** All samples of the corpus in the given mode, sentence after sentence. */
    method Data(semanticType: string) returns (samples: seq<Sample>)
      requires Valid() && (semanticType == TreeMode ==> TreesValid(data))
      ensures samples == AllSamples(data, semanticType)
    {
      assert Extractable(data, semanticType);
      samples := [];
      for k := 0 to |data|
        invariant samples == AllSamples(data[..k], semanticType)
      {
        var part := WordsSemantics(data[k], semanticType);
        assert data[..k + 1][..k] == data[..k];
        samples := samples + part;
      }
      assert data[..|data|] == data;
    }
  }

  /**
   * For a loaded corpus, a known mode yields one sample per counted token, less the tokens
   * after the last separator.
   */
  lemma SamplesPerToken(rows: seq<string>, semanticType: string)
    requires Run(Init, rows).Ok?
    requires KnownMode(semanticType) && Extractable(Run(Init, rows).value.data, semanticType)
    ensures |AllSamples(Run(Init, rows).value.data, semanticType)| ==
            Run(Init, rows).value.total - |Run(Init, rows).value.pending.words|
  {
    ReadFileSound(rows);
    AllSamplesLength(Run(Init, rows).value.data, semanticType);
  }
}
