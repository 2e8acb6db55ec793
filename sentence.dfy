/**
 * One parsed sentence and the three ways of turning it into (word, lemma, features)
 * samples: the whole sentence, a window of two tokens on each side, or the edges of
 * the dependency tree with prepositions bridged over.
 */
module Sentences {
  import opened Parameters

  /** Direction of a tree feature: SON ("DOWN_ARROW") points at a child, PARENT ("UP_ARROW") at the head. */
  datatype Dir = Son | Parent

  /** A context feature: a co-occurring lemma, or a neighbour lemma with its (label, direction) tag. */
  datatype Feature = LemmaF(neighbour: string) | RelF(neighbour: string, rel: string, dir: Dir)

  /** The dependency edge of one token: its head's index (-1 for none) and the relation label. */
  datatype Edge = Edge(parent: int, rel: string)

  /** What the extractor yields for one token. */
  datatype Sample = Sample(word: string, lemmaWord: string, features: seq<Feature>)

  /** The four parallel per-token lists a sentence holds. */
  datatype Sentence = Sentence(words: seq<string>, lemmas: seq<string>, isPrep: seq<bool>, tree: seq<Edge>)

  /** The lists are parallel: one entry per token in each. */
  predicate WellFormed(s: Sentence)
  {
    |s.words| == |s.lemmas| == |s.isPrep| == |s.tree|
  }

  function Min(a: int, b: int): int
  {
    if a < b then a else b
  }

  // ---------------------------------------------------------------------------
  // Python indexing and slicing
  // ---------------------------------------------------------------------------

  /** A Python list index k into a list of length n is legal when -n <= k < n. */
  predicate Indexable(k: int, n: int)
  {
    -n <= k < n
  }

  /** The position a legal Python index denotes: negative indices count from the end. */
  function PyIndex(k: int, n: nat): (r: nat)
    requires Indexable(k, n)
    ensures r < n
    ensures k >= 0 ==> r == k
    ensures k < 0 ==> r == k + n
  {
    if k < 0 then k + n else k
  }

  /** How Python normalises a slice bound k for a list of length n. */
  function SliceBound(k: int, n: nat): (r: nat)
    ensures r <= n
    ensures 0 <= k <= n ==> r == k
    ensures k < 0 && 0 <= k + n ==> r == k + n
    ensures k > n ==> r == n
    ensures k + n < 0 ==> r == 0
  {
    if k < 0 then (if k + n < 0 then 0 else k + n) else if k > n then n else k
  }

  /** Python's s[a:b]: the elements from the normalised start up to the normalised end. */
  function PySlice<T>(s: seq<T>, a: int, b: int): (r: seq<T>)
    ensures |r| <= |s|
    ensures |r| == if SliceBound(a, |s|) < SliceBound(b, |s|) then SliceBound(b, |s|) - SliceBound(a, |s|) else 0
    ensures forall j :: 0 <= j < |r| ==> SliceBound(a, |s|) + j < |s| && r[j] == s[SliceBound(a, |s|) + j]
    ensures r == [] <==> SliceBound(b, |s|) <= SliceBound(a, |s|)
    ensures 0 <= a <= b <= |s| ==> r == s[a..b]
  {
    var lo, hi := SliceBound(a, |s|), SliceBound(b, |s|);
    if lo < hi then s[lo..hi] else []
  }

  // ---------------------------------------------------------------------------
  // Sentence and window modes
  // ---------------------------------------------------------------------------

  /** Sentence mode for token i: lemmas[:i] + lemmas[i+1:]. */
  function SentenceContext(lemmas: seq<string>, i: int): seq<string>
  {
    PySlice(lemmas, 0, i) + PySlice(lemmas, i + 1, |lemmas|)
  }

  /** Window mode for token i: lemmas[i-2:i] + lemmas[i+1:i+3]. */
  function WindowContext(lemmas: seq<string>, i: int): seq<string>
  {
    PySlice(lemmas, i - 2, i) + PySlice(lemmas, i + 1, i + 3)
  }

  /** In these two modes each co-occurring lemma is itself the feature. */
  function AsFeatures(xs: seq<string>): (r: seq<Feature>)
    ensures |r| == |xs|
    ensures forall k :: 0 <= k < |xs| ==> r[k] == LemmaF(xs[k])
  {
    seq(|xs|, k requires 0 <= k < |xs| => LemmaF(xs[k]))
  }

  /** Sentence mode: every other lemma of the sentence, in order, and nothing but them. */
  lemma SentenceContextExcludesSelf(lemmas: seq<string>, i: int)
    requires 0 <= i < |lemmas|
    ensures SentenceContext(lemmas, i) == lemmas[..i] + lemmas[i + 1..]
    ensures |SentenceContext(lemmas, i)| == |lemmas| - 1
    ensures multiset(SentenceContext(lemmas, i)) == multiset(lemmas) - multiset{lemmas[i]}
  {
    assert lemmas == lemmas[..i] + [lemmas[i]] + lemmas[i + 1..];
    if i == 0 {
      assert PySlice(lemmas, 0, i) == [];
    }
  }

  /**
   * Window mode: the right part is lemmas[i+1 .. min(n, i+3)]; the left part is lemmas[i-2 .. i]
   * only from i = 2 on. For i = 1 Python's lemmas[-1:1] is empty, so token 1 never sees token 0.
   */
  lemma WindowContextShape(lemmas: seq<string>, i: int)
    requires 0 <= i < |lemmas|
    ensures WindowContext(lemmas, i) ==
            (if i >= 2 then lemmas[i - 2..i] else []) + lemmas[i + 1..Min(|lemmas|, i + 3)]
  {
    var n := |lemmas|;
    if i < 2 {
      assert PySlice(lemmas, i - 2, i) == [];
    } else {
      assert PySlice(lemmas, i - 2, i) == lemmas[i - 2..i];
    }
    if i + 1 == Min(n, i + 3) {
      assert PySlice(lemmas, i + 1, i + 3) == [] == lemmas[i + 1..Min(n, i + 3)];
    }
  }

  /** The window never holds more than four lemmas, and never the token itself by position. */
  lemma WindowContextSize(lemmas: seq<string>, i: int)
    requires 0 <= i < |lemmas|
    ensures |WindowContext(lemmas, i)| <= 4
    ensures |WindowContext(lemmas, i)| == (if i >= 2 then 2 else 0) + Min(|lemmas|, i + 3) - (i + 1)
  {
    WindowContextShape(lemmas, i);
  }

  // ---------------------------------------------------------------------------
  // Tree mode
  // ---------------------------------------------------------------------------

  /**
   * Every indexing the tree traversal does on a non-root edge i is legal: the head index, and,
   * when the head is a preposition whose own head is not -1, the grandparent index.
   */
  predicate EdgeIndexable(s: Sentence, i: int)
    requires WellFormed(s) && 0 <= i < |s.tree|
  {
    var n := |s.tree|;
    Indexable(s.tree[i].parent, n) &&
    var p := PyIndex(s.tree[i].parent, n);
    (s.isPrep[p] && s.tree[p].parent != -1 ==> Indexable(s.tree[p].parent, n))
  }

  /** The traversal raises no index error on s. */
  predicate TreeValid(s: Sentence)
    requires WellFormed(s)
  {
    forall i {:trigger EdgeIndexable(s, i)} :: 0 <= i < |s.tree| && s.tree[i].rel != Root ==> EdgeIndexable(s, i)
  }

  /** The head position of non-root edge i. */
  function HeadOf(s: Sentence, i: int): (p: nat)
    requires WellFormed(s) && TreeValid(s) && 0 <= i < |s.tree| && s.tree[i].rel != Root
    ensures p < |s.tree|
  {
    assert EdgeIndexable(s, i);
    PyIndex(s.tree[i].parent, |s.tree|)
  }

  /** Edge i is bridged: its head is a preposition whose own head index is not -1. */
  predicate Bridged(s: Sentence, i: int)
    requires WellFormed(s) && TreeValid(s) && 0 <= i < |s.tree|
  {
    s.tree[i].rel != Root && s.isPrep[HeadOf(s, i)] && s.tree[HeadOf(s, i)].parent != -1
  }

  /** The grandparent position of bridged edge i. */
  function GrandOf(s: Sentence, i: int): (g: nat)
    requires WellFormed(s) && TreeValid(s) && 0 <= i < |s.tree| && Bridged(s, i)
    ensures g < |s.tree|
  {
    assert EdgeIndexable(s, i);
    PyIndex(s.tree[HeadOf(s, i)].parent, |s.tree|)
  }

  /** One append of the traversal: `feature` goes at the end of token `target`'s list. */
  datatype Append = Append(target: int, feature: Feature)

  /** Number of features edge i appends over all tokens. */
  function EdgeWeight(s: Sentence, i: int): nat
    requires WellFormed(s) && TreeValid(s) && 0 <= i < |s.tree|
  {
    if s.tree[i].rel == Root then 0 else if Bridged(s, i) then 4 else 2
  }

  /**
   * The appends the traversal performs for edge i, in order: SON at the head, PARENT at i,
   * and for a bridged edge SON at the grandparent and PARENT (pointing at the grandparent)
   * at i, all with edge i's own label. A ROOT edge appends nothing.
   */
  function Emits(s: Sentence, i: int): (r: seq<Append>)
    requires WellFormed(s) && TreeValid(s) && 0 <= i < |s.tree|
    ensures |r| == EdgeWeight(s, i)
    ensures forall q :: 0 <= q < |r| ==> 0 <= r[q].target < |s.tree|
  {
    var e := s.tree[i];
    if e.rel == Root then []
    else
      var p := HeadOf(s, i);
      var down := RelF(s.lemmas[i], e.rel, Son);
      [Append(p, down), Append(i, RelF(s.lemmas[p], e.rel, Parent))] +
      (if Bridged(s, i) then
         var g := GrandOf(s, i);
         [Append(g, down), Append(i, RelF(s.lemmas[g], e.rel, Parent))]
       else [])
  }

  /** All appends of the traversal over edges 0 .. k-1, in the order it performs them. */
  function Appends(s: Sentence, k: nat): (r: seq<Append>)
    requires WellFormed(s) && TreeValid(s) && k <= |s.tree|
    ensures forall q :: 0 <= q < |r| ==> 0 <= r[q].target < |s.tree|
  {
    if k == 0 then [] else Appends(s, k - 1) + Emits(s, k - 1)
  }

  /** What one append adds to token j's list. */
  function Pick(a: Append, j: int): seq<Feature>
  {
    if a.target == j then [a.feature] else []
  }

  /** The features a sequence of appends leaves in token j's list, in order. */
  function Select(es: seq<Append>, j: int): seq<Feature>
  {
    if es == [] then [] else Select(es[..|es| - 1], j) + Pick(es[|es| - 1], j)
  }

  /** The per-token feature lists of tree mode: token j gets the appends aimed at j. */
  function TreeFeatures(s: Sentence): (r: seq<seq<Feature>>)
    requires WellFormed(s) && TreeValid(s)
    ensures |r| == |s.tree|
  {
    Traversed(s, |s.tree|)
  }

  /** The per-token lists once edges 0 .. k-1 have been traversed. */
  function Traversed(s: Sentence, k: nat): (r: seq<seq<Feature>>)
    requires WellFormed(s) && TreeValid(s) && k <= |s.tree|
    ensures |r| == |s.tree|
  {
    var es := Appends(s, k);
    seq(|s.tree|, j => Select(es, j))
  }

  /**
   * The traversal: one list per token, then for each edge in increasing order append the
   * SON/PARENT pair and, over a preposition, the bridge.
   */
  method ParseSemanticTree(s: Sentence) returns (r: seq<seq<Feature>>)
    requires WellFormed(s) && TreeValid(s)
    ensures r == TreeFeatures(s)
  {
    var semantics := EmptyLists(s);
    for i := 0 to |s.tree|
      invariant semantics[..] == Traversed(s, i)
    {
      TraverseEdge(semantics, s, i);
    }
    r := semantics[..];
  }

  /** One empty list per token: the lists before any edge is traversed. */
  method EmptyLists(s: Sentence) returns (semantics: array<seq<Feature>>)
    requires WellFormed(s) && TreeValid(s)
    ensures fresh(semantics) && semantics[..] == Traversed(s, 0)
  {
    semantics := new seq<Feature>[|s.words|](_ => []);
    assert semantics[..] == Traversed(s, 0);
  }

  /** The lists after edge i are the lists before it followed by edge i's appends. */
  lemma AppendsNext(s: Sentence, i: int, j: int)
    requires WellFormed(s) && TreeValid(s) && 0 <= i < |s.tree|
    ensures Select(Appends(s, i + 1), j) == Select(Appends(s, i), j) + Select(Emits(s, i), j)
  {
    SelectAppend(Appends(s, i), Emits(s, i), j);
  }

  /** Lists that held edges 0 .. i-1's appends and then received edge i's hold edges 0 .. i's. */
  lemma AppendsStep(s: Sentence, i: int, before: seq<seq<Feature>>, after: seq<seq<Feature>>)
    requires WellFormed(s) && TreeValid(s) && 0 <= i < |s.tree|
    requires before == Traversed(s, i) && |after| == |before|
    requires forall j :: 0 <= j < |after| ==> after[j] == before[j] + Select(Emits(s, i), j)
    ensures after == Traversed(s, i + 1)
  {
    forall j | 0 <= j < |after| ensures after[j] == Traversed(s, i + 1)[j] {
      AppendsNext(s, i, j);
    }
  }

  /** Lists that agree token by token with the appends of the whole traversal are tree mode's lists. */
  lemma TreeFeaturesByToken(s: Sentence, r: seq<seq<Feature>>)
    requires WellFormed(s) && TreeValid(s) && |r| == |s.tree|
    requires forall j :: 0 <= j < |r| ==> r[j] == Select(Appends(s, |s.tree|), j)
    ensures r == TreeFeatures(s)
  {
  }

  /** One iteration of the traversal: lists holding edges 0 .. i-1's appends come to hold edges 0 .. i's. */
  method TraverseEdge(semantics: array<seq<Feature>>, s: Sentence, i: int)
    requires WellFormed(s) && TreeValid(s) && 0 <= i < |s.tree| && semantics.Length == |s.tree|
    requires semantics[..] == Traversed(s, i)
    modifies semantics
    ensures semantics[..] == Traversed(s, i + 1)
  {
    ghost var before := semantics[..];
    AppendEdge(semantics, s, i);
    AppendsStep(s, i, before, semantics[..]);
  }

  /** The body of the traversal for edge i: perform edge i's appends. */
  method AppendEdge(semantics: array<seq<Feature>>, s: Sentence, i: int)
    requires WellFormed(s) && TreeValid(s) && 0 <= i < |s.tree| && semantics.Length == |s.tree|
    modifies semantics
    ensures forall j :: 0 <= j < semantics.Length ==> semantics[j] == old(semantics[j]) + Select(Emits(s, i), j)
  {
    var n := semantics.Length;
    var parentIdx, context := s.tree[i].parent, s.tree[i].rel;
    if context != Root {
      assert EdgeIndexable(s, i);
      var p := PyIndex(parentIdx, n);
      var down := RelF(s.lemmas[i], context, Son);
      AppendPair(semantics, p, i, down, RelF(s.lemmas[p], context, Parent));
      if s.isPrep[p] {
        var parentPrep := s.tree[p].parent;
        if parentPrep != -1 {
          var g := PyIndex(parentPrep, n);
          AppendPair(semantics, g, i, down, RelF(s.lemmas[g], context, Parent));
        }
      }
    }
    forall j | 0 <= j < n {
      SelectEmits(s, i, j);
    }
  }

  /** Appends x to token a's list, then y to token b's list. */
  method AppendPair(semantics: array<seq<Feature>>, a: int, b: int, x: Feature, y: Feature)
    requires 0 <= a < semantics.Length && 0 <= b < semantics.Length
    modifies semantics
    ensures forall j :: 0 <= j < semantics.Length ==>
      semantics[j] == old(semantics[j]) + Pick(Append(a, x), j) + Pick(Append(b, y), j)
  {
    semantics[a] := semantics[a] + [x];
    semantics[b] := semantics[b] + [y];
  }

  // --- appends and the lists they build ---

  /** Performing a then b builds each list from a's features followed by b's. */
  lemma {:induction false} SelectAppend(a: seq<Append>, b: seq<Append>, j: int)
    ensures Select(a + b, j) == Select(a, j) + Select(b, j)
    decreases |b|
  {
    if b != [] {
      assert (a + b)[..|a + b| - 1] == a + b[..|b| - 1];
      SelectAppend(a, b[..|b| - 1], j);
    } else {
      assert a + b == a;
    }
  }

  lemma SelectPair(x: Append, y: Append, j: int)
    ensures Select([x, y], j) == Pick(x, j) + Pick(y, j)
  {
    assert [x, y][..1] == [x];
    assert [x][..0] == [];
    assert Select([x], j) == Pick(x, j);
  }

  /** The list of token j after appends es[..k]: one more append adds its own contribution. */
  lemma SelectPrefix(es: seq<Append>, k: int, j: int)
    requires 0 < k <= |es|
    ensures Select(es[..k], j) == Select(es[..k - 1], j) + Pick(es[k - 1], j)
  {
    assert es[..k][..k - 1] == es[..k - 1];
  }

  /** Three edges of two appends each, as in the worked examples. */
  lemma SelectSix(es: seq<Append>, j: int)
    requires |es| == 6
    ensures Select(es, j) ==
            Pick(es[0], j) + Pick(es[1], j) + Pick(es[2], j) + Pick(es[3], j) + Pick(es[4], j) + Pick(es[5], j)
  {
    assert es[..0] == [];
    SelectPrefix(es, 1, j);
    SelectPrefix(es, 2, j);
    SelectPrefix(es, 3, j);
    SelectPrefix(es, 4, j);
    SelectPrefix(es, 5, j);
    SelectPrefix(es, 6, j);
    assert es[..6] == es;
  }

  /** Edge i's appends seen from token j, one append at a time. */
  lemma SelectEmits(s: Sentence, i: int, j: int)
    requires WellFormed(s) && TreeValid(s) && 0 <= i < |s.tree|
    ensures s.tree[i].rel == Root ==> Select(Emits(s, i), j) == []
    ensures s.tree[i].rel != Root && !Bridged(s, i) ==>
      Select(Emits(s, i), j) == Pick(Emits(s, i)[0], j) + Pick(Emits(s, i)[1], j)
    ensures Bridged(s, i) ==>
      Select(Emits(s, i), j) ==
      Pick(Emits(s, i)[0], j) + Pick(Emits(s, i)[1], j) + Pick(Emits(s, i)[2], j) + Pick(Emits(s, i)[3], j)
  {
    var es := Emits(s, i);
    if s.tree[i].rel != Root {
      SelectPair(es[0], es[1], j);
      if Bridged(s, i) {
        assert es == [es[0], es[1]] + [es[2], es[3]];
        SelectAppend([es[0], es[1]], [es[2], es[3]], j);
        SelectPair(es[2], es[3], j);
      } else {
        assert es == [es[0], es[1]];
      }
    }
  }

  /** An append aimed at j leaves its feature in j's list. */
  lemma {:induction false} SelectKeeps(es: seq<Append>, q: int, j: int)
    requires 0 <= q < |es| && es[q].target == j
    ensures es[q].feature in Select(es, j)
  {
    if q < |es| - 1 {
      SelectKeeps(es[..|es| - 1], q, j);
    }
  }

  /** Every feature in j's list comes from an append aimed at j. */
  lemma {:induction false} SelectSound(es: seq<Append>, j: int, x: Feature)
    requires x in Select(es, j)
    ensures Append(j, x) in es
  {
    var init := es[..|es| - 1];
    if x in Select(init, j) {
      SelectSound(init, j, x);
      assert forall a :: a in init ==> a in es;
    } else {
      assert es[|es| - 1] == Append(j, x);
    }
  }

  /** Edge i's appends are among the appends of edges 0 .. k-1 when i < k. */
  lemma {:induction false} AppendsKeep(s: Sentence, i: int, k: nat, a: Append)
    requires WellFormed(s) && TreeValid(s) && 0 <= i < k <= |s.tree|
    requires a in Emits(s, i)
    ensures a in Appends(s, k)
  {
    if i < k - 1 {
      AppendsKeep(s, i, k - 1, a);
    }
  }

  /** Every append among edges 0 .. k-1 is performed by a non-root edge. */
  lemma {:induction false} AppendsSound(s: Sentence, k: nat, a: Append)
    requires WellFormed(s) && TreeValid(s) && k <= |s.tree|
    requires a in Appends(s, k)
    ensures exists i :: 0 <= i < k && s.tree[i].rel != Root && a in Emits(s, i)
  {
    if a in Appends(s, k - 1) {
      AppendsSound(s, k - 1, a);
    } else {
      assert a in Emits(s, k - 1);
    }
  }

  /** An append aimed at j ends up in tree mode's list for j. */
  lemma TreeFeaturesKeep(s: Sentence, i: int, a: Append)
    requires WellFormed(s) && TreeValid(s) && 0 <= i < |s.tree|
    requires a in Emits(s, i) && 0 <= a.target < |s.tree|
    ensures a.feature in TreeFeatures(s)[a.target]
  {
    var es := Appends(s, |s.tree|);
    AppendsKeep(s, i, |s.tree|, a);
    var q :| 0 <= q < |es| && es[q] == a;
    SelectKeeps(es, q, a.target);
  }

  /**
   * Each ordinary edge (p, r) at token i gives p a SON feature on lemmas i and i a PARENT
   * feature on lemmas p; a bridged edge also links i and the grandparent g both ways.
   */
  lemma EdgeFeaturesPresent(s: Sentence, i: int)
    requires WellFormed(s) && TreeValid(s) && 0 <= i < |s.tree| && s.tree[i].rel != Root
    ensures RelF(s.lemmas[i], s.tree[i].rel, Son) in TreeFeatures(s)[HeadOf(s, i)]
    ensures RelF(s.lemmas[HeadOf(s, i)], s.tree[i].rel, Parent) in TreeFeatures(s)[i]
    ensures Bridged(s, i) ==>
              RelF(s.lemmas[i], s.tree[i].rel, Son) in TreeFeatures(s)[GrandOf(s, i)] &&
              RelF(s.lemmas[GrandOf(s, i)], s.tree[i].rel, Parent) in TreeFeatures(s)[i]
  {
    var es := Emits(s, i);
    TreeFeaturesKeep(s, i, es[0]);
    TreeFeaturesKeep(s, i, es[1]);
    if Bridged(s, i) {
      TreeFeaturesKeep(s, i, es[2]);
      TreeFeaturesKeep(s, i, es[3]);
    }
  }

  /** Every feature tree mode gives token j is appended to j by some non-root edge. */
  lemma TreeFeaturesSound(s: Sentence, j: int, x: Feature)
    requires WellFormed(s) && TreeValid(s) && 0 <= j < |s.tree|
    requires x in TreeFeatures(s)[j]
    ensures exists i :: 0 <= i < |s.tree| && s.tree[i].rel != Root && Append(j, x) in Emits(s, i)
  {
    SelectSound(Appends(s, |s.tree|), j, x);
    AppendsSound(s, |s.tree|, Append(j, x));
  }

  // --- counting the features of tree mode ---

  /** Number of non-root edges among the first k. */
  function NonRootEdges(s: Sentence, k: nat): nat
    requires WellFormed(s) && k <= |s.tree|
  {
    if k == 0 then 0 else NonRootEdges(s, k - 1) + (if s.tree[k - 1].rel != Root then 1 else 0)
  }

  /** Number of bridged edges among the first k. */
  function BridgedEdges(s: Sentence, k: nat): nat
    requires WellFormed(s) && TreeValid(s) && k <= |s.tree|
  {
    if k == 0 then 0 else BridgedEdges(s, k - 1) + (if Bridged(s, k - 1) then 1 else 0)
  }

  /** Edges 0 .. k-1 perform two appends per non-root edge and two more per bridged edge. */
  lemma {:induction false} AppendsCount(s: Sentence, k: nat)
    requires WellFormed(s) && TreeValid(s) && k <= |s.tree|
    ensures |Appends(s, k)| == 2 * NonRootEdges(s, k) + 2 * BridgedEdges(s, k)
  {
    if k > 0 {
      AppendsCount(s, k - 1);
    }
  }

  /** Sum of the list lengths of tokens 0 .. m-1 of a tree-mode result. */
  function TotalLength(ws: seq<seq<Feature>>, m: nat): nat
    requires m <= |ws|
  {
    if m == 0 then 0 else TotalLength(ws, m - 1) + |ws[m - 1]|
  }

  /** Sum of |Select(es, j)| over tokens j < m. */
  function SelectedSize(es: seq<Append>, m: nat): nat
  {
    if m == 0 then 0 else SelectedSize(es, m - 1) + |Select(es, m - 1)|
  }

  function Below(x: int, m: int): nat
  {
    if 0 <= x < m then 1 else 0
  }

  lemma {:induction false} SelectedSizeSnoc(es: seq<Append>, a: Append, m: nat)
    ensures SelectedSize(es + [a], m) == SelectedSize(es, m) + Below(a.target, m)
    decreases m
  {
    if m > 0 {
      SelectedSizeSnoc(es, a, m - 1);
      SelectSnoc(es, a, m - 1);
    }
  }

  /** One more append adds its feature to its own target's list only. */
  lemma SelectSnoc(es: seq<Append>, a: Append, j: int)
    ensures Select(es + [a], j) == Select(es, j) + Pick(a, j)
  {
    assert (es + [a])[..|es|] == es;
  }

  /** When every append aims at a token below n, the n lists together hold every append. */
  lemma {:induction false} SelectedSizeAll(es: seq<Append>, n: nat)
    requires forall q :: 0 <= q < |es| ==> 0 <= es[q].target < n
    ensures SelectedSize(es, n) == |es|
    decreases |es|
  {
    if es == [] {
      SelectedSizeEmpty(n);
    } else {
      var init := es[..|es| - 1];
      SelectedSizeAll(init, n);
      SelectedSizeSnoc(init, es[|es| - 1], n);
      assert init + [es[|es| - 1]] == es;
    }
  }

  lemma {:induction false} SelectedSizeEmpty(m: nat)
    ensures SelectedSize([], m) == 0
  {
    if m > 0 {
      SelectedSizeEmpty(m - 1);
    }
  }

  lemma {:induction false} TotalLengthMatches(s: Sentence, ws: seq<seq<Feature>>, m: nat)
    requires WellFormed(s) && TreeValid(s) && ws == TreeFeatures(s) && m <= |s.tree|
    ensures TotalLength(ws, m) == SelectedSize(Appends(s, |s.tree|), m)
  {
    if m > 0 {
      TotalLengthMatches(s, ws, m - 1);
    }
  }

  /** Tree mode yields two features per non-root edge plus two per bridged edge. */
  lemma TreeFeatureCount(s: Sentence)
    requires WellFormed(s) && TreeValid(s)
    ensures TotalLength(TreeFeatures(s), |s.tree|) ==
            2 * NonRootEdges(s, |s.tree|) + 2 * BridgedEdges(s, |s.tree|)
  {
    var n := |s.tree|;
    TotalLengthMatches(s, TreeFeatures(s), n);
    SelectedSizeAll(Appends(s, n), n);
    AppendsCount(s, n);
  }

  // ---------------------------------------------------------------------------
  // The three modes together
  // ---------------------------------------------------------------------------

  /**
   * The samples of one sentence in a given mode. The three mode tests are independent, as in
   * the source, so a mode name that is none of the three yields nothing.
   */
  function Semantics(s: Sentence, semanticType: string): seq<Sample>
    requires WellFormed(s)
    requires semanticType == TreeMode ==> TreeValid(s)
  {
    var n := |s.lemmas|;
    (if semanticType == SentenceMode
     then seq(n, i requires 0 <= i < n => Sample(s.words[i], s.lemmas[i], AsFeatures(SentenceContext(s.lemmas, i))))
     else []) +
    (if semanticType == WindowMode
     then seq(n, i requires 0 <= i < n => Sample(s.words[i], s.lemmas[i], AsFeatures(WindowContext(s.lemmas, i))))
     else []) +
    (if semanticType == TreeMode
     then var ws := TreeFeatures(s); seq(n, i requires 0 <= i < n => Sample(s.words[i], s.lemmas[i], ws[i]))
     else [])
  }

  predicate KnownMode(semanticType: string)
  {
    semanticType == SentenceMode || semanticType == WindowMode || semanticType == TreeMode
  }

  /** The i-th feature list of a known mode, as an independent reference for Semantics. */
  function FeaturesAt(s: Sentence, semanticType: string, i: int): seq<Feature>
    requires WellFormed(s) && KnownMode(semanticType) && 0 <= i < |s.lemmas|
    requires semanticType == TreeMode ==> TreeValid(s)
  {
    if semanticType == SentenceMode then AsFeatures(s.lemmas[..i] + s.lemmas[i + 1..])
    else if semanticType == WindowMode
    then AsFeatures((if i >= 2 then s.lemmas[i - 2..i] else []) + s.lemmas[i + 1..Min(|s.lemmas|, i + 3)])
    else TreeFeatures(s)[i]
  }

  /**
   * A known mode yields exactly one sample per token, the i-th being (words[i], lemmas[i], its
   * features); any other mode name yields nothing.
   */
  lemma SemanticsShape(s: Sentence, semanticType: string)
    requires WellFormed(s)
    requires semanticType == TreeMode ==> TreeValid(s)
    ensures KnownMode(semanticType) ==> |Semantics(s, semanticType)| == |s.lemmas|
    ensures !KnownMode(semanticType) ==> Semantics(s, semanticType) == []
    ensures KnownMode(semanticType) ==>
              forall i :: 0 <= i < |s.lemmas| ==>
                Semantics(s, semanticType)[i] == Sample(s.words[i], s.lemmas[i], FeaturesAt(s, semanticType, i))
  {
    if KnownMode(semanticType) {
      forall i | 0 <= i < |s.lemmas|
        ensures Semantics(s, semanticType)[i] == Sample(s.words[i], s.lemmas[i], FeaturesAt(s, semanticType, i))
      {
        SentenceContextExcludesSelf(s.lemmas, i);
        WindowContextShape(s.lemmas, i);
      }
    }
  }

  /** The generator of samples for one sentence. */
  method WordsSemantics(s: Sentence, semanticType: string) returns (samples: seq<Sample>)
    requires WellFormed(s)
    requires semanticType == TreeMode ==> TreeValid(s)
    ensures samples == Semantics(s, semanticType)
  {
    var n := |s.lemmas|;
    samples := [];
    if semanticType == SentenceMode {
      samples := samples + seq(n, i requires 0 <= i < n =>
                                 Sample(s.words[i], s.lemmas[i], AsFeatures(SentenceContext(s.lemmas, i))));
    }
    if semanticType == WindowMode {
      samples := samples + seq(n, i requires 0 <= i < n =>
                                 Sample(s.words[i], s.lemmas[i], AsFeatures(WindowContext(s.lemmas, i))));
    }
    if semanticType == TreeMode {
      var ws := ParseSemanticTree(s);
      samples := samples + seq(n, i requires 0 <= i < n => Sample(s.words[i], s.lemmas[i], ws[i]));
    }
  }

  // ---------------------------------------------------------------------------
  // Worked examples
  // ---------------------------------------------------------------------------

  /** "a yellow garbage can": det and amod hang on "garbage", which is the nsubj of the root "can". */
  function GarbageCan(): Sentence
  {
    Sentence(["a", "yellow", "garbage", "can"], ["a", "yellow", "garbage", "can"],
             [false, false, false, false],
             [Edge(2, "det"), Edge(2, "amod"), Edge(3, "nsubj"), Edge(-1, Root)])
  }

  /** The traversal of GarbageCan(): det, amod, nsubj, and nothing for the root. */
  lemma GarbageCanAppends()
    ensures WellFormed(GarbageCan()) && TreeValid(GarbageCan())
    ensures Appends(GarbageCan(), 4) ==
            [Append(2, RelF("a", "det", Son)), Append(0, RelF("garbage", "det", Parent)),
             Append(2, RelF("yellow", "amod", Son)), Append(1, RelF("garbage", "amod", Parent)),
             Append(3, RelF("garbage", "nsubj", Son)), Append(2, RelF("can", "nsubj", Parent))]
  {
    var s := GarbageCan();
    assert "det" != Root && "amod" != Root && "nsubj" != Root;
    assert EdgeIndexable(s, 0) && EdgeIndexable(s, 1) && EdgeIndexable(s, 2);
    assert TreeValid(s);
    assert !Bridged(s, 0) && !Bridged(s, 1) && !Bridged(s, 2);
  }

  /** Who receives what among the six appends of GarbageCan(). */
  lemma GarbageCanLists(es: seq<Append>)
    requires es ==
             [Append(2, RelF("a", "det", Son)), Append(0, RelF("garbage", "det", Parent)),
              Append(2, RelF("yellow", "amod", Son)), Append(1, RelF("garbage", "amod", Parent)),
              Append(3, RelF("garbage", "nsubj", Son)), Append(2, RelF("can", "nsubj", Parent))]
    ensures Select(es, 0) == [RelF("garbage", "det", Parent)]
    ensures Select(es, 1) == [RelF("garbage", "amod", Parent)]
    ensures Select(es, 2) == [RelF("a", "det", Son), RelF("yellow", "amod", Son), RelF("can", "nsubj", Parent)]
    ensures Select(es, 3) == [RelF("garbage", "nsubj", Son)]
  {
    SelectSix(es, 0);
    SelectSix(es, 1);
    SelectSix(es, 2);
    SelectSix(es, 3);
  }

  /** Tree mode on GarbageCan() gives exactly the lists the code builds for the demo sentence. */
  lemma GarbageCanTree(s: Sentence)
    requires s == GarbageCan()
    ensures WellFormed(s) && TreeValid(s)
    ensures TreeFeatures(s) ==
            [[RelF("garbage", "det", Parent)],
             [RelF("garbage", "amod", Parent)],
             [RelF("a", "det", Son), RelF("yellow", "amod", Son), RelF("can", "nsubj", Parent)],
             [RelF("garbage", "nsubj", Son)]]
  {
    GarbageCanAppends();
    GarbageCanLists(Appends(s, 4));
    TreeFeaturesByToken(s,
            [[RelF("garbage", "det", Parent)],
             [RelF("garbage", "amod", Parent)],
             [RelF("a", "det", Son), RelF("yellow", "amod", Son), RelF("can", "nsubj", Parent)],
             [RelF("garbage", "nsubj", Son)]]);
  }

  /** The same sentence in window mode: "yellow" (token 1) sees only "garbage" and "can". */
  lemma GarbageCanWindow()
    ensures WellFormed(GarbageCan())
    ensures Semantics(GarbageCan(), WindowMode)[1] ==
            Sample("yellow", "yellow", [LemmaF("garbage"), LemmaF("can")])
    ensures Semantics(GarbageCan(), WindowMode)[2] ==
            Sample("garbage", "garbage", [LemmaF("a"), LemmaF("yellow"), LemmaF("can")])
  {
    var s := GarbageCan();
    SemanticsShape(s, WindowMode);
    assert s.lemmas[2..4] == ["garbage", "can"];
    assert s.lemmas[0..2] == ["a", "yellow"];
    assert s.lemmas[3..4] == ["can"];
  }

  /** "sat on mat": "mat" hangs on the preposition "on", which hangs on the root "sat". */
  function SatOnMat(): Sentence
  {
    Sentence(["sat", "on", "mat"], ["sit", "on", "mat"], [false, true, false],
             [Edge(-1, Root), Edge(0, "prep"), Edge(1, "pobj")])
  }

  /** The traversal of SatOnMat(): prep, then pobj bridged over the preposition "on". */
  lemma SatOnMatAppends()
    ensures WellFormed(SatOnMat()) && TreeValid(SatOnMat())
    ensures Appends(SatOnMat(), 3) ==
            [Append(0, RelF("on", "prep", Son)), Append(1, RelF("sit", "prep", Parent)),
             Append(1, RelF("mat", "pobj", Son)), Append(2, RelF("on", "pobj", Parent)),
             Append(0, RelF("mat", "pobj", Son)), Append(2, RelF("sit", "pobj", Parent))]
  {
    var s := SatOnMat();
    assert "prep" != Root && "pobj" != Root;
    assert EdgeIndexable(s, 1) && EdgeIndexable(s, 2);
    assert TreeValid(s);
    assert !Bridged(s, 1) && Bridged(s, 2);
  }

  /** Who receives what among the six appends of SatOnMat(). */
  lemma SatOnMatLists(es: seq<Append>)
    requires es ==
             [Append(0, RelF("on", "prep", Son)), Append(1, RelF("sit", "prep", Parent)),
              Append(1, RelF("mat", "pobj", Son)), Append(2, RelF("on", "pobj", Parent)),
              Append(0, RelF("mat", "pobj", Son)), Append(2, RelF("sit", "pobj", Parent))]
    ensures Select(es, 0) == [RelF("on", "prep", Son), RelF("mat", "pobj", Son)]
    ensures Select(es, 1) == [RelF("sit", "prep", Parent), RelF("mat", "pobj", Son)]
    ensures Select(es, 2) == [RelF("on", "pobj", Parent), RelF("sit", "pobj", Parent)]
  {
    SelectSix(es, 0);
    SelectSix(es, 1);
    SelectSix(es, 2);
  }

  /** The child of a preposition is linked to the grandparent with its own label, both ways. */
  lemma SatOnMatBridge(s: Sentence)
    requires s == SatOnMat()
    ensures WellFormed(s) && TreeValid(s)
    ensures TreeFeatures(s) ==
            [[RelF("on", "prep", Son), RelF("mat", "pobj", Son)],
             [RelF("sit", "prep", Parent), RelF("mat", "pobj", Son)],
             [RelF("on", "pobj", Parent), RelF("sit", "pobj", Parent)]]
  {
    SatOnMatAppends();
    SatOnMatLists(Appends(s, 3));
    TreeFeaturesByToken(s,
            [[RelF("on", "prep", Son), RelF("mat", "pobj", Son)],
             [RelF("sit", "prep", Parent), RelF("mat", "pobj", Son)],
             [RelF("on", "pobj", Parent), RelF("sit", "pobj", Parent)]]);
  }
}
