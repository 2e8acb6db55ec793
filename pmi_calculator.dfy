/**
 * The co-occurrence tables of Part1_PMI_Semantics/pmi_calculator.py. For every sample whose
 * lemma lies in the frequency band, each of its features is counted per lemma
 * (contextVectors), per feature (ftrCount) and in a reverse index (ftrToLemma); features are
 * then flagged as eligible (ftrList), and each in-band lemma gets the squared norm of its
 * eligible, frequent enough counts (normWords).
 *
 * The tables are specified by the flat sequence of counted (lemma, feature) occurrences:
 * every count equals a number of occurrences in it.
 */
module Pmi {
  import opened Parameters
  import opened Common
  import opened Sentences
  import opened DataLoader

  type Pair = (string, Feature)

  /** Every sample lemma has an entry in the lemma count table. */
  predicate Known(samples: seq<Sample>, lemmaCount: map<string, int>)
  {
    forall k :: 0 <= k < |samples| ==> samples[k].lemmaWord in lemmaCount
  }

  /** The lemmas counted at all: those whose corpus count lies in the band. */
  function InBandLemmas(lemmaCount: map<string, int>): (r: set<string>)
    ensures forall l :: l in r <==> l in lemmaCount && InBand(lemmaCount[l])
  {
    set l | l in lemmaCount && InBand(lemmaCount[l])
  }

  /** The (lemma, feature) occurrences one sample contributes: none when its lemma is out of band. */
  function SamplePairs(s: Sample, lemmaCount: map<string, int>): seq<Pair>
    requires s.lemmaWord in lemmaCount
  {
    if InBand(lemmaCount[s.lemmaWord])
    then seq(|s.features|, j requires 0 <= j < |s.features| => (s.lemmaWord, s.features[j]))
    else []
  }

  /** All counted occurrences, sample after sample. */
  function Pairs(samples: seq<Sample>, lemmaCount: map<string, int>): seq<Pair>
    requires Known(samples, lemmaCount)
  {
    if samples == [] then []
    else Pairs(samples[..|samples| - 1], lemmaCount) + SamplePairs(samples[|samples| - 1], lemmaCount)
  }

  /** Occurrences of the pair (l, f). */
  function Occ(P: seq<Pair>, l: string, f: Feature): nat
  {
    if P == [] then 0 else Occ(P[..|P| - 1], l, f) + (if P[|P| - 1] == (l, f) then 1 else 0)
  }

  /** Occurrences of feature f with any lemma. */
  function FtrOcc(P: seq<Pair>, f: Feature): nat
  {
    if P == [] then 0 else FtrOcc(P[..|P| - 1], f) + (if P[|P| - 1].1 == f then 1 else 0)
  }

  /** contextVectors: one vector per in-band lemma, holding the occurrence count of each feature seen with it. */
  ghost predicate VectorsReflect(cv: map<string, map<Feature, int>>, lemmaCount: map<string, int>, P: seq<Pair>)
  {
    cv.Keys == InBandLemmas(lemmaCount) &&
    (forall l, f :: l in cv ==> (f in cv[l] <==> Occ(P, l, f) > 0)) &&
    (forall l, f :: l in cv && f in cv[l] ==> cv[l][f] == Occ(P, l, f))
  }

  /** ftrCount: the occurrence count of each feature seen. */
  ghost predicate CountsReflect(fc: map<Feature, int>, P: seq<Pair>)
  {
    (forall f :: f in fc <==> FtrOcc(P, f) > 0) &&
    (forall f :: f in fc ==> fc[f] == FtrOcc(P, f))
  }

  /** ftrToLemma: for each feature seen, the lemmas seen with it, each mapped to 1. */
  ghost predicate ReverseReflects(ftl: map<Feature, map<string, int>>, P: seq<Pair>)
  {
    (forall f :: f in ftl <==> FtrOcc(P, f) > 0) &&
    (forall f, l :: f in ftl ==> (l in ftl[f] <==> Occ(P, l, f) > 0)) &&
    (forall f, l :: f in ftl && l in ftl[f] ==> ftl[f][l] == 1)
  }

  /** The three counting tables are exactly those of the occurrences P. */
  ghost predicate Reflects(cv: map<string, map<Feature, int>>, fc: map<Feature, int>, ftl: map<Feature, map<string, int>>,
                     lemmaCount: map<string, int>, P: seq<Pair>)
  {
    VectorsReflect(cv, lemmaCount, P) && CountsReflect(fc, P) && ReverseReflects(ftl, P)
  }

  /** self._context_vectors[l].get(f, 0), and 0 for a lemma without a vector. */
  function Score(cv: map<string, map<Feature, int>>, l: string, f: Feature): int
  {
    if l in cv then Get(cv[l], f) else 0
  }

  /** The eligibility flags: one per feature seen, true when it is frequent enough. */
  function Eligibility(fc: map<Feature, int>): (r: map<Feature, bool>)
    ensures r.Keys == fc.Keys
    ensures forall f :: f in r ==> (r[f] <==> fc[f] >= FeatureFreqBar)
  {
    map f | f in fc :: fc[f] >= FeatureFreqBar
  }

  /** The squared-norm weight of one entry: its count squared if it survives both filters, else 0. */
  function NormWeight(v: map<Feature, int>, fl: map<Feature, bool>, f: Feature): int
  {
    if f in v && f in fl && fl[f] && v[f] >= CoOccurrenceBar then v[f] * v[f] else 0
  }

  /** The squared norm of a context vector: the sum of c*c over its surviving entries (f, c). */
  ghost function NormSquared(v: map<Feature, int>, fl: map<Feature, bool>): int
  {
    SetSum(v.Keys, f => NormWeight(v, fl, f))
  }

  // ---------------------------------------------------------------------------
  // Properties of the occurrence specification
  // ---------------------------------------------------------------------------

  lemma {:induction false} OccAppend(A: seq<Pair>, B: seq<Pair>, l: string, f: Feature)
    ensures Occ(A + B, l, f) == Occ(A, l, f) + Occ(B, l, f)
    ensures FtrOcc(A + B, f) == FtrOcc(A, f) + FtrOcc(B, f)
    decreases |B|
  {
    if B == [] {
      assert A + B == A;
    } else {
      assert (A + B)[..|A + B| - 1] == A + B[..|B| - 1];
      OccAppend(A, B[..|B| - 1], l, f);
    }
  }

  /** Within one in-band sample, a pair (l, f) occurs as often as f occurs in its features when l is its lemma. */
  lemma {:induction false} OccOfSample(s: Sample, lemmaCount: map<string, int>, l: string, f: Feature)
    requires s.lemmaWord in lemmaCount && InBand(lemmaCount[s.lemmaWord])
    ensures Occ(SamplePairs(s, lemmaCount), l, f) == if l == s.lemmaWord then multiset(s.features)[f] else 0
    decreases |s.features|
  {
    var run := SamplePairs(s, lemmaCount);
    if s.features != [] {
      var init := s.features[..|s.features| - 1];
      var t := s.(features := init);
      assert run[..|run| - 1] == SamplePairs(t, lemmaCount);
      OccOfSample(t, lemmaCount, l, f);
      assert s.features == init + [s.features[|s.features| - 1]];
    }
  }

  lemma PairsSnoc(samples: seq<Sample>, s: Sample, lemmaCount: map<string, int>)
    requires Known(samples + [s], lemmaCount)
    ensures Known(samples, lemmaCount) && s.lemmaWord in lemmaCount
    ensures Pairs(samples + [s], lemmaCount) == Pairs(samples, lemmaCount) + SamplePairs(s, lemmaCount)
  {
    assert Known(samples, lemmaCount) by {
      forall k | 0 <= k < |samples| ensures samples[k].lemmaWord in lemmaCount {
        assert samples[k] == (samples + [s])[k];
      }
    }
    assert (samples + [s])[..|samples|] == samples;
    assert (samples + [s])[|samples|] == s;
  }

  /**
   * Counting one more sample: out of band it changes nothing; in band, each occurrence of a
   * feature in it adds exactly one to that (lemma, feature) count and nothing else.
   */
  lemma CountOneSample(samples: seq<Sample>, s: Sample, lemmaCount: map<string, int>, l: string, f: Feature)
    requires Known(samples + [s], lemmaCount)
    ensures Known(samples, lemmaCount)
    ensures !InBand(lemmaCount[s.lemmaWord]) ==> Pairs(samples + [s], lemmaCount) == Pairs(samples, lemmaCount)
    ensures Occ(Pairs(samples + [s], lemmaCount), l, f) ==
            Occ(Pairs(samples, lemmaCount), l, f) +
            (if l == s.lemmaWord && InBand(lemmaCount[s.lemmaWord]) then multiset(s.features)[f] else 0)
  {
    PairsSnoc(samples, s, lemmaCount);
    OccAppend(Pairs(samples, lemmaCount), SamplePairs(s, lemmaCount), l, f);
    if InBand(lemmaCount[s.lemmaWord]) {
      OccOfSample(s, lemmaCount, l, f);
    } else {
      assert Pairs(samples, lemmaCount) + [] == Pairs(samples, lemmaCount);
    }
  }

  lemma PairsNext(samples: seq<Sample>, i: int, lemmaCount: map<string, int>)
    requires Known(samples, lemmaCount) && 0 <= i < |samples|
    ensures Known(samples[..i + 1], lemmaCount)
    ensures Pairs(samples[..i + 1], lemmaCount) == Pairs(samples[..i], lemmaCount) + SamplePairs(samples[i], lemmaCount)
  {
    assert samples[..i + 1][..i] == samples[..i];
  }

  /** Every counted occurrence has an in-band lemma. */
  lemma {:induction false} PairsInBand(samples: seq<Sample>, lemmaCount: map<string, int>)
    requires Known(samples, lemmaCount)
    ensures forall k :: 0 <= k < |Pairs(samples, lemmaCount)| ==> Pairs(samples, lemmaCount)[k].0 in InBandLemmas(lemmaCount)
  {
    if samples != [] {
      var init := samples[..|samples| - 1];
      assert Known(init, lemmaCount) by {
        assert forall k :: 0 <= k < |init| ==> init[k] == samples[k];
      }
      PairsInBand(init, lemmaCount);
    }
  }

  /** A feature's occurrences are the sum of its occurrences with each lemma. */
  lemma {:induction false} FtrOccIsSum(P: seq<Pair>, ks: set<string>, f: Feature)
    requires forall k :: 0 <= k < |P| ==> P[k].0 in ks
    ensures FtrOcc(P, f) == SetSum(ks, l => Occ(P, l, f))
    decreases |P|
  {
    if P == [] {
      SetSumNonNegative(ks, l => Occ(P, l, f));
    } else {
      var init := P[..|P| - 1];
      var last := P[|P| - 1];
      assert forall k :: 0 <= k < |init| ==> init[k] == P[k];
      FtrOccIsSum(init, ks, f);
      if last.1 == f {
        SetSumBump(ks, l => Occ(init, l, f), l => Occ(P, l, f), last.0, 1);
      } else {
        SetSumCongruent(ks, l => Occ(init, l, f), l => Occ(P, l, f));
      }
    }
  }

  /** Before counting: every in-band lemma has an empty vector, and nothing else is recorded. */
  lemma ReflectsNothing(lemmaCount: map<string, int>)
    ensures Reflects(map l | l in InBandLemmas(lemmaCount) :: map[], map[], map[], lemmaCount, [])
  {
  }

  lemma VectorsStep(cv: map<string, map<Feature, int>>, lemmaCount: map<string, int>, P: seq<Pair>, l: string, f: Feature)
    requires VectorsReflect(cv, lemmaCount, P) && l in cv
    ensures VectorsReflect(cv[l := cv[l][f := Get(cv[l], f) + 1]], lemmaCount, P + [(l, f)])
  {
    assert (P + [(l, f)])[..|P|] == P;
  }

  lemma CountsStep(fc: map<Feature, int>, P: seq<Pair>, l: string, f: Feature)
    requires CountsReflect(fc, P)
    ensures CountsReflect(fc[f := Get(fc, f) + 1], P + [(l, f)])
  {
    assert (P + [(l, f)])[..|P|] == P;
  }

  lemma ReverseStep(ftl: map<Feature, map<string, int>>, P: seq<Pair>, l: string, f: Feature,
                    ftl1: map<Feature, map<string, int>>, ftl2: map<Feature, map<string, int>>)
    requires ReverseReflects(ftl, P)
    requires ftl1 == (if f in ftl then ftl else ftl[f := map[]])
    requires ftl2 == (if l in ftl1[f] then ftl1 else ftl1[f := ftl1[f][l := Get(ftl1[f], l) + 1]])
    ensures ReverseReflects(ftl2, P + [(l, f)])
  {
    var Q := P + [(l, f)];
    assert Q[..|P|] == P;
    forall g ensures g in ftl2 <==> FtrOcc(Q, g) > 0 {
      assert FtrOcc(Q, g) == FtrOcc(P, g) + (if g == f then 1 else 0);
    }
    forall g, m | g in ftl2 ensures m in ftl2[g] <==> Occ(Q, m, g) > 0 {
      assert Occ(Q, m, g) == Occ(P, m, g) + (if (m, g) == (l, f) then 1 else 0);
      OccBelowFtrOcc(P, m, g);
      if g != f {
        assert ftl2[g] == ftl[g];
      }
    }
    forall g, m | g in ftl2 && m in ftl2[g] ensures ftl2[g][m] == 1 {
      if g != f {
        assert ftl2[g] == ftl[g];
      } else if m == l {
        assert l !in ftl1[f] ==> ftl2[f][l] == 1;
      } else {
        assert ftl2[f][m] == ftl1[f][m];
        assert f in ftl;
      }
    }
  }

  /** Counting one more occurrence (l, f) into the three tables keeps them reflecting the occurrences. */
  lemma ReflectsStep(cv: map<string, map<Feature, int>>, fc: map<Feature, int>, ftl: map<Feature, map<string, int>>,
                     lemmaCount: map<string, int>, P: seq<Pair>, l: string, f: Feature,
                     cv2: map<string, map<Feature, int>>, fc2: map<Feature, int>,
                     ftl1: map<Feature, map<string, int>>, ftl2: map<Feature, map<string, int>>, P2: seq<Pair>)
    requires Reflects(cv, fc, ftl, lemmaCount, P) && l in cv
    requires cv2 == cv[l := cv[l][f := Get(cv[l], f) + 1]] && fc2 == fc[f := Get(fc, f) + 1]
    requires ftl1 == (if f in ftl then ftl else ftl[f := map[]])
    requires ftl2 == (if l in ftl1[f] then ftl1 else ftl1[f := ftl1[f][l := Get(ftl1[f], l) + 1]])
    requires P2 == P + [(l, f)]
    ensures Reflects(cv2, fc2, ftl2, lemmaCount, P2)
  {
    VectorsStep(cv, lemmaCount, P, l, f);
    CountsStep(fc, P, l, f);
    ReverseStep(ftl, P, l, f, ftl1, ftl2);
  }

  /**
   * The structure counting gives the tables: every stored count is at least 1, each feature
   * total is the sum of that feature's counts over the lemma vectors, a lemma is in the
   * reverse index of a feature exactly when the feature is in the lemma's vector, with
   * value 1, and the reverse index covers exactly the counted features.
   */
  lemma TablesAgree(cv: map<string, map<Feature, int>>, fc: map<Feature, int>, ftl: map<Feature, map<string, int>>,
                    samples: seq<Sample>, lemmaCount: map<string, int>)
    requires Known(samples, lemmaCount) && Reflects(cv, fc, ftl, lemmaCount, Pairs(samples, lemmaCount))
    ensures forall l, f :: l in cv && f in cv[l] ==> cv[l][f] >= 1 && f in fc
    ensures forall f :: f in fc ==> fc[f] >= 1 && fc[f] == SetSum(cv.Keys, l => Score(cv, l, f))
    ensures forall f, l :: (f in ftl && l in ftl[f]) <==> (l in cv && f in cv[l])
    ensures forall f, l :: f in ftl && l in ftl[f] ==> ftl[f][l] == 1
    ensures ftl.Keys == fc.Keys
  {
    var P := Pairs(samples, lemmaCount);
    PairsInBand(samples, lemmaCount);
    forall l, f | l in cv && f in cv[l] ensures f in fc {
      OccBelowFtrOcc(P, l, f);
    }
    forall f | f in fc ensures fc[f] == SetSum(cv.Keys, l => Score(cv, l, f)) {
      FtrOccIsSum(P, cv.Keys, f);
      SetSumCongruent(cv.Keys, l => Occ(P, l, f), l => Score(cv, l, f));
    }
    forall f, l | f in ftl && l in ftl[f] ensures l in cv {
      assert Occ(P, l, f) > 0;
      OccLemmaInBand(P, l, f, cv.Keys);
    }
  }

  lemma {:induction false} OccBelowFtrOcc(P: seq<Pair>, l: string, f: Feature)
    ensures Occ(P, l, f) <= FtrOcc(P, f)
    decreases |P|
  {
    if P != [] {
      OccBelowFtrOcc(P[..|P| - 1], l, f);
    }
  }

  lemma {:induction false} OccLemmaInBand(P: seq<Pair>, l: string, f: Feature, ks: set<string>)
    requires forall k :: 0 <= k < |P| ==> P[k].0 in ks
    requires Occ(P, l, f) > 0
    ensures l in ks
    decreases |P|
  {
    var init := P[..|P| - 1];
    if P[|P| - 1] != (l, f) {
      assert forall k :: 0 <= k < |init| ==> init[k] == P[k];
      OccLemmaInBand(init, l, f, ks);
    }
  }

  /** With a feature threshold of 1, every feature that was counted is eligible. */
  lemma EveryFeatureEligible(fc: map<Feature, int>, P: seq<Pair>)
    requires CountsReflect(fc, P)
    ensures forall f :: f in Eligibility(fc) ==> Eligibility(fc)[f]
  {
  }

  /** Flags set feature by feature for every counted feature, over earlier flags, are those flags merged with Eligibility. */
  lemma MergedFlags(before: map<Feature, bool>, fc: map<Feature, int>, after: map<Feature, bool>)
    requires forall f :: f in after <==> f in before || f in fc
    requires forall f :: f in fc ==> after[f] == (fc[f] >= FeatureFreqBar)
    requires forall f :: f in after && f !in fc ==> after[f] == before[f]
    ensures after == before + Eligibility(fc)
  {
  }

  /** Every feature in a lemma's vector has been counted. */
  lemma VectorFeaturesCounted(cv: map<string, map<Feature, int>>, fc: map<Feature, int>,
                              ftl: map<Feature, map<string, int>>, lemmaCount: map<string, int>, P: seq<Pair>)
    requires Reflects(cv, fc, ftl, lemmaCount, P)
    ensures forall l, f :: l in cv && f in cv[l] ==> f in fc
  {
    forall l, f | l in cv && f in cv[l] ensures f in fc {
      OccBelowFtrOcc(P, l, f);
    }
  }

  /** A squared norm is never negative, and it is 0 exactly when no entry survives the filters. */
  lemma NormSquaredZero(v: map<Feature, int>, fl: map<Feature, bool>)
    ensures NormSquared(v, fl) >= 0
    ensures NormSquared(v, fl) == 0 <==>
            forall f :: f in v ==> !(f in fl && fl[f] && v[f] >= CoOccurrenceBar)
  {
    var w := f => NormWeight(v, fl, f);
    assert forall f :: f in v.Keys ==> w(f) >= 0;
    SetSumNonNegative(v.Keys, w);
    assert forall f :: f in v.Keys ==> (w(f) == 0 <==> !(f in fl && fl[f] && v[f] >= CoOccurrenceBar));
  }

  /**
   * The query guard of the cosine distance: the result is empty when the first lemma is out of
   * band, or when a second lemma is supplied (neither None nor empty) and is out of band. The
   * `or` short-circuits, so the second lemma is looked up only when the first one is in band.
   */
  function OutOfBandQuery(lemmaCount: map<string, int>, lemma1: string, lemma2: Option<string>): (r: bool)
    requires lemma1 in lemmaCount
    requires lemma2.Some? && lemma2.value != "" && InBand(lemmaCount[lemma1]) ==> lemma2.value in lemmaCount
    ensures !InBand(lemmaCount[lemma1]) ==> r
    ensures !r <==> lemma1 in InBandLemmas(lemmaCount) &&
                    (lemma2.Some? && lemma2.value != "" ==> lemma2.value in InBandLemmas(lemmaCount))
  {
    !InBand(lemmaCount[lemma1]) ||
    (lemma2.Some? && lemma2.value != "" && !InBand(lemmaCount[lemma2.value]))
  }

  /** Sets the flag of every counted feature, in any order, over the flags already there. */
  method SetFlags(before: map<Feature, bool>, fc: map<Feature, int>) returns (flags: map<Feature, bool>)
    ensures flags == before + Eligibility(fc)
  {
    flags := before;
    var todo := fc.Keys;
    while todo != {}
      invariant todo <= fc.Keys
      invariant forall f :: f in flags <==> f in before || (f in fc && f !in todo)
      invariant forall f :: f in fc && f !in todo ==> flags[f] == (fc[f] >= FeatureFreqBar)
      invariant forall f :: f in flags && f !in fc ==> flags[f] == before[f]
      decreases |todo|
    {
      var f :| f in todo;
      flags := flags[f := if fc[f] < FeatureFreqBar then false else true];
      todo := todo - {f};
    }
    MergedFlags(before, fc, flags);
  }

  // ---------------------------------------------------------------------------
  // The calculator object
  // ---------------------------------------------------------------------------

  class PMICalculator {
    const semanticType: string
    const dl: SemanticsDataLoader
    const lemmaCount: map<string, int>
    var ftrToLemma: map<Feature, map<string, int>>
    var contextVectors: map<string, map<Feature, int>>
    var ftrList: map<Feature, bool>
    var ftrCount: map<Feature, int>
    var normWords: map<string, int>

    /** The samples the tables are built from. */
    ghost function Samples(): seq<Sample>
      requires Extractable(dl.data, semanticType)
    {
      AllSamples(dl.data, semanticType)
    }

    /** The tables describe the counted occurrences of the loader's samples. */
    ghost predicate Valid()
      reads this
    {
      dl.Valid() && (semanticType == TreeMode ==> TreesValid(dl.data)) && Known(Samples(), lemmaCount) &&
      Reflects(contextVectors, ftrCount, ftrToLemma, lemmaCount, Pairs(Samples(), lemmaCount)) &&
      ftrList == Eligibility(ftrCount) &&
      normWords.Keys == contextVectors.Keys &&
      forall l :: l in normWords ==> normWords[l] == NormSquared(contextVectors[l], ftrList)
    }

    /** Builds all tables from the loader's samples in the given mode. */
    constructor(dl: SemanticsDataLoader, lemmaCount: map<string, int>, semanticType: string)
      requires dl.Valid() && (semanticType == TreeMode ==> TreesValid(dl.data))
      requires Known(AllSamples(dl.data, semanticType), lemmaCount)
      ensures this.semanticType == semanticType && this.dl == dl && this.lemmaCount == lemmaCount
      ensures Valid()
    {
      this.semanticType := semanticType;
      this.dl := dl;
      this.lemmaCount := lemmaCount;
      ftrToLemma := map[];
      contextVectors := map l | l in InBandLemmas(lemmaCount) :: map[];
      ftrList := map[];
      ftrCount := map[];
      normWords := map[];
      new;
      CalculateContext();
      VectorFeaturesCounted(contextVectors, ftrCount, ftrToLemma, lemmaCount, Pairs(Samples(), lemmaCount));
      ComputeNorms();
    }

    /** Counts one feature occurrence of an in-band lemma into the three tables. */
    method AddFeature(l: string, f: Feature, ghost P: seq<Pair>)
      modifies this`contextVectors, this`ftrCount, this`ftrToLemma
      requires l in contextVectors && Reflects(contextVectors, ftrCount, ftrToLemma, lemmaCount, P)
      ensures Reflects(contextVectors, ftrCount, ftrToLemma, lemmaCount, P + [(l, f)])
    {
      var cv, fc, ftl := contextVectors, ftrCount, ftrToLemma;
      cv := cv[l := cv[l][f := Get(cv[l], f) + 1]];
      fc := fc[f := Get(fc, f) + 1];
      if f !in ftl {
        ftl := ftl[f := map[]];
      }
      ghost var ftl1 := ftl;
      if l !in ftl[f] {
        ftl := ftl[f := ftl[f][l := Get(ftl[f], l) + 1]];
      }
      ReflectsStep(contextVectors, ftrCount, ftrToLemma, lemmaCount, P, l, f, cv, fc, ftl1, ftl, P + [(l, f)]);
      contextVectors, ftrCount, ftrToLemma := cv, fc, ftl;
    }

    /** Counts every feature of one sample, or nothing when its lemma is out of band. */
    method CountSample(s: Sample, ghost P: seq<Pair>)
      modifies this`contextVectors, this`ftrCount, this`ftrToLemma
      requires s.lemmaWord in lemmaCount && Reflects(contextVectors, ftrCount, ftrToLemma, lemmaCount, P)
      ensures Reflects(contextVectors, ftrCount, ftrToLemma, lemmaCount, P + SamplePairs(s, lemmaCount))
      ensures !InBand(lemmaCount[s.lemmaWord]) ==>
                contextVectors == old(contextVectors) && ftrCount == old(ftrCount) && ftrToLemma == old(ftrToLemma)
    {
      var l := s.lemmaWord;
      if !InBand(lemmaCount[l]) {
        assert P + SamplePairs(s, lemmaCount) == P;
        return;
      }
      ghost var run := SamplePairs(s, lemmaCount);
      assert P + run[..0] == P;
      for j := 0 to |s.features|
        invariant Reflects(contextVectors, ftrCount, ftrToLemma, lemmaCount, P + run[..j])
      {
        AddFeature(l, s.features[j], P + run[..j]);
        assert P + run[..j + 1] == P + run[..j] + [(l, s.features[j])];
      }
      assert run[..|s.features|] == run;
    }

    /** Counts all samples, then flags each counted feature by the frequency threshold. */
    method CalculateContext()
      modifies this`contextVectors, this`ftrCount, this`ftrToLemma, this`ftrList
      requires dl.Valid() && (semanticType == TreeMode ==> TreesValid(dl.data))
      requires Known(AllSamples(dl.data, semanticType), lemmaCount)
      requires contextVectors == map l | l in InBandLemmas(lemmaCount) :: map[]
      requires ftrCount == map[] && ftrToLemma == map[] && ftrList == map[]
      ensures Reflects(contextVectors, ftrCount, ftrToLemma, lemmaCount, Pairs(Samples(), lemmaCount))
      ensures ftrList == Eligibility(ftrCount)
    {
      var samples := dl.Data(semanticType);
      ReflectsNothing(lemmaCount);
      CountSamples(samples, []);
      assert [] + Pairs(samples, lemmaCount) == Pairs(samples, lemmaCount);
      FlagFeatures();
    }

    /** The loop over all samples: their occurrences are appended to those already counted. */
    method CountSamples(samples: seq<Sample>, ghost P: seq<Pair>)
      modifies this`contextVectors, this`ftrCount, this`ftrToLemma
      requires Known(samples, lemmaCount) && Reflects(contextVectors, ftrCount, ftrToLemma, lemmaCount, P)
      ensures Reflects(contextVectors, ftrCount, ftrToLemma, lemmaCount, P + Pairs(samples, lemmaCount))
    {
      assert P + Pairs(samples[..0], lemmaCount) == P;
      for i := 0 to |samples|
        invariant Known(samples[..i], lemmaCount)
        invariant Reflects(contextVectors, ftrCount, ftrToLemma, lemmaCount, P + Pairs(samples[..i], lemmaCount))
      {
        ghost var before := P + Pairs(samples[..i], lemmaCount);
        CountSample(samples[i], before);
        PairsNext(samples, i, lemmaCount);
        assert before + SamplePairs(samples[i], lemmaCount) == P + Pairs(samples[..i + 1], lemmaCount);
      }
      assert samples[..|samples|] == samples;
    }

    /** The eligibility loop: one flag per counted feature. */
    method FlagFeatures()
      modifies this`ftrList
      ensures ftrList == old(ftrList) + Eligibility(ftrCount)
    {
      ftrList := SetFlags(ftrList, ftrCount);
    }

    /** The squared norm of one in-band lemma's vector (the source takes its square root). */
    method Norm(l: string) returns (norm: int)
      requires l in contextVectors
      requires forall f :: f in contextVectors[l] ==> f in ftrList
      ensures norm == NormSquared(contextVectors[l], ftrList)
    {
      var v := contextVectors[l];
      var fl := ftrList;
      var w := f => NormWeight(v, fl, f);
      norm := 0;
      var seen: set<Feature> := {};
      while seen != v.Keys
        invariant seen <= v.Keys
        invariant norm == SetSum(seen, w)
        decreases |v.Keys - seen|
      {
        var f :| f in v.Keys - seen;
        var score := v[f];
        SetSumInsert(seen, w, f);
        seen := seen + {f};
        if !ftrList[f] || score < CoOccurrenceBar {
          continue;
        }
        norm := norm + score * score;
      }
      SetSumCongruent(v.Keys, w, f => NormWeight(v, fl, f));
    }

    /** The squared norm of every in-band lemma. */
    method ComputeNorms()
      modifies this`normWords
      requires forall l, f :: l in contextVectors && f in contextVectors[l] ==> f in ftrList
      ensures normWords.Keys == contextVectors.Keys
      ensures forall l :: l in normWords ==> normWords[l] == NormSquared(contextVectors[l], ftrList)
    {
      normWords := map[];
      var todo := contextVectors.Keys;
      while todo != {}
        invariant todo <= contextVectors.Keys
        invariant normWords.Keys == contextVectors.Keys - todo
        invariant forall l :: l in normWords ==> normWords[l] == NormSquared(contextVectors[l], ftrList)
        decreases |todo|
      {
        var l :| l in todo;
        var n := Norm(l);
        normWords := normWords[l := n];
        todo := todo - {l};
      }
    }

    /** Whenever the query guard lets a query through, its lemmas have vectors and norms. */
    lemma QueryTablesPresent(lemma1: string, lemma2: Option<string>)
      requires Valid()
      requires lemma1 in lemmaCount
      requires lemma2.Some? && lemma2.value != "" && InBand(lemmaCount[lemma1]) ==> lemma2.value in lemmaCount
      ensures !OutOfBandQuery(lemmaCount, lemma1, lemma2) ==>
                lemma1 in contextVectors && lemma1 in normWords &&
                (lemma2.Some? && lemma2.value != "" ==> lemma2.value in contextVectors && lemma2.value in normWords)
      ensures OutOfBandQuery(lemmaCount, lemma1, lemma2) ==>
                lemma1 !in contextVectors || (lemma2.Some? && lemma2.value != "" && lemma2.value !in contextVectors)
    {
    }
  }
}
