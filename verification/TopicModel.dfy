/** The outcome of the vectoriser and LDA, taken as an oracle, and the
    selection of a topic's five heaviest vocabulary terms
    (`lda.components_[topic_id].argsort()[:-6:-1]`). */
module TopicModel {

  /** The topic count is fixed at 7 in both pipelines. */
  const NTopics: int := 7

  /** The number of terms kept per topic label. */
  const TopTermCount: nat := 5

  /** An LDA component index; `argmax(axis=1)` over 7 columns always lands here. */
  type TopicId = t: int | 0 <= t < NTopics

  /** What `CountVectorizer.fit_transform` followed by `LDA.fit_transform`
      yields: the topic chosen for each document (in document order), the
      vocabulary (`get_feature_names_out()`), and one term-weight row per
      topic (`lda.components_`). */
  datatype Fitted = Fitted(assignment: seq<TopicId>, vocabulary: seq<string>, components: seq<seq<real>>)

  /** The shapes the libraries guarantee; a fit without them would make the
      pandas/numpy code raise. */
  predicate Shaped(f: Fitted, nDocs: nat)
  {
    && |f.assignment| == nDocs
    && |f.components| == NTopics
    && forall t :: 0 <= t < |f.components| ==> |f.components[t]| == |f.vocabulary|
  }

  predicate InRange(cands: seq<nat>, n: nat)
  {
    forall k :: 0 <= k < |cands| ==> cands[k] < n
  }

  /** No candidate occurs twice. */
  predicate Distinct(s: seq<nat>)
  {
    forall i, j :: 0 <= i < j < |s| ==> s[i] != s[j]
  }

  /** The candidates `[0, n)`. */
  function Range(n: nat): (r: seq<nat>)
    ensures |r| == n && InRange(r, n) && Distinct(r)
    ensures forall k :: 0 <= k < n ==> r[k] == k
  {
    seq(n, k => k)
  }

  /** A candidate of greatest weight (the earliest one among equals). */
  function Heaviest(w: seq<real>, cands: seq<nat>): (m: nat)
    requires cands != [] && InRange(cands, |w|)
    ensures m in cands
    ensures forall k :: 0 <= k < |cands| ==> w[cands[k]] <= w[m]
  {
    if |cands| == 1 then cands[0]
    else
      var rest := Heaviest(w, cands[1..]);
      if w[cands[0]] >= w[rest] then cands[0] else rest
  }

  lemma HeaviestBeats(w: seq<real>, cands: seq<nat>, x: nat)
    requires cands != [] && InRange(cands, |w|) && x in cands
    ensures x < |w| && w[x] <= w[Heaviest(w, cands)]
  {
    var kx :| 0 <= kx < |cands| && cands[kx] == x;
  }

  /** `cands` with every occurrence of `m` taken out. */
  function Without(cands: seq<nat>, m: nat): (r: seq<nat>)
    ensures forall x :: x in r <==> x in cands && x != m
    ensures |r| <= |cands|
  {
    if cands == [] then []
    else (if cands[0] == m then [] else [cands[0]]) + Without(cands[1..], m)
  }

  lemma {:induction false} WithoutDistinct(cands: seq<nat>, m: nat)
    requires Distinct(cands)
    ensures m in cands ==> |Without(cands, m)| == |cands| - 1
    ensures m !in cands ==> Without(cands, m) == cands
    ensures Distinct(Without(cands, m))
  {
    if cands != [] {
      WithoutDistinct(cands[1..], m);
      var tail := Without(cands[1..], m);
      assert cands[0] !in cands[1..];
      assert cands[0] !in tail;
    }
  }

  lemma WithoutInRange(cands: seq<nat>, m: nat, n: nat)
    requires InRange(cands, n)
    ensures InRange(Without(cands, m), n)
  {
    var r := Without(cands, m);
    forall i | 0 <= i < |r| ensures r[i] < n {
      assert r[i] in cands;
    }
  }

  /** The `k` heaviest candidates, heaviest first. */
  function TopK(w: seq<real>, cands: seq<nat>, k: nat): (r: seq<nat>)
    requires InRange(cands, |w|)
    decreases k
    ensures forall x :: x in r ==> x in cands
    ensures InRange(r, |w|)
  {
    if k == 0 || cands == [] then []
    else
      var m := Heaviest(w, cands);
      WithoutInRange(cands, m, |w|);
      [m] + TopK(w, Without(cands, m), k - 1)
  }

  function Min(a: nat, b: nat): nat
  {
    if a <= b then a else b
  }

  lemma DistinctCons(m: nat, tail: seq<nat>)
    requires m !in tail && Distinct(tail)
    ensures Distinct([m] + tail)
  {
    var r := [m] + tail;
    forall i, j | 0 <= i < j < |r| ensures r[i] != r[j] {
      assert r[j] == tail[j - 1];
      if i > 0 {
        assert r[i] == tail[i - 1];
      }
    }
  }

  /** TopK keeps min(k, |cands|) candidates. */
  lemma {:induction false} TopKLength(w: seq<real>, cands: seq<nat>, k: nat)
    requires InRange(cands, |w|) && Distinct(cands)
    decreases k
    ensures |TopK(w, cands, k)| == Min(k, |cands|)
  {
    if k != 0 && cands != [] {
      var m := Heaviest(w, cands);
      WithoutInRange(cands, m, |w|);
      WithoutDistinct(cands, m);
      TopKLength(w, Without(cands, m), k - 1);
    }
  }

  /** TopK never keeps a candidate twice. */
  lemma {:induction false} TopKDistinct(w: seq<real>, cands: seq<nat>, k: nat)
    requires InRange(cands, |w|) && Distinct(cands)
    decreases k
    ensures Distinct(TopK(w, cands, k))
  {
    if k != 0 && cands != [] {
      var m := Heaviest(w, cands);
      var rest := Without(cands, m);
      WithoutInRange(cands, m, |w|);
      WithoutDistinct(cands, m);
      TopKDistinct(w, rest, k - 1);
      var tail := TopK(w, rest, k - 1);
      assert m !in tail by {
        assert m !in rest;
      }
      DistinctCons(m, tail);
    }
  }

  ghost predicate HeaviestFirst(w: seq<real>, r: seq<nat>)
  {
    forall i, j :: 0 <= i < j < |r| && r[i] < |w| && r[j] < |w| ==> w[r[i]] >= w[r[j]]
  }

  /** TopK lists its candidates heaviest first. */
  lemma {:induction false} TopKSorted(w: seq<real>, cands: seq<nat>, k: nat)
    requires InRange(cands, |w|)
    decreases k
    ensures HeaviestFirst(w, TopK(w, cands, k))
  {
    if k != 0 && cands != [] {
      var m := Heaviest(w, cands);
      var rest := Without(cands, m);
      WithoutInRange(cands, m, |w|);
      TopKSorted(w, rest, k - 1);
      var tail := TopK(w, rest, k - 1);
      assert HeaviestFirst(w, tail);
      var r := [m] + tail;
      forall i, j | 0 <= i < j < |r| ensures w[r[i]] >= w[r[j]] {
        assert r[j] == tail[j - 1];
        if i > 0 {
          assert r[i] == tail[i - 1];
          assert w[tail[i - 1]] >= w[tail[j - 1]];
        } else {
          assert r[0] == m;
          HeaviestBeats(w, cands, tail[j - 1]);
          assert w[m] >= w[tail[j - 1]];
        }
      }
    }
  }

  ghost predicate NoneHeavierLeftOut(w: seq<real>, cands: seq<nat>, r: seq<nat>)
  {
    forall x, i :: x in cands && x !in r && 0 <= i < |r| && x < |w| && r[i] < |w| ==> w[x] <= w[r[i]]
  }

  /** No candidate TopK leaves out outweighs one it keeps. */
  lemma {:induction false} TopKDominates(w: seq<real>, cands: seq<nat>, k: nat)
    requires InRange(cands, |w|)
    decreases k
    ensures NoneHeavierLeftOut(w, cands, TopK(w, cands, k))
  {
    if k != 0 && cands != [] {
      var m := Heaviest(w, cands);
      var rest := Without(cands, m);
      WithoutInRange(cands, m, |w|);
      TopKDominates(w, rest, k - 1);
      var tail := TopK(w, rest, k - 1);
      assert NoneHeavierLeftOut(w, rest, tail);
      var r := [m] + tail;
      forall x, i | x in cands && x !in r && 0 <= i < |r| ensures w[x] <= w[r[i]] {
        if i > 0 {
          assert x in rest && x !in tail;
          assert r[i] == tail[i - 1];
          assert w[x] <= w[tail[i - 1]];
        } else {
          assert r[0] == m;
          HeaviestBeats(w, cands, x);
        }
      }
    }
  }

  /** The indices `argsort()[:-6:-1]` selects from a weight row: the
      (up to) five heaviest terms, heaviest first. */
  function TopTermIndices(row: seq<real>): (r: seq<nat>)
    ensures InRange(r, |row|)
  {
    TopK(row, Range(|row|), TopTermCount)
  }

  /** What the selection promises, and all it promises (the order among
      equal weights is left open). */
  lemma TopTermIndicesSpec(row: seq<real>)
    ensures var r := TopTermIndices(row);
      && |r| == Min(TopTermCount, |row|)
      && InRange(r, |row|) && Distinct(r)
      && HeaviestFirst(row, r)
      && (forall x, i :: 0 <= x < |row| && x !in r && 0 <= i < |r| ==> row[x] <= row[r[i]])
  {
    var cands := Range(|row|);
    TopKLength(row, cands, TopTermCount);
    TopKDistinct(row, cands, TopTermCount);
    TopKSorted(row, cands, TopTermCount);
    TopKDominates(row, cands, TopTermCount);
    var r := TopTermIndices(row);
    forall x | 0 <= x < |row| ensures x in cands {
      assert cands[x] == x;
    }
    forall i | 0 <= i < |r| ensures r[i] < |row| {
      assert r[i] in cands;
    }
  }
}
