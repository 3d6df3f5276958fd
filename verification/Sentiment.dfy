/** VADER's `polarity_scores` is an oracle here; what the pipeline does
    with its scores (a per-topic mean of the compound score) is modelled in
    real arithmetic. */
module Sentiment {

  /** The dictionary `sia.polarity_scores(text)` returns. */
  datatype Polarity = Polarity(neg: real, neu: real, pos: real, compound: real)

  function Sum(xs: seq<real>): real
  {
    if xs == [] then 0.0 else Sum(xs[..|xs| - 1]) + xs[|xs| - 1]
  }

  /** pandas `Series.mean()` of a non-empty series. */
  function Mean(xs: seq<real>): real
    requires xs != []
  {
    Sum(xs) / (|xs| as real)
  }

  ghost predicate AllWithin(xs: seq<real>, lo: real, hi: real)
  {
    forall i :: 0 <= i < |xs| ==> lo <= xs[i] <= hi
  }

  lemma {:induction false} SumWithin(xs: seq<real>, lo: real, hi: real)
    requires AllWithin(xs, lo, hi)
    ensures lo * (|xs| as real) <= Sum(xs) <= hi * (|xs| as real)
  {
    if xs != [] {
      var init := xs[..|xs| - 1];
      var last := xs[|xs| - 1];
      assert AllWithin(init, lo, hi) by {
        forall i | 0 <= i < |init| ensures lo <= init[i] <= hi {
          assert init[i] == xs[i];
        }
      }
      SumWithin(init, lo, hi);
      var m := |init| as real;
      assert Sum(xs) == Sum(init) + last;
      assert lo <= last <= hi;
      assert (|xs| as real) == m + 1.0;
      assert lo * m + lo <= Sum(init) + last <= hi * m + hi;
    }
  }

  /** The mean of scores that lie in [lo, hi] lies in [lo, hi]; with
      compound scores in [-1, 1] the topic's average sentiment does too. */
  lemma MeanWithin(xs: seq<real>, lo: real, hi: real)
    requires xs != [] && AllWithin(xs, lo, hi)
    ensures lo <= Mean(xs) <= hi
  {
    SumWithin(xs, lo, hi);
    var n := |xs| as real;
    assert Sum(xs) / n <= hi by {
      assert Sum(xs) <= hi * n;
    }
    assert lo <= Sum(xs) / n by {
      assert lo * n <= Sum(xs);
    }
  }
}
