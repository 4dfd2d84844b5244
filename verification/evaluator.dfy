/**
 * Evaluation of predictions against actual labels: a confusion count over the
 * (actual, predicted) pairs, then sensitivity and specificity as exact ratios
 * with a zero denominator giving 0.
 */
module Evaluator {

  /** The four counters of a binary confusion matrix. */
  datatype Confusion = Confusion(truePositives: nat, falseNegatives: nat, trueNegatives: nat, falsePositives: nat)

  function Total(c: Confusion): nat {
    c.truePositives + c.falseNegatives + c.trueNegatives + c.falsePositives
  }

  function Min(a: nat, b: nat): nat {
    if a <= b then a else b
  }

  predicate IsBinary(x: int) {
    x == 0 || x == 1
  }

  /** zip(labels, predictions): the pairs at equal positions, as many as the shorter list has. */
  function Zip(labels: seq<int>, predictions: seq<int>): (pairs: seq<(int, int)>)
    ensures |pairs| == Min(|labels|, |predictions|)
    ensures forall i :: 0 <= i < |pairs| ==> pairs[i] == (labels[i], predictions[i])
  {
    seq(Min(|labels|, |predictions|), i requires 0 <= i < Min(|labels|, |predictions|) => (labels[i], predictions[i]))
  }

  /** One pass of the if/elif chain: one counter for a pair in {0,1} x {0,1}, nothing for any other pair. */
  function Tally(c: Confusion, actual: int, predicted: int): Confusion
  {
    if actual == 1 && predicted == 1 then c.(truePositives := c.truePositives + 1)
    else if actual == 1 && predicted == 0 then c.(falseNegatives := c.falseNegatives + 1)
    else if actual == 0 && predicted == 0 then c.(trueNegatives := c.trueNegatives + 1)
    else if actual == 0 && predicted == 1 then c.(falsePositives := c.falsePositives + 1)
    else c
  }

  /** The counters after the loop has seen every pair, first to last. */
  function Count(pairs: seq<(int, int)>): Confusion
  {
    if pairs == [] then Confusion(0, 0, 0, 0)
    else
      var last := pairs[|pairs| - 1];
      Tally(Count(pairs[..|pairs| - 1]), last.0, last.1)
  }

  /** hits / (hits + misses), or 0 when there is nothing to divide by. */
  function Rate(hits: nat, misses: nat): (r: real)
    ensures 0.0 <= r <= 1.0
    ensures hits + misses == 0 ==> r == 0.0
    ensures hits + misses > 0 ==> r * (hits + misses) as real == hits as real
  {
    if hits + misses > 0 then hits as real / (hits + misses) as real else 0.0
  }

  /** The proportion of actual positives predicted positive. */
  function Sensitivity(c: Confusion): real {
    Rate(c.truePositives, c.falseNegatives)
  }

  /** The proportion of actual negatives predicted negative. */
  function Specificity(c: Confusion): real {
    Rate(c.trueNegatives, c.falsePositives)
  }

  /**
   * The evaluation loop: four counters over zip(labels, predictions), then the
   * two zero-guarded rates.
   */
  method Evaluate(labels: seq<int>, predictions: seq<int>) returns (sensitivity: real, specificity: real)
    ensures sensitivity == Sensitivity(Count(Zip(labels, predictions)))
    ensures specificity == Specificity(Count(Zip(labels, predictions)))
    ensures 0.0 <= sensitivity <= 1.0 && 0.0 <= specificity <= 1.0
  {
    var truePositives: nat, falseNegatives: nat, trueNegatives: nat, falsePositives: nat := 0, 0, 0, 0;
    ghost var pairs := Zip(labels, predictions);
    var n := Min(|labels|, |predictions|);
    for i := 0 to n
      invariant Confusion(truePositives, falseNegatives, trueNegatives, falsePositives) == Count(pairs[..i])
    {
      var actual, predicted := labels[i], predictions[i];
      if actual == 1 && predicted == 1 {
        truePositives := truePositives + 1;
      } else if actual == 1 && predicted == 0 {
        falseNegatives := falseNegatives + 1;
      } else if actual == 0 && predicted == 0 {
        trueNegatives := trueNegatives + 1;
      } else if actual == 0 && predicted == 1 {
        falsePositives := falsePositives + 1;
      }
      assert pairs[..i + 1][..i] == pairs[..i];
    }
    assert pairs[..n] == pairs;
    sensitivity := if truePositives + falseNegatives > 0
      then truePositives as real / (truePositives + falseNegatives) as real else 0.0;
    specificity := if trueNegatives + falsePositives > 0
      then trueNegatives as real / (trueNegatives + falsePositives) as real else 0.0;
  }

  // ---------------------------------------------------------------------
  // Properties
  // ---------------------------------------------------------------------

  /** Each counter is the number of pairs of its kind; pairs outside {0,1} x {0,1} count nowhere. */
  lemma {:induction false} CountIsMultiplicity(pairs: seq<(int, int)>)
    ensures var m := multiset(pairs);
      Count(pairs) == Confusion(m[(1, 1)], m[(1, 0)], m[(0, 0)], m[(0, 1)])
  {
    if pairs != [] {
      var init := pairs[..|pairs| - 1];
      CountIsMultiplicity(init);
      assert pairs == init + [pairs[|pairs| - 1]];
      assert multiset(pairs) == multiset(init) + multiset{pairs[|pairs| - 1]};
    }
  }

  /** One step of the chain never decreases a counter; it adds one to the total exactly for a binary pair. */
  lemma TallyCountsOnce(c: Confusion, actual: int, predicted: int)
    ensures var d := Tally(c, actual, predicted);
      && Total(d) == Total(c) + (if IsBinary(actual) && IsBinary(predicted) then 1 else 0)
      && d.truePositives >= c.truePositives && d.falseNegatives >= c.falseNegatives
      && d.trueNegatives >= c.trueNegatives && d.falsePositives >= c.falsePositives
  {
  }

  /** Every binary pair increments exactly one counter, so binary pairs are all counted once. */
  lemma {:induction false} CountTotal(pairs: seq<(int, int)>)
    ensures Total(Count(pairs)) <= |pairs|
    ensures (forall i :: 0 <= i < |pairs| ==> IsBinary(pairs[i].0) && IsBinary(pairs[i].1)) ==>
              Total(Count(pairs)) == |pairs|
  {
    if pairs != [] {
      var init := pairs[..|pairs| - 1];
      var last := pairs[|pairs| - 1];
      CountTotal(init);
      assert Count(pairs) == Tally(Count(init), last.0, last.1);
      TallyCountsOnce(Count(init), last.0, last.1);
      if forall i :: 0 <= i < |pairs| ==> IsBinary(pairs[i].0) && IsBinary(pairs[i].1) {
        assert forall i :: 0 <= i < |init| ==> init[i] == pairs[i];
        assert IsBinary(last.0) && IsBinary(last.1);
      }
    }
  }

  /** With binary labels and predictions the counters add up to the number of zipped pairs. */
  lemma CountsCoverShorterList(labels: seq<int>, predictions: seq<int>)
    requires forall i :: 0 <= i < |labels| ==> IsBinary(labels[i])
    requires forall i :: 0 <= i < |predictions| ==> IsBinary(predictions[i])
    ensures Total(Count(Zip(labels, predictions))) == Min(|labels|, |predictions|)
  {
    CountTotal(Zip(labels, predictions));
  }

  /** A rate is 1 exactly when there are hits and no misses, and 0 exactly when there are no hits. */
  lemma RateExtremes(hits: nat, misses: nat)
    ensures Rate(hits, misses) == 1.0 <==> hits > 0 && misses == 0
    ensures Rate(hits, misses) == 0.0 <==> hits == 0
  {
  }

  /** Predictions equal to binary labels that hold both classes score 1 on both rates. */
  lemma PerfectPredictions(labels: seq<int>)
    requires forall i :: 0 <= i < |labels| ==> IsBinary(labels[i])
    requires 1 in labels && 0 in labels
    ensures Sensitivity(Count(Zip(labels, labels))) == 1.0
    ensures Specificity(Count(Zip(labels, labels))) == 1.0
  {
    var pairs := Zip(labels, labels);
    CountIsMultiplicity(pairs);
    assert (1, 0) !in pairs && (0, 1) !in pairs;
    var p :| 0 <= p < |labels| && labels[p] == 1;
    var q :| 0 <= q < |labels| && labels[q] == 0;
    assert pairs[p] == (1, 1) && pairs[q] == (0, 0);
    RateExtremes(Count(pairs).truePositives, Count(pairs).falseNegatives);
    RateExtremes(Count(pairs).trueNegatives, Count(pairs).falsePositives);
  }

  /** Labels [1,1,0,0] against predictions [1,0,0,1]: one of each outcome, both rates one half. */
  lemma OneOfEach()
    ensures Count(Zip([1, 1, 0, 0], [1, 0, 0, 1])) == Confusion(1, 1, 1, 1)
    ensures Sensitivity(Count(Zip([1, 1, 0, 0], [1, 0, 0, 1]))) == 0.5
    ensures Specificity(Count(Zip([1, 1, 0, 0], [1, 0, 0, 1]))) == 0.5
  {
    var pairs := Zip([1, 1, 0, 0], [1, 0, 0, 1]);
    assert pairs == [(1, 1), (1, 0), (0, 0), (0, 1)];
    CountIsMultiplicity(pairs);
  }

  /** With no actual positives the sensitivity is 0 by the zero guard, while all-correct negatives give specificity 1. */
  lemma NoPositives()
    ensures Sensitivity(Count(Zip([0, 0, 0], [0, 0, 0]))) == 0.0
    ensures Specificity(Count(Zip([0, 0, 0], [0, 0, 0]))) == 1.0
  {
    var pairs := Zip([0, 0, 0], [0, 0, 0]);
    assert pairs == [(0, 0), (0, 0), (0, 0)];
    CountIsMultiplicity(pairs);
  }
}
