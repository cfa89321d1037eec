// The rounded character accuracy of quality.py, which the gate compares with
// exactly 1.0. Accuracies are exact rationals; a rounded accuracy is a whole
// number of millionths.
module OcrQuality {
  import opened Wrappers
  import opened EditDistance

  const ONE: nat := 1_000_000

  // numerator/denominator to the nearest integer, ties to the even neighbour.
  function RoundHalfEven(numerator: nat, denominator: nat): nat
    requires denominator > 0
  {
    var quotient, rest := numerator / denominator, numerator % denominator;
    if 2 * rest < denominator || (2 * rest == denominator && quotient % 2 == 0) then quotient else quotient + 1
  }

  function Kept(distance: nat, denominator: nat): nat {
    if distance < denominator then denominator - distance else 0
  }

  function RoundedAccuracy(distance: nat, denominator: nat): nat
    requires denominator > 0
  {
    RoundHalfEven(Kept(distance, denominator) * ONE, denominator)
  }

  // r is an integer nearest to numerator/denominator, the even one on a tie.
  ghost predicate IsNearest(r: nat, numerator: nat, denominator: nat) {
    && 2 * numerator <= 2 * (r * denominator) + denominator
    && 2 * (r * denominator) <= 2 * numerator + denominator
    && (r % 2 == 1 ==> 2 * numerator < 2 * (r * denominator) + denominator)
    && (r % 2 == 1 ==> 2 * (r * denominator) < 2 * numerator + denominator)
  }

  lemma RoundHalfEvenIsNearest(numerator: nat, denominator: nat)
    requires denominator > 0
    ensures IsNearest(RoundHalfEven(numerator, denominator), numerator, denominator)
  {
    var quotient, rest := numerator / denominator, numerator % denominator;
    assert numerator == quotient * denominator + rest;
    assert (quotient + 1) * denominator == quotient * denominator + denominator;
  }

  lemma ProductGap(smaller: nat, larger: nat, factor: nat)
    requires smaller < larger
    ensures larger * factor >= smaller * factor + factor
  {
    assert larger * factor == (smaller + 1) * factor + (larger - smaller - 1) * factor;
  }

  // Nearest integers are unique and grow with the fraction.
  lemma NearestIsMonotone(r: nat, numerator: nat, s: nat, larger: nat, denominator: nat)
    requires denominator > 0 && numerator <= larger
    requires IsNearest(r, numerator, denominator) && IsNearest(s, larger, denominator)
    ensures r <= s
  {
    if s < r {
      ProductGap(s, r, denominator);
      if s + 1 < r {
        ProductGap(s + 1, r, denominator);
        ProductGap(s, s + 1, denominator);
      }
    }
  }

  lemma RoundingIsMonotone(smaller: nat, larger: nat, denominator: nat)
    requires denominator > 0 && smaller <= larger
    ensures RoundHalfEven(smaller, denominator) <= RoundHalfEven(larger, denominator)
  {
    RoundHalfEvenIsNearest(smaller, denominator);
    RoundHalfEvenIsNearest(larger, denominator);
    NearestIsMonotone(RoundHalfEven(smaller, denominator), smaller,
                      RoundHalfEven(larger, denominator), larger, denominator);
  }

  lemma AccuracyInRange(distance: nat, denominator: nat)
    requires denominator > 0
    ensures 0 <= RoundedAccuracy(distance, denominator) <= ONE
  {
    RoundHalfEvenIsNearest(Kept(distance, denominator) * ONE, denominator);
    assert IsNearest(ONE, denominator * ONE, denominator);
    NearestIsMonotone(RoundedAccuracy(distance, denominator), Kept(distance, denominator) * ONE,
                      ONE, denominator * ONE, denominator);
  }

  // A larger distance never scores better.
  lemma AccuracyFallsWithDistance(nearer: nat, farther: nat, denominator: nat)
    requires denominator > 0 && nearer <= farther
    ensures RoundedAccuracy(farther, denominator) <= RoundedAccuracy(nearer, denominator)
  {
    RoundingIsMonotone(Kept(farther, denominator) * ONE, Kept(nearer, denominator) * ONE, denominator);
  }

  // Rounding hides a distance exactly when the text is two million times as
  // long as the distance, so the scoring bound is what makes 1.0 exact.
  lemma PerfectScoreCondition(distance: nat, denominator: nat)
    requires denominator > 0
    ensures RoundedAccuracy(distance, denominator) == 1_000_000 <==> 2_000_000 * distance <= denominator
  {
    var kept := Kept(distance, denominator) * ONE;
    RoundHalfEvenIsNearest(kept, denominator);
    if 2 * ONE * distance <= denominator {
      assert IsNearest(ONE, kept, denominator);
      NearestIsMonotone(ONE, kept, RoundHalfEven(kept, denominator), kept, denominator);
      NearestIsMonotone(RoundHalfEven(kept, denominator), kept, ONE, kept, denominator);
    }
  }

  // The score is the millionth nearest to the share of the text that is right,
  // and zero when nothing is.
  lemma ScoreIsNearest(distance: nat, denominator: nat)
    requires denominator > 0
    ensures if distance >= denominator then RoundedAccuracy(distance, denominator) == 0
            else IsNearest(RoundedAccuracy(distance, denominator), (denominator - distance) * 1_000_000, denominator)
  {
    RoundHalfEvenIsNearest(Kept(distance, denominator) * ONE, denominator);
    if distance >= denominator {
      assert IsNearest(0, 0, denominator);
      NearestIsMonotone(RoundedAccuracy(distance, denominator), 0, 0, 0, denominator);
    }
  }

  // normalize is the frozen text profile (NFC, no white space).
  method OcrCharacterAccuracy(expected: string, actual: string, normalize: string -> string)
      returns (r: Result<nat, ScoringError>)
    ensures r.Err? <==> |normalize(expected)| > 20_000 || |normalize(actual)| > 20_000
    ensures r.Ok? ==> 0 <= r.value <= 1_000_000
    ensures r.Ok? ==> (r.value == 1_000_000 <==> normalize(expected) == normalize(actual))
    ensures r.Ok? ==> r.value == RoundedAccuracy(
              Distance(normalize(expected), normalize(actual)),
              if |normalize(expected)| > 1 then |normalize(expected)| else 1)
  {
    var expectedNormalized, actualNormalized := normalize(expected), normalize(actual);
    var denominator := if |expectedNormalized| > 1 then |expectedNormalized| else 1;
    var distance := LevenshteinDistance(expectedNormalized, actualNormalized);
    if distance.Err? {
      return Err(distance.error);
    }
    AccuracyInRange(distance.value, denominator);
    PerfectScoreCondition(distance.value, denominator);
    DistanceZeroIffEqual(expectedNormalized, actualNormalized);
    return Ok(RoundedAccuracy(distance.value, denominator));
  }
}
