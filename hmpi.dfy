/** `calculateHMPI`: the Heavy Metal Pollution Index of each sample, its
    rounding to two decimals and its risk status. The arithmetic is exact
    over the reals. */
module Hmpi {
  import opened Values
  import opened Samples

  /** 10^21: from this magnitude on, `toFixed` prints the number the way
      `String` does, without rounding it. */
  const FixedLimit: real := 1000000000000000000000.0

  /** `parseFloat(x.toFixed(2))`: the nearest multiple of 0.01, halves
      rounded away from zero (toFixed rounds the magnitude and keeps the
      sign), and x itself at magnitudes of 10^21 and above. */
  function Round2(x: real): (r: real)
    ensures -0.005 <= r - x <= 0.005
    ensures x >= 0.0 ==> r >= 0.0
  {
    if x >= FixedLimit || x <= -FixedLimit then x
    else if x >= 0.0 then (x * 100.0 + 0.5).Floor as real / 100.0
    else -((-x * 100.0 + 0.5).Floor as real / 100.0)
  }

  /** Below 10^21 the rounded value is a whole number of hundredths. */
  lemma Round2Cents(x: real)
    requires -FixedLimit < x < FixedLimit
    ensures (Round2(x) * 100.0).Floor as real == Round2(x) * 100.0
  {
    var n := if x >= 0.0 then (x * 100.0 + 0.5).Floor else -(-x * 100.0 + 0.5).Floor;
    assert Round2(x) == n as real / 100.0;
    WholeHundredths(n);
  }

  lemma WholeHundredths(n: int)
    ensures ((n as real / 100.0) * 100.0).Floor as real == (n as real / 100.0) * 100.0
  {
    assert (n as real / 100.0) * 100.0 == n as real;
  }

  /** The status thresholds, both strict: above 100 is High Risk, above 50
      Moderate Risk, anything else (50 itself included) Safe. */
  function Classify(x: real): (st: Status)
    ensures st == HighRisk <==> x > 100.0
    ensures st == ModerateRisk <==> 50.0 < x <= 100.0
    ensures st == Safe <==> x <= 50.0
  {
    if x > 100.0 then HighRisk
    else if x > 50.0 then ModerateRisk
    else Safe
  }

  /** `qi * wi` for one metal: quality ratio `(c / s) * 100` times weight
      `1 / s`. */
  function Contribution(m: Metal, c: real): real
  {
    (c / Standard(m) * 100.0) * (1.0 / Standard(m))
  }

  /** `validMetals` after visiting the metals `ms`: how many of them the
      sample has a value for. */
  function ValidCount(s: Sample, ms: seq<Metal>): (n: nat)
    ensures n <= |ms|
  {
    if ms == [] then 0
    else ValidCount(s, ms[..|ms| - 1]) + (if s.Concentration(ms[|ms| - 1]).Some? then 1 else 0)
  }

  /** `hmpi` after visiting the metals `ms`. */
  function Accumulated(s: Sample, ms: seq<Metal>): real
  {
    if ms == [] then 0.0
    else
      var m := ms[|ms| - 1];
      Accumulated(s, ms[..|ms| - 1]) + (if s.Concentration(m).Some? then Contribution(m, s.Concentration(m).value) else 0.0)
  }

  /** `finalHMPI`: the accumulated sum divided by the number of metals
      counted (not by the sum of the weights), or 0 when none was. */
  function FinalIndex(s: Sample): real
  {
    var n := ValidCount(s, Metals);
    if n > 0 then Accumulated(s, Metals) / n as real else 0.0
  }

  /** The record `calculateHMPI` produces for one sample: the sample
      itself, its index stored to the nearest hundredth, and a status read
      from the index before rounding. */
  function ScoreOf(s: Sample): (r: Scored)
    ensures r.sample == s
    ensures -0.005 <= r.calculatedHMPI - FinalIndex(s) <= 0.005
    ensures r.status == HighRisk <==> FinalIndex(s) > 100.0
    ensures r.status == ModerateRisk <==> 50.0 < FinalIndex(s) <= 100.0
    ensures r.status == Safe <==> FinalIndex(s) <= 50.0
  {
    Scored(s, Round2(FinalIndex(s)), Classify(FinalIndex(s)))
  }

  /** The body `calculateHMPI` maps over the batch: visit the table of
      standards, skip metals the record lacks, accumulate `qi * wi` and
      count, then divide, classify and round. */
  method ScoreSample(sample: Sample) returns (scored: Scored)
    ensures scored.sample == sample
    ensures scored.calculatedHMPI == Round2(FinalIndex(sample))
    ensures scored.status == Classify(FinalIndex(sample))
  {
    var hmpi := 0.0;
    var validMetals := 0;
    var i := 0;
    while i < |Metals|
      invariant 0 <= i <= |Metals|
      invariant hmpi == Accumulated(sample, Metals[..i])
      invariant validMetals == ValidCount(sample, Metals[..i])
    {
      var metal := Metals[i];
      VisitMetal(sample, i);
      var c := sample.Concentration(metal);
      if c.Some? {
        var qi := (c.value / Standard(metal)) * 100.0;
        var wi := 1.0 / Standard(metal);
        hmpi := hmpi + qi * wi;
        validMetals := validMetals + 1;
      }
      i := i + 1;
    }
    assert Metals[..i] == Metals;
    var finalHMPI := if validMetals > 0 then hmpi / validMetals as real else 0.0;
    assert finalHMPI == FinalIndex(sample);
    var status := Safe;
    if finalHMPI > 100.0 {
      status := HighRisk;
    } else if finalHMPI > 50.0 {
      status := ModerateRisk;
    }
    scored := Scored(sample, Round2(finalHMPI), status);
  }

  /** One turn of `calculateHMPI`'s loop over the standards. */
  lemma VisitMetal(s: Sample, i: nat)
    requires i < |Metals|
    ensures var c := s.Concentration(Metals[i]);
      && Accumulated(s, Metals[..i + 1])
         == Accumulated(s, Metals[..i])
            + (if c.Some? then ((c.value / Standard(Metals[i])) * 100.0) * (1.0 / Standard(Metals[i])) else 0.0)
      && ValidCount(s, Metals[..i + 1]) == ValidCount(s, Metals[..i]) + (if c.Some? then 1 else 0)
  {
    assert Metals[..i + 1][..i] == Metals[..i];
  }

  /** `calculateHMPI(data)`: one scored record per sample, in order. */
  method CalculateHMPI(data: seq<Sample>) returns (results: seq<Scored>)
    ensures |results| == |data|
    ensures forall i | 0 <= i < |data| :: results[i] == ScoreOf(data[i])
    ensures forall i | 0 <= i < |data| :: results[i].sample == data[i]
  {
    results := [];
    for i := 0 to |data|
      invariant |results| == i
      invariant forall k | 0 <= k < i :: results[k] == ScoreOf(data[k])
    {
      var scored := ScoreSample(data[i]);
      results := results + [scored];
    }
  }

  // ----- The index in closed form -----

  /** Reference definition of the index numerator: the sum, over the
      metals the sample has, of `100 * c / s^2`. */
  function QualitySum(s: Sample, ms: seq<Metal>): real
  {
    if ms == [] then 0.0
    else
      var c := s.Concentration(ms[0]);
      (if c.Some? then 100.0 * c.value / (Standard(ms[0]) * Standard(ms[0])) else 0.0)
      + QualitySum(s, ms[1..])
  }

  lemma ContributionClosedForm(m: Metal, c: real)
    ensures Contribution(m, c) == 100.0 * c / (Standard(m) * Standard(m))
  {
    match m
    case Arsenic => {}
    case Cadmium => {}
    case Chromium => {}
    case Copper => {}
    case Iron => {}
    case Manganese => {}
    case Nickel => {}
    case Lead => {}
    case Zinc => {}
  }

  lemma {:induction false} QualitySumAppend(s: Sample, ms: seq<Metal>, m: Metal)
    ensures QualitySum(s, ms + [m]) == QualitySum(s, ms) + QualitySum(s, [m])
  {
    if ms != [] {
      assert (ms + [m])[1..] == ms[1..] + [m];
      QualitySumAppend(s, ms[1..], m);
    } else {
      assert ms + [m] == [m];
    }
  }

  /** What the loop accumulates is the closed-form sum. */
  lemma {:induction false} AccumulatedIsQualitySum(s: Sample, ms: seq<Metal>)
    ensures Accumulated(s, ms) == QualitySum(s, ms)
  {
    if ms != [] {
      var init, m := ms[..|ms| - 1], ms[|ms| - 1];
      assert ms == init + [m];
      AccumulatedIsQualitySum(s, init);
      QualitySumAppend(s, init, m);
      if s.Concentration(m).Some? {
        ContributionClosedForm(m, s.Concentration(m).value);
      }
    }
  }

  /** The index is the mean, over the counted metals, of `100 * c / s^2`. */
  lemma IndexClosedForm(s: Sample)
    ensures ValidCount(s, Metals) > 0 ==>
      FinalIndex(s) == QualitySum(s, Metals) / ValidCount(s, Metals) as real
    ensures ValidCount(s, Metals) == 0 ==> FinalIndex(s) == 0.0
  {
    AccumulatedIsQualitySum(s, Metals);
  }

  // ----- validMetals -----

  /** Every metal counts exactly when the sample has all of them. */
  lemma {:induction false} ValidCountFull(s: Sample, ms: seq<Metal>)
    ensures ValidCount(s, ms) == |ms| <==> forall i | 0 <= i < |ms| :: s.Concentration(ms[i]).Some?
  {
    if ms != [] {
      var init := ms[..|ms| - 1];
      ValidCountFull(s, init);
      assert forall i | 0 <= i < |init| :: init[i] == ms[i];
    }
  }

  /** No metal counts exactly when the sample has none of them. */
  lemma {:induction false} ValidCountNone(s: Sample, ms: seq<Metal>)
    ensures ValidCount(s, ms) == 0 <==> forall i | 0 <= i < |ms| :: s.Concentration(ms[i]).None?
  {
    if ms != [] {
      var init := ms[..|ms| - 1];
      ValidCountNone(s, init);
      assert forall i | 0 <= i < |init| :: init[i] == ms[i];
    }
  }

  /** A record the row mapper produced has all nine metals, so the index
      always divides by 9 for it. */
  lemma CompleteSampleCountsNine(s: Sample)
    requires Complete(s)
    ensures ValidCount(s, Metals) == 9
  {
    forall i | 0 <= i < |Metals| ensures s.Concentration(Metals[i]).Some? {
      CompleteHasEveryMetal(s, Metals[i]);
    }
    ValidCountFull(s, Metals);
  }

  /** For a complete record the index is the closed-form sum over 9. */
  lemma CompleteSampleIndex(s: Sample)
    requires Complete(s)
    ensures FinalIndex(s) == QualitySum(s, Metals) / 9.0
  {
    CompleteSampleCountsNine(s);
    IndexClosedForm(s);
  }

  // ----- Properties of the index -----

  lemma ContributionMonotone(m: Metal, c1: real, c2: real)
    requires c1 <= c2
    ensures Contribution(m, c1) <= Contribution(m, c2)
    ensures Contribution(m, 0.0) == 0.0
  {
    match m
    case Arsenic => {}
    case Cadmium => {}
    case Chromium => {}
    case Copper => {}
    case Iron => {}
    case Manganese => {}
    case Nickel => {}
    case Lead => {}
    case Zinc => {}
  }

  lemma {:induction false} AccumulatedNonNegative(s: Sample, ms: seq<Metal>)
    requires forall m :: s.Concentration(m).Some? ==> s.Concentration(m).value >= 0.0
    ensures Accumulated(s, ms) >= 0.0
  {
    if ms != [] {
      AccumulatedNonNegative(s, ms[..|ms| - 1]);
      var m := ms[|ms| - 1];
      if s.Concentration(m).Some? {
        ContributionMonotone(m, 0.0, s.Concentration(m).value);
      }
    }
  }

  /** Non-negative concentrations give a non-negative index. */
  lemma IndexNonNegative(s: Sample)
    requires forall m :: s.Concentration(m).Some? ==> s.Concentration(m).value >= 0.0
    ensures FinalIndex(s) >= 0.0
  {
    AccumulatedNonNegative(s, Metals);
  }

  lemma {:induction false} AccumulatedZero(s: Sample, ms: seq<Metal>)
    requires forall i | 0 <= i < |ms| :: s.Concentration(ms[i]).Some? ==> s.Concentration(ms[i]).value == 0.0
    ensures Accumulated(s, ms) == 0.0
  {
    if ms != [] {
      var init, m := ms[..|ms| - 1], ms[|ms| - 1];
      assert forall i | 0 <= i < |init| :: init[i] == ms[i];
      AccumulatedZero(s, init);
      ContributionMonotone(m, 0.0, 0.0);
    }
  }

  /** Visiting two runs of metals one after the other. */
  lemma {:induction false} SumsAppend(s: Sample, a: seq<Metal>, b: seq<Metal>)
    ensures ValidCount(s, a + b) == ValidCount(s, a) + ValidCount(s, b)
    ensures Accumulated(s, a + b) == Accumulated(s, a) + Accumulated(s, b)
  {
    if b == [] {
      assert a + b == a;
    } else {
      var init := b[..|b| - 1];
      assert (a + b)[..|a + b| - 1] == a + init;
      SumsAppend(s, a, init);
    }
  }

  /** When every counted concentration is 0 the index is 0 and the sample
      is Safe. */
  lemma IndexZero(s: Sample)
    requires forall m :: s.Concentration(m).Some? ==> s.Concentration(m).value == 0.0
    ensures FinalIndex(s) == 0.0
    ensures ScoreOf(s).calculatedHMPI == 0.0 && ScoreOf(s).status == Safe
  {
    AccumulatedZero(s, Metals);
  }

  /** With all nine metals present, arsenic at 20 and every other metal at
      0, the index is (20 * 100 / 10^2) / 9 = 20 / 9, stored as 2.22 and
      Safe. */
  lemma ArsenicOnlyExample(s: Sample)
    requires Complete(s)
    requires s.As == Some(20.0)
    requires forall m :: m != Arsenic ==> s.Concentration(m) == Some(0.0)
    ensures FinalIndex(s) == 20.0 / 9.0
    ensures ScoreOf(s).calculatedHMPI == 2.22 && ScoreOf(s).status == Safe
  {
    CompleteSampleCountsNine(s);
    OnlyArsenicCounts(s);
    assert Round2(20.0 / 9.0) == 2.22 by {
      assert (20.0 / 9.0 * 100.0 + 0.5).Floor == 222;
    }
  }

  lemma OnlyArsenicCounts(s: Sample)
    requires forall m :: m != Arsenic ==> s.Concentration(m).Some? ==> s.Concentration(m).value == 0.0
    ensures Accumulated(s, Metals) == Accumulated(s, [Arsenic])
  {
    var rest := Metals[1..];
    assert Metals == [Arsenic] + rest;
    SumsAppend(s, [Arsenic], rest);
    assert forall i | 0 <= i < |rest| :: rest[i] != Arsenic;
    AccumulatedZero(s, rest);
  }

  lemma {:induction false} RaisingOneMetal(s: Sample, m: Metal, c: real, ms: seq<Metal>)
    requires s.Concentration(m).Some? && s.Concentration(m).value <= c
    ensures ValidCount(s.WithConcentration(m, c), ms) == ValidCount(s, ms)
    ensures Accumulated(s, ms) <= Accumulated(s.WithConcentration(m, c), ms)
  {
    if ms != [] {
      RaisingOneMetal(s, m, c, ms[..|ms| - 1]);
      if ms[|ms| - 1] == m {
        ContributionMonotone(m, s.Concentration(m).value, c);
      }
    }
  }

  lemma DivideByPositive(a: real, b: real, n: real)
    requires a <= b && n > 0.0
    ensures a / n <= b / n
  {
    assert a / n * n == a && b / n * n == b;
  }

  /** Raising one counted concentration never lowers the index. */
  lemma IndexMonotone(s: Sample, m: Metal, c: real)
    requires s.Concentration(m).Some? && s.Concentration(m).value <= c
    ensures FinalIndex(s) <= FinalIndex(s.WithConcentration(m, c))
  {
    RaisingOneMetal(s, m, c, Metals);
    var n := ValidCount(s, Metals);
    if n > 0 {
      DivideByPositive(Accumulated(s, Metals), Accumulated(s.WithConcentration(m, c), Metals), n as real);
    }
  }

  lemma {:induction false} SameMetalsSameSums(s1: Sample, s2: Sample, ms: seq<Metal>)
    requires forall m :: s1.Concentration(m) == s2.Concentration(m)
    ensures ValidCount(s1, ms) == ValidCount(s2, ms)
    ensures Accumulated(s1, ms) == Accumulated(s2, ms)
  {
    if ms != [] {
      SameMetalsSameSums(s1, s2, ms[..|ms| - 1]);
    }
  }

  /** The score depends on the nine concentrations only: labels and other
      measurements do not affect it, and scoring is deterministic. */
  lemma ScoreDependsOnlyOnMetals(s1: Sample, s2: Sample)
    requires forall m :: s1.Concentration(m) == s2.Concentration(m)
    ensures ScoreOf(s1).calculatedHMPI == ScoreOf(s2).calculatedHMPI
    ensures ScoreOf(s1).status == ScoreOf(s2).status
  {
    SameMetalsSameSums(s1, s2, Metals);
  }

  // ----- Status and the rounded value -----

  /** The stored, rounded index lies in the band of the status computed
      from the unrounded one. */
  lemma RoundedIndexWithinTier(x: real)
    ensures Classify(x) == Safe ==> Round2(x) <= 50.0
    ensures Classify(x) == ModerateRisk ==> 50.0 <= Round2(x) <= 100.0
    ensures Classify(x) == HighRisk ==> Round2(x) >= 100.0
  {
  }

  /** The status is decided before rounding: an index of 50.004 is stored
      as 50 yet classified Moderate Risk. */
  lemma StatusUsesUnroundedIndex(s: Sample)
    requires s.Concentration(Arsenic) == Some(50.004)
    requires forall m :: m != Arsenic ==> s.Concentration(m).None?
    ensures ScoreOf(s).calculatedHMPI == 50.0
    ensures ScoreOf(s).status == ModerateRisk
  {
    var rest := Metals[1..];
    assert Metals == [Arsenic] + rest;
    SumsAppend(s, [Arsenic], rest);
    ValidCountNone(s, rest);
    AccumulatedZero(s, rest);
    assert Accumulated(s, [Arsenic]) == 50.004;
  }
}
