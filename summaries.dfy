/** The summary object the analysis routes return beside the scored
    records: tallies by status and the mean stored index. */
module Summaries {
  import opened Samples
  import Hmpi

  datatype Summary = Summary(
    totalSamples: nat,
    safeSamples: nat,
    moderateRisk: nat,
    highRisk: nat,
    averageHMPI: real)

  /** `results.filter(r => r.status === st).length` */
  function CountStatus(rs: seq<Scored>, st: Status): (n: nat)
    ensures n <= |rs|
  {
    if rs == [] then 0
    else CountStatus(rs[..|rs| - 1], st) + (if rs[|rs| - 1].status == st then 1 else 0)
  }

  /** The statuses of a batch, in order. */
  function Statuses(rs: seq<Scored>): (sts: seq<Status>)
    ensures |sts| == |rs|
    ensures forall i | 0 <= i < |rs| :: sts[i] == rs[i].status
  {
    seq(|rs|, i requires 0 <= i < |rs| => rs[i].status)
  }

  /** A tally is the number of times its status occurs among the batch's
      statuses, whatever their order. */
  lemma {:induction false} CountStatusIsMultiplicity(rs: seq<Scored>, st: Status)
    ensures CountStatus(rs, st) == multiset(Statuses(rs))[st]
  {
    if rs != [] {
      var init := rs[..|rs| - 1];
      CountStatusIsMultiplicity(init, st);
      assert Statuses(rs) == Statuses(init) + [rs[|rs| - 1].status];
    }
  }

  /** `results.reduce((sum, r) => sum + r.calculatedHMPI, 0)` */
  function TotalHMPI(rs: seq<Scored>): real
  {
    if rs == [] then 0.0 else TotalHMPI(rs[..|rs| - 1]) + rs[|rs| - 1].calculatedHMPI
  }

  /** The summary of a scored batch: every sample is counted once in the
      total and under exactly one status, and the average is the
      arithmetic mean of the stored indices, guarded so that an empty
      batch divides by nothing. */
  function Summarize(rs: seq<Scored>): (r: Summary)
    ensures r.totalSamples == |rs|
    ensures r.safeSamples == CountStatus(rs, Safe)
    ensures r.moderateRisk == CountStatus(rs, ModerateRisk)
    ensures r.highRisk == CountStatus(rs, HighRisk)
    ensures r.safeSamples + r.moderateRisk + r.highRisk == |rs|
    ensures |rs| > 0 ==> r.averageHMPI * |rs| as real == TotalHMPI(rs)
    ensures |rs| == 0 ==> r.averageHMPI == 0.0
  {
    StatusCountsPartition(rs);
    Summary(
      totalSamples := |rs|,
      safeSamples := CountStatus(rs, Safe),
      moderateRisk := CountStatus(rs, ModerateRisk),
      highRisk := CountStatus(rs, HighRisk),
      averageHMPI := if |rs| > 0 then TotalHMPI(rs) / |rs| as real else 0.0)
  }

  /** The three statuses partition the batch. */
  lemma {:induction false} StatusCountsPartition(rs: seq<Scored>)
    ensures CountStatus(rs, Safe) + CountStatus(rs, ModerateRisk) + CountStatus(rs, HighRisk) == |rs|
  {
    if rs != [] {
      StatusCountsPartition(rs[..|rs| - 1]);
    }
  }

  /** The empty batch gets the all-zero summary the routes return when
      there is no data, with no division. */
  lemma EmptyBatchSummary()
    ensures Summarize([]) == Summary(0, 0, 0, 0, 0.0)
  {
  }

  lemma {:induction false} TotalAtLeast(rs: seq<Scored>, lo: real)
    requires forall i | 0 <= i < |rs| :: lo <= rs[i].calculatedHMPI
    ensures |rs| as real * lo <= TotalHMPI(rs)
  {
    if rs != [] {
      var init := rs[..|rs| - 1];
      assert forall i | 0 <= i < |init| :: init[i] == rs[i];
      TotalAtLeast(init, lo);
    }
  }

  lemma {:induction false} TotalAtMost(rs: seq<Scored>, hi: real)
    requires forall i | 0 <= i < |rs| :: rs[i].calculatedHMPI <= hi
    ensures TotalHMPI(rs) <= |rs| as real * hi
  {
    if rs != [] {
      var init := rs[..|rs| - 1];
      assert forall i | 0 <= i < |init| :: init[i] == rs[i];
      TotalAtMost(init, hi);
    }
  }

  /** A lower bound of every stored index bounds the average. */
  lemma AverageAtLeast(rs: seq<Scored>, lo: real)
    requires |rs| > 0
    requires forall i | 0 <= i < |rs| :: lo <= rs[i].calculatedHMPI
    ensures lo <= Summarize(rs).averageHMPI
  {
    TotalAtLeast(rs, lo);
    var n := |rs| as real;
    var avg := TotalHMPI(rs) / n;
    assert avg * n == TotalHMPI(rs);
    if avg < lo {
      assert avg * n < lo * n;
    }
  }

  /** An upper bound of every stored index bounds the average. */
  lemma AverageAtMost(rs: seq<Scored>, hi: real)
    requires |rs| > 0
    requires forall i | 0 <= i < |rs| :: rs[i].calculatedHMPI <= hi
    ensures Summarize(rs).averageHMPI <= hi
  {
    TotalAtMost(rs, hi);
    var n := |rs| as real;
    var avg := TotalHMPI(rs) / n;
    assert avg * n == TotalHMPI(rs);
    if avg > hi {
      assert avg * n > hi * n;
    }
  }

  lemma {:induction false} CountWhenAllAgree(rs: seq<Scored>, st: Status)
    requires forall i | 0 <= i < |rs| :: rs[i].status == st
    ensures CountStatus(rs, st) == |rs|
  {
    if rs != [] {
      var init := rs[..|rs| - 1];
      assert forall i | 0 <= i < |init| :: init[i] == rs[i];
      CountWhenAllAgree(init, st);
    }
  }

  /** A batch whose samples all share one status is tallied entirely under
      it, and its average stays in that status's band of stored values. */
  lemma UniformBatchSummary(rs: seq<Scored>, st: Status)
    requires |rs| > 0
    requires forall i | 0 <= i < |rs| :: rs[i] == Hmpi.ScoreOf(rs[i].sample) && rs[i].status == st
    ensures CountStatus(rs, st) == |rs|
    ensures st == Safe ==> Summarize(rs).averageHMPI <= 50.0
    ensures st == ModerateRisk ==> 50.0 <= Summarize(rs).averageHMPI <= 100.0
    ensures st == HighRisk ==> Summarize(rs).averageHMPI >= 100.0
  {
    CountWhenAllAgree(rs, st);
    forall i | 0 <= i < |rs|
      ensures st == Safe ==> rs[i].calculatedHMPI <= 50.0
      ensures st == ModerateRisk ==> 50.0 <= rs[i].calculatedHMPI <= 100.0
      ensures st == HighRisk ==> rs[i].calculatedHMPI >= 100.0
    {
      Hmpi.RoundedIndexWithinTier(Hmpi.FinalIndex(rs[i].sample));
    }
    if st == Safe {
      AverageAtMost(rs, 50.0);
    } else if st == ModerateRisk {
      AverageAtLeast(rs, 50.0);
      AverageAtMost(rs, 100.0);
    } else {
      AverageAtLeast(rs, 100.0);
    }
  }
}
