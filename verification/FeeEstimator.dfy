// The fee estimator: a percentile of the mempool's histogram per confirmation target, converted to
// sat/kw and kept above a floor.
module FeeEstimators {
  import opened Common
  import opened MempoolState
  import opened FeeBuckets
  import opened Mempools

  datatype Target =
    | MaximumFeeEstimate
    | UrgentOnChainSweep
    | MinAllowedAnchorChannelRemoteFee
    | MinAllowedNonAnchorChannelRemoteFee
    | AnchorChannelFee
    | NonAnchorChannelFee
    | ChannelCloseMinimum
    | OutputSpendingFee

  // A conversion to 32 bits truncates, and saturates at both ends.
  function AsU32(x: real): nat {
    if x <= 0.0 then 0 else if x.Floor >= U32 then U32 - 1 else x.Floor
  }

  function SatPerVb(h: Histogram, minRate: real, target: Target): real {
    match target
    case MaximumFeeEstimate => Sampled(h, minRate, 0.05)
    case UrgentOnChainSweep => Sampled(h, minRate, 0.1)
    case AnchorChannelFee => Sampled(h, minRate, 0.5)
    case NonAnchorChannelFee => 1.0
    case ChannelCloseMinimum => Sampled(h, minRate, 1.0)
    case MinAllowedAnchorChannelRemoteFee => minRate
    case MinAllowedNonAnchorChannelRemoteFee => minRate
    case OutputSpendingFee => Sampled(h, minRate, 0.6)
  }

  function FloorFor(target: Target): nat {
    match target
    case MaximumFeeEstimate => 50_000
    case UrgentOnChainSweep => 5_000
    case AnchorChannelFee => 1_000
    case _ => 253
  }

  function Estimate(h: Histogram, minRate: real, target: Target): nat {
    Max(AsU32(SatPerVb(h, minRate, target) * 250.0), FloorFor(target))
  }

  class WolfeFeeEstimator {
    const mempool: Mempool

    constructor (pool: Mempool)
      ensures mempool == pool
    {
      mempool := pool;
    }

    method SampleFeeRate(percentile: real) returns (rate: real)
      ensures rate == Sampled(HistogramOf(mempool.entries), mempool.config.minFeeRate, percentile)
    {
      var histogram := mempool.FeeHistogram();
      if histogram == [] { return mempool.config.minFeeRate; }
      var total := Sum(histogram);
      if total == 0 { return mempool.config.minFeeRate; }
      var target := TargetIndex(total, percentile);
      var cumulative: nat, i := 0, 0;
      assert histogram[0..] == histogram;
      while i < |histogram|
        invariant i <= |histogram|
        invariant Pick(histogram[i..], target, cumulative) == Pick(histogram, target, 0)
      {
        assert histogram[i..][0] == histogram[i] && histogram[i..][1..] == histogram[i + 1..];
        cumulative := cumulative + histogram[i].1;
        if cumulative >= target { return histogram[i].0; }
        i := i + 1;
      }
      return histogram[|histogram| - 1].0;
    }

    method GetEstSatPer1000Weight(target: Target) returns (feerate: nat)
      ensures feerate == Estimate(HistogramOf(mempool.entries), mempool.config.minFeeRate, target)
      ensures feerate >= 253
    {
      hide HistogramOf, Sampled;
      var rate;
      match target {
        case MaximumFeeEstimate => rate := SampleFeeRate(0.05);
        case UrgentOnChainSweep => rate := SampleFeeRate(0.1);
        case AnchorChannelFee => rate := SampleFeeRate(0.5);
        case NonAnchorChannelFee => rate := 1.0;
        case ChannelCloseMinimum => rate := SampleFeeRate(1.0);
        case MinAllowedAnchorChannelRemoteFee => rate := mempool.config.minFeeRate;
        case MinAllowedNonAnchorChannelRemoteFee => rate := mempool.config.minFeeRate;
        case OutputSpendingFee => rate := SampleFeeRate(0.6);
      }
      return Max(AsU32(rate * 250.0), FloorFor(target));
    }
  }

  lemma AsU32Grows(x: real, y: real)
    requires x <= y
    ensures AsU32(x) <= AsU32(y)
  {
  }

  lemma EstimateOrder(h: Histogram, minRate: real, high: Target, low: Target)
    requires SatPerVb(h, minRate, high) >= SatPerVb(h, minRate, low) && FloorFor(high) >= FloorFor(low)
    ensures Estimate(h, minRate, high) >= Estimate(h, minRate, low) >= 253
  {
    AsU32Grows(SatPerVb(h, minRate, low) * 250.0, SatPerVb(h, minRate, high) * 250.0);
  }

  // For every pool, a more urgent target is estimated no cheaper.
  lemma UrgencyOrdersEstimates(entries: Entries, minRate: real)
    ensures
      var h := HistogramOf(entries);
      Estimate(h, minRate, MaximumFeeEstimate)
      >= Estimate(h, minRate, UrgentOnChainSweep)
      >= Estimate(h, minRate, AnchorChannelFee)
      >= Estimate(h, minRate, OutputSpendingFee)
      >= Estimate(h, minRate, ChannelCloseMinimum)
      >= 253
  {
    hide Estimate, HistogramOf;
    var h := HistogramOf(entries);
    HistogramDescends(entries);
    SampledMonotone(h, minRate, 0.05, 0.1);
    SampledMonotone(h, minRate, 0.1, 0.5);
    SampledMonotone(h, minRate, 0.5, 0.6);
    SampledMonotone(h, minRate, 0.6, 1.0);
    EstimateOrder(h, minRate, MaximumFeeEstimate, UrgentOnChainSweep);
    EstimateOrder(h, minRate, UrgentOnChainSweep, AnchorChannelFee);
    EstimateOrder(h, minRate, AnchorChannelFee, OutputSpendingFee);
    EstimateOrder(h, minRate, OutputSpendingFee, ChannelCloseMinimum);
  }

  // 1000 weight units are 250 virtual bytes: above its floor an estimate is at least `n` sat per 1000
  // weight exactly when 4 * `n` sat per 1000 virtual bytes are within the rate. It is never below the
  // floor, and fits in 32 bits.
  lemma EstimateExactlyWhen(h: Histogram, minRate: real, target: Target, n: nat)
    ensures FloorFor(target) <= Estimate(h, minRate, target) < U32
    ensures FloorFor(target) < n < U32 ==>
              (Estimate(h, minRate, target) >= n <==> SatPerVb(h, minRate, target) * 1000.0 >= 4.0 * n as real)
  {
    hide SatPerVb;
  }

  // What the sampled estimates are, said of the pool: the estimate for the highest bucket boundary that
  // at least this share of the entries of 1 sat/vB and more reach. A share is in percent.
  lemma EstimateIsQuantile(entries: Entries, minRate: real, target: Target, n: nat) returns (b: nat)
    requires AtLeast(entries, 1.0) != {}
    requires target in {MaximumFeeEstimate, UrgentOnChainSweep, AnchorChannelFee, OutputSpendingFee,
                        ChannelCloseMinimum}
    ensures b < |BOUNDARIES|
    ensures
      var share := if target.MaximumFeeEstimate? then 5 else if target.UrgentOnChainSweep? then 10
                   else if target.AnchorChannelFee? then 50 else if target.OutputSpendingFee? then 60 else 100;
      && |AtLeast(entries, 1.0)| * share <= 100 * |AtLeast(entries, BOUNDARIES[b])|
      && (b > 0 ==> 100 * |AtLeast(entries, BOUNDARIES[b - 1])| < |AtLeast(entries, 1.0)| * share)
    ensures FloorFor(target) < n < U32 ==>
              (Estimate(HistogramOf(entries), minRate, target) >= n <==> BOUNDARIES[b] * 1000.0 >= 4.0 * n as real)
  {
    hide Sampled, HistogramOf, AtLeast, Estimate, BOUNDARIES;
    var percentile := match target
      case MaximumFeeEstimate => 0.05
      case UrgentOnChainSweep => 0.1
      case AnchorChannelFee => 0.5
      case OutputSpendingFee => 0.6
      case _ => 1.0;
    b := SampledIsQuantile(entries, minRate, percentile);
    EstimateExactlyWhen(HistogramOf(entries), minRate, target, n);
  }

  // The other targets do not look at the pool: the minimum rate, or 1 sat/vB.
  lemma FixedEstimates(h: Histogram, minRate: real, target: Target, n: nat)
    requires target in {MinAllowedAnchorChannelRemoteFee, MinAllowedNonAnchorChannelRemoteFee, NonAnchorChannelFee}
    requires 253 < n < U32
    ensures Estimate(h, minRate, target) >= n <==>
              (if target.NonAnchorChannelFee? then 1.0 else minRate) * 1000.0 >= 4.0 * n as real
  {
    hide Estimate, Sampled;
    EstimateExactlyWhen(h, minRate, target, n);
  }
}
