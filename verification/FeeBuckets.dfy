// The fee-rate histogram of a mempool and the percentiles sampled from it.
module FeeBuckets {
  import opened Common
  import opened MempoolState

  // Lower ends of the buckets, in sat/vB, highest first.
  const BOUNDARIES: seq<real> := [500.0, 200.0, 100.0, 50.0, 20.0, 10.0, 5.0, 2.0, 1.0]

  type Histogram = seq<(real, nat)>

  // The first bucket from `b` on that a fee rate reaches; past the last one if it reaches none.
  function BucketOf(rate: real, b: nat): (r: nat)
    requires b <= |BOUNDARIES|
    ensures b <= r <= |BOUNDARIES|
    decreases |BOUNDARIES| - b
  {
    if b == |BOUNDARIES| || rate >= BOUNDARIES[b] then b else BucketOf(rate, b + 1)
  }

  lemma BoundariesDescend()
    ensures forall i, j :: 0 <= i < j < |BOUNDARIES| ==> BOUNDARIES[i] > BOUNDARIES[j]
  {
  }

  // A rate falls into a bucket exactly when it reaches its lower end but not the next higher one.
  lemma {:induction false} BucketIs(rate: real, b: nat, k: nat)
    requires b <= k <= |BOUNDARIES| && (b > 0 ==> rate < BOUNDARIES[b - 1])
    ensures BucketOf(rate, b) == k <==>
              (k < |BOUNDARIES| ==> rate >= BOUNDARIES[k]) && (k > 0 ==> rate < BOUNDARIES[k - 1])
    decreases |BOUNDARIES| - b
  {
    BoundariesDescend();
    if b < |BOUNDARIES| && rate < BOUNDARIES[b] {
      if k > b { BucketIs(rate, b + 1, k); }
    }
  }

  lemma BucketUpTo(rate: real, k: nat)
    requires 0 < k <= |BOUNDARIES|
    ensures BucketOf(rate, 0) < k <==> rate >= BOUNDARIES[k - 1]
  {
    BoundariesDescend();
    BucketIs(rate, 0, BucketOf(rate, 0));
  }

  // ---- Counting entries ----

  ghost function InBucket(entries: Entries, ids: set<Txid>, b: nat): set<Txid>
    requires ids <= entries.Keys
  {
    set id | id in ids && BucketOf(entries[id].feeRate, 0) == b
  }

  ghost function Buckets(entries: Entries, ids: set<Txid>): (h: Histogram)
    requires ids <= entries.Keys
    ensures |h| == |BOUNDARIES|
    ensures forall b :: 0 <= b < |BOUNDARIES| ==> h[b] == (BOUNDARIES[b], |InBucket(entries, ids, b)|)
  {
    seq(|BOUNDARIES|, b requires 0 <= b < |BOUNDARIES| => (BOUNDARIES[b], |InBucket(entries, ids, b)|))
  }

  function NonEmpty(h: Histogram): Histogram {
    if h == [] then [] else (if h[0].1 > 0 then [h[0]] else []) + NonEmpty(h[1..])
  }

  function Sum(h: Histogram): nat {
    if h == [] then 0 else h[0].1 + Sum(h[1..])
  }

  ghost function HistogramOf(entries: Entries): Histogram {
    NonEmpty(Buckets(entries, entries.Keys))
  }

  ghost function AtLeast(entries: Entries, rate: real): set<Txid> {
    set id | id in entries && entries[id].feeRate >= rate
  }

  lemma CountOne(entries: Entries, ids: set<Txid>, id: Txid, b: nat)
    requires ids <= entries.Keys && id in entries && id !in ids
    ensures |InBucket(entries, ids + {id}, b)| ==
            |InBucket(entries, ids, b)| + (if BucketOf(entries[id].feeRate, 0) == b then 1 else 0)
  {
    var before, after := InBucket(entries, ids, b), InBucket(entries, ids + {id}, b);
    if BucketOf(entries[id].feeRate, 0) == b {
      assert after == before + {id};
    } else {
      assert after == before;
    }
  }

  lemma {:induction false} SumPush(h: Histogram, x: (real, nat))
    ensures Sum(h + [x]) == Sum(h) + x.1
  {
    if h == [] {
      assert [x][1..] == [];
    } else {
      assert (h + [x])[1..] == h[1..] + [x];
      SumPush(h[1..], x);
    }
  }

  lemma {:induction false} SumNonEmpty(h: Histogram)
    ensures Sum(NonEmpty(h)) == Sum(h)
  {
    if h != [] {
      SumNonEmpty(h[1..]);
      if h[0].1 > 0 {
        assert NonEmpty(h)[1..] == NonEmpty(h[1..]);
      } else {
        assert NonEmpty(h) == NonEmpty(h[1..]);
      }
    }
  }

  // The first `k` buckets hold just the entries that reach the lower end of the last of them.
  lemma {:induction false} PrefixCounts(entries: Entries, k: nat)
    requires k <= |BOUNDARIES|
    ensures Sum(Buckets(entries, entries.Keys)[..k]) == if k == 0 then 0 else |AtLeast(entries, BOUNDARIES[k - 1])|
    decreases k
  {
    var h := Buckets(entries, entries.Keys);
    if k > 0 {
      PrefixCounts(entries, k - 1);
      assert h[..k] == h[..k - 1] + [h[k - 1]];
      SumPush(h[..k - 1], h[k - 1]);
      PrefixGrows(entries, k);
    }
  }

  lemma PrefixOf(rate: real, k: nat)
    requires 0 < k <= |BOUNDARIES|
    ensures rate >= BOUNDARIES[k - 1] <==> BucketOf(rate, 0) == k - 1 || (k > 1 && rate >= BOUNDARIES[k - 2])
    ensures k > 1 && rate >= BOUNDARIES[k - 2] ==> BucketOf(rate, 0) != k - 1
  {
    hide BucketOf, BOUNDARIES;
    BucketUpTo(rate, k);
    if k > 1 { BucketUpTo(rate, k - 1); }
  }

  lemma PrefixGrows(entries: Entries, k: nat)
    requires 0 < k <= |BOUNDARIES|
    ensures |AtLeast(entries, BOUNDARIES[k - 1])| ==
            |InBucket(entries, entries.Keys, k - 1)| + (if k == 1 then 0 else |AtLeast(entries, BOUNDARIES[k - 2])|)
  {
    hide BucketOf, BOUNDARIES;
    var up, here := AtLeast(entries, BOUNDARIES[k - 1]), InBucket(entries, entries.Keys, k - 1);
    var above := if k == 1 then {} else AtLeast(entries, BOUNDARIES[k - 2]);
    forall id ensures (id in up <==> id in here || id in above) && !(id in here && id in above) {
      if id in entries { PrefixOf(entries[id].feeRate, k); }
    }
    hide AtLeast, InBucket;
    SplitInTwo(up, here, above);
  }

  lemma SplitInTwo(whole: set<Txid>, a: set<Txid>, b: set<Txid>)
    requires forall id :: (id in whole <==> id in a || id in b) && !(id in a && id in b)
    ensures |whole| == |a| + |b|
  {
    assert whole == a + b && a !! b;
  }

  // The buckets of the histogram partition the entries of at least 1 sat/vB.
  lemma HistogramPartitions(entries: Entries)
    ensures Sum(HistogramOf(entries)) == |AtLeast(entries, 1.0)|
    ensures forall x :: x in HistogramOf(entries) ==>
              exists b :: 0 <= b < |BOUNDARIES| && x == (BOUNDARIES[b], |InBucket(entries, entries.Keys, b)|) && x.1 > 0
    ensures forall b, id :: 0 <= b < |BOUNDARIES| ==>
              (id in InBucket(entries, entries.Keys, b) <==>
                id in entries && entries[id].feeRate >= BOUNDARIES[b] && (b > 0 ==>
                    entries[id].feeRate < BOUNDARIES[b - 1]))
  {
    var h := Buckets(entries, entries.Keys);
    PrefixCounts(entries, |BOUNDARIES|);
    assert h[..|BOUNDARIES|] == h;
    SumNonEmpty(h);
    NonEmptyMembers(h);
    forall x | x in HistogramOf(entries)
      ensures exists b :: 0 <= b < |BOUNDARIES| && x == (BOUNDARIES[b], |InBucket(entries, entries.Keys, b)|) && x.1 > 0
    {
      var b :| 0 <= b < |h| && h[b] == x;
    }
    forall b, id | 0 <= b < |BOUNDARIES|
      ensures id in InBucket(entries, entries.Keys, b) <==>
                id in entries && entries[id].feeRate >= BOUNDARIES[b] && (b > 0 ==>
                    entries[id].feeRate < BOUNDARIES[b - 1])
    {
      if id in entries { BucketIs(entries[id].feeRate, 0, b); }
    }
  }

  lemma {:induction false} NonEmptyMembers(h: Histogram)
    ensures forall x :: x in NonEmpty(h) ==> x in h && x.1 > 0
  {
    if h != [] { NonEmptyMembers(h[1..]); }
  }

  // ---- Sampling ----

  function CeilNat(x: real): nat {
    if x <= 0.0 then 0 else -(-x).Floor
  }

  // How far down from the top a percentile points.
  function TargetIndex(total: nat, percentile: real): nat {
    CeilNat(total as real * percentile)
  }

  lemma TargetGrows(total: nat, p: real, q: real)
    requires p <= q
    ensures TargetIndex(total, p) <= TargetIndex(total, q)
  {
    Scaled(total as real, p, q);
  }

  lemma Scaled(x: real, p: real, q: real)
    requires x >= 0.0 && p <= q
    ensures x * p <= x * q
  {
  }

  lemma TargetBounds(total: nat, percentile: real)
    requires percentile <= 1.0
    ensures TargetIndex(total, percentile) <= total
    ensures total > 0 && percentile > 0.0 ==> TargetIndex(total, percentile) > 0
  {
    Scaled(total as real, percentile, 1.0);
    if total > 0 && percentile > 0.0 {
      assert total as real * percentile > 0.0;
    }
  }

  // The first bucket at which the running count reaches the target.
  function Pick(h: Histogram, target: nat, counted: nat): Option<real>
    decreases h
  {
    if h == [] then None
    else if counted + h[0].1 >= target then Some(h[0].0)
    else Pick(h[1..], target, counted + h[0].1)
  }

  function Sampled(h: Histogram, minRate: real, percentile: real): real {
    if h == [] || Sum(h) == 0 then minRate
    else match Pick(h, TargetIndex(Sum(h), percentile), 0)
      case Some(rate) => rate
      case None => h[|h| - 1].0
  }

  // The fallback to the last bucket is reached exactly when the target exceeds the total.
  lemma {:induction false} PickFailsExactlyWhen(h: Histogram, target: nat, counted: nat)
    requires h != []
    ensures Pick(h, target, counted).None? <==> target > counted + Sum(h)
    decreases h
  {
    if |h| == 1 {
      assert h[1..] == [];
    } else if counted + h[0].1 < target {
      PickFailsExactlyWhen(h[1..], target, counted + h[0].1);
    }
  }

  lemma FallbackUnreachable(h: Histogram, percentile: real)
    requires h != [] && percentile <= 1.0
    ensures Pick(h, TargetIndex(Sum(h), percentile), 0).Some?
  {
    hide TargetIndex;
    TargetBounds(Sum(h), percentile);
    PickFailsExactlyWhen(h, TargetIndex(Sum(h), percentile), 0);
  }

  ghost predicate DescendingRates(h: Histogram) {
    forall i, j :: 0 <= i < j < |h| ==> h[i].0 > h[j].0
  }

  // A higher target is met no earlier, so at no higher rate.
  lemma {:induction false} PickMonotone(h: Histogram, a: nat, b: nat, counted: nat)
    requires DescendingRates(h) && a <= b && Pick(h, b, counted).Some?
    ensures Pick(h, a, counted).Some? && Pick(h, a, counted).value >= Pick(h, b, counted).value
    decreases h
  {
    if counted + h[0].1 >= a {
      PickedIsListed(h, b, counted);
    } else {
      PickMonotone(h[1..], a, b, counted + h[0].1);
    }
  }

  lemma {:induction false} PickedIsListed(h: Histogram, target: nat, counted: nat)
    requires Pick(h, target, counted).Some?
    ensures exists k :: 0 <= k < |h| && h[k].0 == Pick(h, target, counted).value
    decreases h
  {
    if counted + h[0].1 < target {
      PickedIsListed(h[1..], target, counted + h[0].1);
      var k :| 0 <= k < |h[1..]| && h[1..][k].0 == Pick(h, target, counted).value;
      assert h[k + 1].0 == h[1..][k].0;
    } else {
      assert h[0].0 == Pick(h, target, counted).value;
    }
  }

  // Sampling is nonincreasing in the percentile.
  lemma SampledMonotone(h: Histogram, minRate: real, p: real, q: real)
    requires DescendingRates(h) && p <= q <= 1.0
    ensures Sampled(h, minRate, p) >= Sampled(h, minRate, q)
  {
    hide TargetIndex, DescendingRates;
    if h != [] && Sum(h) != 0 {
      FallbackUnreachable(h, q);
      FallbackUnreachable(h, p);
      TargetGrows(Sum(h), p, q);
      PickMonotone(h, TargetIndex(Sum(h), p), TargetIndex(Sum(h), q), 0);
    }
  }

  lemma {:induction false} NonEmptyDescends(h: Histogram)
    requires DescendingRates(h)
    ensures DescendingRates(NonEmpty(h))
  {
    if h != [] {
      NonEmptyDescends(h[1..]);
      NonEmptyMembers(h[1..]);
      assert forall x :: x in NonEmpty(h[1..]) ==> x.0 < h[0].0;
    }
  }

  lemma HistogramDescends(entries: Entries)
    ensures DescendingRates(HistogramOf(entries))
  {
    BoundariesDescend();
    NonEmptyDescends(Buckets(entries, entries.Keys));
  }

  // Leaving out empty buckets does not change what is picked.
  lemma {:induction false} PickNonEmpty(h: Histogram, target: nat, counted: nat)
    requires counted < target
    ensures Pick(NonEmpty(h), target, counted) == Pick(h, target, counted)
    decreases h
  {
    if h != [] {
      if h[0].1 > 0 {
        assert NonEmpty(h)[1..] == NonEmpty(h[1..]);
      } else {
        assert NonEmpty(h) == NonEmpty(h[1..]);
      }
      if counted + h[0].1 < target {
        PickNonEmpty(h[1..], target, counted + h[0].1);
      }
    }
  }

  lemma {:induction false} PickCrosses(h: Histogram, target: nat, counted: nat) returns (k: nat)
    requires Pick(h, target, counted).Some? && counted < target
    ensures k < |h| && Pick(h, target, counted).value == h[k].0
    ensures counted + Sum(h[..k]) < target <= counted + Sum(h[..k + 1])
    decreases h
  {
    if counted + h[0].1 >= target {
      k := 0;
      assert h[..1] == h[..0] + [h[0]];
      SumPush(h[..0], h[0]);
    } else {
      k := PickCrosses(h[1..], target, counted + h[0].1);
      assert h[..k + 1] == [h[0]] + h[1..][..k];
      assert h[..k + 2] == [h[0]] + h[1..][..k + 1];
      k := k + 1;
    }
  }

  lemma CeilNatIs(x: real, n: nat)
    ensures CeilNat(x) <= n <==> x <= n as real
  {
  }

  // The highest boundary at which the count reaches the target.
  lemma SampledCrosses(entries: Entries, minRate: real, percentile: real) returns (b: nat)
    requires 0.0 < percentile <= 1.0 && AtLeast(entries, 1.0) != {}
    ensures b < |BOUNDARIES| && Sampled(HistogramOf(entries), minRate, percentile) == BOUNDARIES[b]
    ensures var target := TargetIndex(|AtLeast(entries, 1.0)|, percentile);
            && target <= |AtLeast(entries, BOUNDARIES[b])|
            && (b > 0 ==> |AtLeast(entries, BOUNDARIES[b - 1])| < target)
  {
    hide TargetIndex, InBucket, AtLeast, NonEmpty;
    var full, h := Buckets(entries, entries.Keys), HistogramOf(entries);
    HistogramPartitions(entries);
    assert Sum(h) > 0;
    var target := TargetIndex(Sum(h), percentile);
    TargetBounds(Sum(h), percentile);
    FallbackUnreachable(h, percentile);
    PickNonEmpty(full, target, 0);
    b := PickCrosses(full, target, 0);
    PrefixCounts(entries, b);
    PrefixCounts(entries, b + 1);
  }

  // What sampling finds, said of the entries: the highest boundary reached by at least that share of
  // the entries of 1 sat/vB and more.
  lemma SampledIsQuantile(entries: Entries, minRate: real, percentile: real) returns (b: nat)
    requires 0.0 < percentile <= 1.0 && AtLeast(entries, 1.0) != {}
    ensures b < |BOUNDARIES| && Sampled(HistogramOf(entries), minRate, percentile) == BOUNDARIES[b]
    ensures |AtLeast(entries, 1.0)| as real * percentile <= |AtLeast(entries, BOUNDARIES[b])| as real
    ensures b > 0 ==> |AtLeast(entries, BOUNDARIES[b - 1])| as real < |AtLeast(entries, 1.0)| as real * percentile
  {
    hide TargetIndex, AtLeast, HistogramOf, Sampled;
    b := SampledCrosses(entries, minRate, percentile);
    var total := |AtLeast(entries, 1.0)|;
    TargetIs(total, percentile, |AtLeast(entries, BOUNDARIES[b])|);
    if b > 0 { TargetIs(total, percentile, |AtLeast(entries, BOUNDARIES[b - 1])|); }
  }

  lemma TargetIs(total: nat, percentile: real, n: nat)
    ensures TargetIndex(total, percentile) <= n <==> total as real * percentile <= n as real
  {
    hide CeilNat;
    CeilNatIs(total as real * percentile, n);
  }

  // With nothing of at least 1 sat/vB the sample is the minimum fee rate.
  lemma SampledOfNone(entries: Entries, minRate: real, percentile: real)
    requires AtLeast(entries, 1.0) == {}
    ensures Sampled(HistogramOf(entries), minRate, percentile) == minRate
  {
    hide Pick, TargetIndex, InBucket, AtLeast, NonEmpty;
    HistogramPartitions(entries);
  }
}
