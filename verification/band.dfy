/** The percentile band locator `determine_percentile_band`
    (app/calculations.py:171-219).

    It walks the buckets in the order given (index 0 is the lowest-volume
    bucket after the loader's sort), skips buckets with a non-positive count,
    and lets each remaining bucket occupy the next `take` ranks of a cohort of
    `cohortSize` wallets. The first bucket whose range holds the value wins; the
    bucket that uses up the cohort also wins for values below its minimum. */
module PercentileBand {
  import opened Common
  import opened PyNum
  import opened Buckets

  /** The band dictionary the source returns. */
  datatype Band = Band(
    startPercentile: real,
    endPercentile: real,
    bandWallets: int,
    bandWalletsFull: int,
    walletsBefore: int,
    bucketIndex: nat,
    bucketData: Bucket)

  /** Bucket i takes part in the walk: it has wallets, and the buckets before
      it have not used up the cohort yet. */
  predicate Reachable(dist: seq<Bucket>, cohort: int, i: nat) {
    i < |dist| && Count(dist[i]) > 0 && Before(dist, i) < cohort
  }

  /** Bucket i holds the last ranks of the cohort (`remaining <= take`). */
  predicate ExhaustsCohort(dist: seq<Bucket>, cohort: int, i: nat)
    requires i < |dist|
  {
    Before(dist, i) + Count(dist[i]) >= cohort
  }

  /** The match test: the value is in the bucket's range, or the bucket is the
      last reachable one and the value is below its minimum. */
  predicate Matches(usd: real, dist: seq<Bucket>, cohort: int, i: nat)
    requires i < |dist|
  {
    InRange(dist[i], usd) || (ExhaustsCohort(dist, cohort, i) && usd < MinUsd(dist[i]))
  }

  /** Declarative statement of "first match wins". */
  predicate FirstMatch(usd: real, dist: seq<Bucket>, cohort: int, i: nat) {
    && Reachable(dist, cohort, i)
    && Matches(usd, dist, cohort, i)
    && forall j :: 0 <= j < i && Reachable(dist, cohort, j) ==> !Matches(usd, dist, cohort, j)
  }

  /** `rank / cohort_size * 100`. */
  function Percent(rank: int, cohort: int): real
    requires cohort > 0
  {
    rank as real / cohort as real * 100.0
  }

  lemma PercentBounds(a: int, b: int, n: int)
    requires 0 <= a < b <= n
    ensures 0.0 <= Percent(a, n) < Percent(b, n) <= 100.0
  {
    var nr := n as real;
    DivPositive(a as real, nr);
    DivLess(a as real, b as real, nr);
    DivLess(b as real, nr, nr);
    assert nr / nr == 1.0;
  }

  lemma DivPositive(x: real, d: real)
    requires x >= 0.0 && d > 0.0
    ensures x / d >= 0.0
  {
  }

  lemma DivLess(x: real, y: real, d: real)
    requires x <= y && d > 0.0
    ensures x / d <= y / d && (x < y ==> x / d < y / d)
  {
    assert y / d - x / d == (y - x) / d;
  }

  /** The cohort as a whole runs from 0% to 100%. */
  lemma PercentOfWhole(n: int)
    requires n > 0
    ensures Percent(0, n) == 0.0 && Percent(n, n) == 100.0
  {
    var x := n as real;
    assert x / x == 1.0 by {
      assert x * (1.0 / x) == 1.0;
    }
  }

  /** The band record for bucket idx occupying ranks before..before+take. */
  function BandAt(dist: seq<Bucket>, cohort: int, idx: nat, before: int, take: int): (b: Band)
    requires cohort > 0 && idx < |dist| && 0 <= before < before + take <= cohort
    ensures b.bucketIndex == idx && b.bucketData == dist[idx]
    ensures b.walletsBefore == before && b.bandWallets == take && b.bandWalletsFull == Count(dist[idx])
    ensures b.startPercentile == Percent(before, cohort) && b.endPercentile == Percent(before + take, cohort)
  {
    PercentBounds(before, before + take, cohort);
    Band(Percent(before, cohort), MinR(100.0, Percent(before + take, cohort)),
         take, Count(dist[idx]), before, idx, dist[idx])
  }

  /** b is the band the source builds for a matching reachable bucket. */
  predicate IsBandFor(usd: real, dist: seq<Bucket>, cohort: int, b: Band)
    requires cohort > 0
  {
    && b.bucketIndex < |dist|
    && Reachable(dist, cohort, b.bucketIndex)
    && Matches(usd, dist, cohort, b.bucketIndex)
    && b.bucketData == dist[b.bucketIndex]
    && b.walletsBefore == Before(dist, b.bucketIndex)
    && b.bandWalletsFull == Count(dist[b.bucketIndex])
    && b.bandWallets == Min(b.bandWalletsFull, cohort - b.walletsBefore)
    && b.startPercentile == Percent(b.walletsBefore, cohort)
    && b.endPercentile == Percent(b.walletsBefore + b.bandWallets, cohort)
  }

  /** The loop of the source from position `idx` on, with the running
      counters `before` (ranks used) and `remaining` (ranks left). */
  function Walk(usd: real, dist: seq<Bucket>, cohort: int, idx: nat, before: int, remaining: int): (r: Option<Band>)
    requires cohort > 0 && idx <= |dist|
    requires before == Before(dist, idx) && before + remaining == cohort
    ensures r.Some? ==> idx <= r.value.bucketIndex && IsBandFor(usd, dist, cohort, r.value)
    ensures r.Some? ==> forall j :: idx <= j < r.value.bucketIndex && Reachable(dist, cohort, j) ==>
      !Matches(usd, dist, cohort, j)
    ensures r.None? ==>
      forall j :: idx <= j < |dist| && Reachable(dist, cohort, j) ==> !Matches(usd, dist, cohort, j)
    decreases |dist| - idx
  {
    if idx == |dist| then None
    else
      var count := Count(dist[idx]);
      if count <= 0 then
        Walk(usd, dist, cohort, idx + 1, before, remaining)
      else
        var take := Min(count, remaining);
        if take <= 0 then
          // The cohort was already used up before this bucket.
          UnreachableFrom(dist, cohort, idx);
          None
        else
          var minUsd := MinUsd(dist[idx]);
          var maxUsd := MaxUsd(dist[idx]);
          var inBucket := minUsd <= usd <= maxUsd;
          var isLastBucket := remaining <= take;
          if inBucket || (isLastBucket && usd < minUsd) then
            MatchIsBand(usd, dist, cohort, idx, before, remaining);
            Some(BandAt(dist, cohort, idx, before, take))
          else if remaining - take <= 0 then
            UnreachableFrom(dist, cohort, idx + 1);
            None
          else
            Walk(usd, dist, cohort, idx + 1, before + take, remaining - take)
  }

  /** The loop's success branch builds a band that satisfies IsBandFor. */
  lemma MatchIsBand(usd: real, dist: seq<Bucket>, cohort: int, idx: nat, before: int, remaining: int)
    requires cohort > 0 && idx < |dist|
    requires before == Before(dist, idx) && before + remaining == cohort
    requires Count(dist[idx]) > 0 && Min(Count(dist[idx]), remaining) > 0
    requires var take := Min(Count(dist[idx]), remaining);
      (MinUsd(dist[idx]) <= usd <= MaxUsd(dist[idx])) || (remaining <= take && usd < MinUsd(dist[idx]))
    ensures IsBandFor(usd, dist, cohort, BandAt(dist, cohort, idx, before, Min(Count(dist[idx]), remaining)))
  {
  }

  /** Once the ranks before position k reach the cohort size, no bucket from k
      on is reachable. */
  lemma UnreachableFrom(dist: seq<Bucket>, cohort: int, k: nat)
    requires k <= |dist| && Before(dist, k) >= cohort
    ensures forall j :: k <= j < |dist| ==> !Reachable(dist, cohort, j)
  {
    forall j | k <= j < |dist|
      ensures Before(dist, j) >= cohort
    {
      BeforeMonotone(dist, k, j);
    }
  }

  /** `determine_percentile_band(total_usd, distribution, cohort_size)`. */
  function Locate(usd: real, dist: seq<Bucket>, cohort: int): (r: Option<Band>)
    ensures |dist| == 0 || cohort <= 0 ==> r.None?
    ensures r.Some? ==>
      var b := r.value;
      && FirstMatch(usd, dist, cohort, b.bucketIndex)
      && b.bucketData == dist[b.bucketIndex]
      && b.walletsBefore == Before(dist, b.bucketIndex)
      && b.bandWalletsFull == Count(dist[b.bucketIndex])
      && b.bandWallets == Min(b.bandWalletsFull, cohort - b.walletsBefore)
      && 1 <= b.bandWallets
      && b.walletsBefore + b.bandWallets <= cohort
      && b.startPercentile == Percent(b.walletsBefore, cohort)
      && b.endPercentile == Percent(b.walletsBefore + b.bandWallets, cohort)
      && 0.0 <= b.startPercentile < b.endPercentile <= 100.0
    ensures r.None? ==>
      forall i :: Reachable(dist, cohort, i) ==> !Matches(usd, dist, cohort, i)
  {
    if |dist| == 0 || cohort <= 0 then None
    else
      var r := Walk(usd, dist, cohort, 0, 0, cohort);
      if r.Some? then
        PercentBounds(r.value.walletsBefore, r.value.walletsBefore + r.value.bandWallets, cohort);
        r
      else
        r
  }

  /** The source's loop, with the invariant that the ranks used and the ranks
      left always add up to the cohort size. */
  method DeterminePercentileBand(totalUsd: real, distribution: seq<Bucket>, cohortSize: int)
    returns (band: Option<Band>)
    ensures band == Locate(totalUsd, distribution, cohortSize)
  {
    if |distribution| == 0 || cohortSize <= 0 {
      return None;
    }
    var remaining := cohortSize;
    var cumulativeBefore := 0;
    for idx := 0 to |distribution|
      invariant cumulativeBefore + remaining == cohortSize
      invariant cumulativeBefore == Before(distribution, idx)
      invariant Walk(totalUsd, distribution, cohortSize, idx, cumulativeBefore, remaining)
        == Locate(totalUsd, distribution, cohortSize)
    {
      var entry := distribution[idx];
      var bucketCount := Count(entry);
      if bucketCount <= 0 {
        continue;
      }
      var take := Min(bucketCount, remaining);
      if take <= 0 {
        break;
      }
      var bandStartRank := cumulativeBefore;
      var bandEndRank := cumulativeBefore + take;
      var minUsd := MinUsd(entry);
      var maxUsd := MaxUsd(entry);
      var inBucket := minUsd <= totalUsd <= maxUsd;
      var isLastBucket := remaining <= take;
      if inBucket || (isLastBucket && totalUsd < minUsd) {
        return Some(BandAt(distribution, cohortSize, idx, bandStartRank, take));
      }
      cumulativeBefore := bandEndRank;
      remaining := remaining - take;
      if remaining <= 0 {
        break;
      }
    }
    return None;
  }

  /** The declarative "first match" picks out exactly the band returned: a
      band is found at bucket i if and only if i is the first reachable
      bucket that matches. */
  lemma LocateIsFirstMatch(usd: real, dist: seq<Bucket>, cohort: int, i: nat)
    ensures FirstMatch(usd, dist, cohort, i) <==>
      (Locate(usd, dist, cohort).Some? && Locate(usd, dist, cohort).value.bucketIndex == i)
  {
    // Two first matches would each have to come before the other.
    var r := Locate(usd, dist, cohort);
    if FirstMatch(usd, dist, cohort, i) {
      assert r.Some?;
    }
  }

  /** The gap the source leaves open: a value above the range of every
      reachable bucket is never placed. */
  lemma AboveEveryRangeHasNoBand(usd: real, dist: seq<Bucket>, cohort: int)
    requires forall i: nat :: Reachable(dist, cohort, i) ==>
      usd > MaxUsd(dist[i]) && usd >= MinUsd(dist[i])
    ensures Locate(usd, dist, cohort).None?
  {
  }

  /** A cohort no larger than the first bucket sits entirely inside it: a
      band, when found, is bucket 0 and spans the whole 0-100 range. */
  lemma CohortInsideFirstBucket(usd: real, dist: seq<Bucket>, cohort: int)
    requires 0 < cohort && |dist| > 0 && Count(dist[0]) >= cohort
    ensures Locate(usd, dist, cohort).Some? <==>
      (InRange(dist[0], usd) || usd < MinUsd(dist[0]))
    ensures Locate(usd, dist, cohort).Some? ==>
      var b := Locate(usd, dist, cohort).value;
      b.bucketIndex == 0 && b.bandWallets == cohort
      && b.startPercentile == 0.0 && b.endPercentile == 100.0
  {
    var r := Locate(usd, dist, cohort);
    assert Reachable(dist, cohort, 0);
    UnreachableFrom(dist, cohort, 1);
    if r.Some? {
      assert r.value.bucketIndex == 0;
      PercentOfWhole(cohort);
    }
  }

  /** No gap below: a value at or above bucket 0's minimum, with no bucket i
      matching it, lies above bucket i's maximum, provided each bucket's
      minimum is at most the previous bucket's maximum. */
  lemma {:induction false} AboveEachUnmatchedBucket(usd: real, dist: seq<Bucket>, k: nat)
    requires 0 < k <= |dist|
    requires forall i :: 0 <= i < |dist| - 1 ==> MinUsd(dist[i + 1]) <= MaxUsd(dist[i])
    requires MinUsd(dist[0]) <= usd
    requires forall i :: 0 <= i < k ==> !InRange(dist[i], usd)
    ensures usd > MaxUsd(dist[k - 1])
  {
    if k > 1 {
      AboveEachUnmatchedBucket(usd, dist, k - 1);
      assert MinUsd(dist[k - 1]) <= MaxUsd(dist[k - 2]);
      assert !InRange(dist[k - 1], usd);
    } else {
      assert !InRange(dist[0], usd);
    }
  }

  /** Band coverage: when the buckets hold exactly `cohort` wallets and
      their ranges join up without gaps, every value between the first
      minimum and the last maximum gets a band. */
  lemma BandCoverage(usd: real, dist: seq<Bucket>, cohort: int)
    requires 0 < cohort && |dist| > 0
    requires forall i :: 0 <= i < |dist| ==> Count(dist[i]) > 0
    requires Before(dist, |dist|) == cohort
    requires forall i :: 0 <= i < |dist| - 1 ==> MinUsd(dist[i + 1]) <= MaxUsd(dist[i])
    requires MinUsd(dist[0]) <= usd <= MaxUsd(dist[|dist| - 1])
    ensures Locate(usd, dist, cohort).Some?
  {
    var r := Locate(usd, dist, cohort);
    if r.None? {
      forall i | 0 <= i < |dist|
        ensures !InRange(dist[i], usd)
      {
        BeforeMonotone(dist, i + 1, |dist|);
        assert Reachable(dist, cohort, i);
      }
      AboveEachUnmatchedBucket(usd, dist, |dist|);
      assert false;
    }
  }

  /** Under the same conditions, the band never moves down as the value
      rises: a larger value gets the same bucket or a later one, and a start
      percentile at least as high. */
  lemma BandMonotone(u1: real, u2: real, dist: seq<Bucket>, cohort: int)
    requires 0 < cohort && |dist| > 0
    requires forall i :: 0 <= i < |dist| ==> Count(dist[i]) > 0
    requires Before(dist, |dist|) == cohort
    requires forall i :: 0 <= i < |dist| - 1 ==> MinUsd(dist[i + 1]) <= MaxUsd(dist[i])
    requires MinUsd(dist[0]) <= u1 <= u2 <= MaxUsd(dist[|dist| - 1])
    ensures Locate(u1, dist, cohort).Some? && Locate(u2, dist, cohort).Some?
    ensures Locate(u1, dist, cohort).value.bucketIndex <= Locate(u2, dist, cohort).value.bucketIndex
    ensures Locate(u1, dist, cohort).value.startPercentile <= Locate(u2, dist, cohort).value.startPercentile
  {
    BandCoverage(u1, dist, cohort);
    BandCoverage(u2, dist, cohort);
    var i1 := Locate(u1, dist, cohort).value.bucketIndex;
    var i2 := Locate(u2, dist, cohort).value.bucketIndex;
    if i2 < i1 {
      // Bucket i2 is not the last, so u2 matched it by lying in its range.
      BeforeMonotone(dist, i2 + 1, |dist| - 1);
      assert !ExhaustsCohort(dist, cohort, i2);
      forall i | 0 <= i < i2 + 1
        ensures !InRange(dist[i], u1)
      {
        BeforeMonotone(dist, i + 1, |dist|);
        assert Reachable(dist, cohort, i);
      }
      AboveEachUnmatchedBucket(u1, dist, i2 + 1);
      assert false;
    }
    BeforeMonotone(dist, i1, i2);
    DivLess(Before(dist, i1) as real, Before(dist, i2) as real, cohort as real);
  }

  /** An empty distribution yields no band whatever the other inputs. */
  lemma EmptyDistributionHasNoBand(usd: real, cohort: int)
    ensures Locate(usd, [], cohort).None?
  {
  }

  /** One bucket of 1000 wallets spanning $0-$100, a cohort of 1000, and a
      value of $50: the band is bucket 0, from 0% to 100%. */
  lemma SingleBucketExample()
    ensures
      var b := Bucket(Some(1000.0), Some(0.0), Some(100.0), Absent);
      var r := Locate(50.0, [b], 1000);
      r.Some? && r.value.bucketIndex == 0
      && r.value.startPercentile == 0.0 && r.value.endPercentile == 100.0
  {
    var b := Bucket(Some(1000.0), Some(0.0), Some(100.0), Absent);
    assert Count(b) == 1000;
    CohortInsideFirstBucket(50.0, [b], 1000);
  }
}
