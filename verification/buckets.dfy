/** One row of a percentile distribution snapshot, and the tolerant way the
    estimator reads its numeric fields (app/calculations.py, app/data_sources.py). */
module Buckets {
  import opened Common
  import opened PyNum

  /** A JSON value as `row.get(key)` sees it: a missing key, `null`, a
      number or a string. */
  datatype Field = Absent | Null | Num(n: real) | Text(s: string)

  /** A distribution row as loaded from JSON. The count and USD fields are
      read through `x or default`, which treats a missing key and `null`
      alike, so they are a number or `None`. The rank keeps all four cases:
      the loader's sort key defaults only a missing key, and the curve
      extraction converts strings. */
  datatype Bucket = Bucket(
    walletCount: Option<real>,
    minTotalUsd: Option<real>,
    maxTotalUsd: Option<real>,
    usdPercentileRank: Field)

  /** `int(entry.get("wallet_count") or 0)`. */
  function Count(b: Bucket): int {
    Trunc(Or(b.walletCount, 0.0))
  }

  /** `float(entry.get("min_total_usd") or 0.0)`. */
  function MinUsd(b: Bucket): real {
    Or(b.minTotalUsd, 0.0)
  }

  /** `float(entry.get("max_total_usd") or min_usd)`: a missing or zero maximum
      falls back to the minimum. */
  function MaxUsd(b: Bucket): (r: real)
    ensures b.maxTotalUsd.None? || b.maxTotalUsd == Some(0.0) ==> r == MinUsd(b)
    ensures b.maxTotalUsd.Some? && b.maxTotalUsd.value != 0.0 ==> r == b.maxTotalUsd.value
  {
    Or(b.maxTotalUsd, MinUsd(b))
  }

  /** The inclusive range test `min_usd <= total_usd <= max_usd`. */
  predicate InRange(b: Bucket, usd: real) {
    MinUsd(b) <= usd <= MaxUsd(b)
  }

  /** `max(0, n)`: what a bucket contributes to the running rank count
      (buckets with a non-positive count are skipped). */
  function Positive(n: int): nat {
    if n > 0 then n else 0
  }

  /** Wallets ranked before bucket i: the positive counts of buckets 0..i-1. */
  function Before(dist: seq<Bucket>, i: nat): (r: nat)
    requires i <= |dist|
  {
    if i == 0 then 0 else Before(dist, i - 1) + Positive(Count(dist[i - 1]))
  }

  /** The running count never decreases along the distribution. */
  lemma {:induction false} BeforeMonotone(dist: seq<Bucket>, i: nat, j: nat)
    requires i <= j <= |dist|
    ensures Before(dist, i) <= Before(dist, j)
    decreases j - i
  {
    if i < j {
      BeforeMonotone(dist, i, j - 1);
    }
  }
}
