/** The scenario calculator and the tables built from it
    (`compute_scenario`, `build_share_table`, `build_heatmap_data` in
    app/calculations.py). All quantities are exact reals. */
module ScenarioCalc {
  import opened PyNum

  /** app/config.py's `TOTAL_SUPPLY`. */
  const TotalSupply: int := 1_000_000_000

  /** Outcome of one tier share / valuation combination. */
  datatype ScenarioResult = ScenarioResult(
    sharePct: real,
    fdvBillion: real,
    tokensPerWallet: real,
    usdValue: real)

  /** Tokens reserved for the OG pool: `total_supply * (og_pool_pct / 100)`. */
  function OgPoolTokens(totalSupply: int, ogPoolPct: real): real {
    totalSupply as real * (ogPoolPct / 100.0)
  }

  /** Wallets competing in the tier, floored at one so it can divide:
      `max(1, cohort_size * (tier_pct / 100))`, kept fractional. */
  function WalletsInTier(cohortSize: int, tierPct: real): (w: real)
    ensures w >= 1.0
    ensures w >= cohortSize as real * (tierPct / 100.0)
    ensures w == 1.0 || w == cohortSize as real * (tierPct / 100.0)
  {
    MaxR(1.0, cohortSize as real * (tierPct / 100.0))
  }

  /** Price of one token: the valuation spread over the supply. */
  function TokenPrice(fdvBillion: real, totalSupply: int): (p: real)
    requires totalSupply != 0
    ensures p * totalSupply as real == fdvBillion * 1_000_000_000.0
  {
    (fdvBillion * 1_000_000_000.0) / totalSupply as real
  }

  /** `compute_scenario`. The payout in USD is the tier's slice of the OG pool's
      share of the valuation, divided among the tier's wallets; the supply
      cancels out of it. */
  function ComputeScenario(totalSupply: int, ogPoolPct: real, fdvBillion: real,
                           cohortSize: int, tierPct: real, sharePct: real): (r: ScenarioResult)
    requires totalSupply != 0
    ensures r.sharePct == sharePct && r.fdvBillion == fdvBillion
    ensures r.tokensPerWallet * WalletsInTier(cohortSize, tierPct)
      == OgPoolTokens(totalSupply, ogPoolPct) * (sharePct / 100.0)
    ensures r.usdValue
      == ogPoolPct / 100.0 * (sharePct / 100.0) * (fdvBillion * 1_000_000_000.0)
         / WalletsInTier(cohortSize, tierPct)
  {
    var ogPoolTokens := OgPoolTokens(totalSupply, ogPoolPct);
    var walletsInTier := WalletsInTier(cohortSize, tierPct);
    var tierShareFraction := sharePct / 100.0;
    var tokensPerWallet := ogPoolTokens * tierShareFraction / walletsInTier;
    var tokenPrice := TokenPrice(fdvBillion, totalSupply);
    var usdValue := tokensPerWallet * tokenPrice;
    SupplyCancels(totalSupply as real, ogPoolPct / 100.0, tierShareFraction,
                  fdvBillion * 1_000_000_000.0, walletsInTier);
    ScenarioResult(sharePct, fdvBillion, tokensPerWallet, usdValue)
  }

  /** (s * a * b / w) * (f / s) == a * b * f / w for a non-zero supply s. */
  lemma SupplyCancels(s: real, a: real, b: real, f: real, w: real)
    requires s != 0.0 && w != 0.0
    ensures (s * a * b / w) * (f / s) == a * b * f / w
  {
    calc {
      (s * a * b / w) * (f / s);
      == { assert s * a * b / w == s * (a * b / w); }
      s * (a * b / w) * (f / s);
      == { assert s * (f / s) == f; }
      (a * b / w) * f;
    }
  }

  /** The payout is non-decreasing in the valuation. */
  lemma UsdMonotoneInFdv(totalSupply: int, ogPoolPct: real, f1: real, f2: real,
                         cohortSize: int, tierPct: real, sharePct: real)
    requires totalSupply != 0 && ogPoolPct >= 0.0 && sharePct >= 0.0 && f1 <= f2
    ensures ComputeScenario(totalSupply, ogPoolPct, f1, cohortSize, tierPct, sharePct).usdValue
         <= ComputeScenario(totalSupply, ogPoolPct, f2, cohortSize, tierPct, sharePct).usdValue
  {
    var k := ogPoolPct / 100.0 * (sharePct / 100.0);
    var w := WalletsInTier(cohortSize, tierPct);
    assert k >= 0.0;
    MulDivMonotone(k, f1 * 1_000_000_000.0, f2 * 1_000_000_000.0, w);
  }

  /** The payout is non-decreasing in the tier's share of the pool. */
  lemma UsdMonotoneInShare(totalSupply: int, ogPoolPct: real, fdvBillion: real,
                           cohortSize: int, tierPct: real, s1: real, s2: real)
    requires totalSupply != 0 && ogPoolPct >= 0.0 && fdvBillion >= 0.0 && s1 <= s2
    ensures ComputeScenario(totalSupply, ogPoolPct, fdvBillion, cohortSize, tierPct, s1).usdValue
         <= ComputeScenario(totalSupply, ogPoolPct, fdvBillion, cohortSize, tierPct, s2).usdValue
  {
    var a := ogPoolPct / 100.0;
    var f := fdvBillion * 1_000_000_000.0;
    var w := WalletsInTier(cohortSize, tierPct);
    assert a * (s1 / 100.0) * f == (a * f) * (s1 / 100.0);
    assert a * (s2 / 100.0) * f == (a * f) * (s2 / 100.0);
    MulDivMonotone(a * f, s1 / 100.0, s2 / 100.0, w);
  }

  /** k * x / w <= k * y / w for k >= 0, x <= y and w > 0. */
  lemma MulDivMonotone(k: real, x: real, y: real, w: real)
    requires k >= 0.0 && x <= y && w > 0.0
    ensures k * x / w <= k * y / w
  {
    assert k * x <= k * y;
  }

  /** A larger divisor gives a smaller quotient of a non-negative amount. */
  lemma DivAntitone(n: real, w1: real, w2: real)
    requires n >= 0.0 && 0.0 < w1 <= w2
    ensures n / w2 <= n / w1
  {
    assert n / w2 * w2 == n;
    assert n / w1 * w1 == n;
  }

  /** The payout is non-increasing in the cohort size. */
  lemma UsdAntitoneInCohort(totalSupply: int, ogPoolPct: real, fdvBillion: real,
                            c1: int, c2: int, tierPct: real, sharePct: real)
    requires totalSupply != 0 && ogPoolPct >= 0.0 && fdvBillion >= 0.0 && sharePct >= 0.0
    requires tierPct >= 0.0 && c1 <= c2
    ensures ComputeScenario(totalSupply, ogPoolPct, fdvBillion, c2, tierPct, sharePct).usdValue
         <= ComputeScenario(totalSupply, ogPoolPct, fdvBillion, c1, tierPct, sharePct).usdValue
  {
    var n := ogPoolPct / 100.0 * (sharePct / 100.0) * (fdvBillion * 1_000_000_000.0);
    assert c1 as real * (tierPct / 100.0) <= c2 as real * (tierPct / 100.0);
    DivAntitone(n, WalletsInTier(c1, tierPct), WalletsInTier(c2, tierPct));
  }

  /** The payout is non-increasing in the tier percentile. */
  lemma UsdAntitoneInTier(totalSupply: int, ogPoolPct: real, fdvBillion: real,
                          cohortSize: int, t1: real, t2: real, sharePct: real)
    requires totalSupply != 0 && ogPoolPct >= 0.0 && fdvBillion >= 0.0 && sharePct >= 0.0
    requires cohortSize >= 0 && t1 <= t2
    ensures ComputeScenario(totalSupply, ogPoolPct, fdvBillion, cohortSize, t2, sharePct).usdValue
         <= ComputeScenario(totalSupply, ogPoolPct, fdvBillion, cohortSize, t1, sharePct).usdValue
  {
    var n := ogPoolPct / 100.0 * (sharePct / 100.0) * (fdvBillion * 1_000_000_000.0);
    assert cohortSize as real * (t1 / 100.0) <= cohortSize as real * (t2 / 100.0);
    DivAntitone(n, WalletsInTier(cohortSize, t1), WalletsInTier(cohortSize, t2));
  }

  /** A billion tokens, a 15% OG pool, a $4B valuation, 100,000 wallets, the
      top 10% tier and a 20% share: 3,000 tokens worth $12,000 per wallet. */
  lemma ReferenceScenario()
    ensures
      var r := ComputeScenario(1_000_000_000, 15.0, 4.0, 100_000, 10.0, 20.0);
      r.tokensPerWallet == 3000.0 && r.usdValue == 12000.0
      && TokenPrice(4.0, 1_000_000_000) == 4.0
      && OgPoolTokens(1_000_000_000, 15.0) == 150_000_000.0
      && WalletsInTier(100_000, 10.0) == 10_000.0
  {
  }

  /** `build_share_table` (before its two-decimal display rounding): one row
      per requested share, in the order given, duplicates kept. */
  function ShareTable(shares: seq<real>, totalSupply: int, ogPoolPct: real, fdvBillion: real,
                      cohortSize: int, tierPct: real): (rows: seq<ScenarioResult>)
    requires totalSupply != 0
    ensures |rows| == |shares|
    ensures forall i :: 0 <= i < |shares| ==>
      rows[i] == ComputeScenario(totalSupply, ogPoolPct, fdvBillion, cohortSize, tierPct, shares[i])
  {
    if shares == [] then []
    else
      [ComputeScenario(totalSupply, ogPoolPct, fdvBillion, cohortSize, tierPct, shares[0])]
      + ShareTable(shares[1..], totalSupply, ogPoolPct, fdvBillion, cohortSize, tierPct)
  }

  /** The heatmap row for one share: that share against every valuation. */
  function FdvRow(share: real, fdvs: seq<real>, totalSupply: int, ogPoolPct: real,
                  cohortSize: int, tierPct: real): (rows: seq<ScenarioResult>)
    requires totalSupply != 0
    ensures |rows| == |fdvs|
    ensures forall j :: 0 <= j < |fdvs| ==>
      rows[j] == ComputeScenario(totalSupply, ogPoolPct, fdvs[j], cohortSize, tierPct, share)
  {
    if fdvs == [] then []
    else
      [ComputeScenario(totalSupply, ogPoolPct, fdvs[0], cohortSize, tierPct, share)]
      + FdvRow(share, fdvs[1..], totalSupply, ogPoolPct, cohortSize, tierPct)
  }

  /** Position of the (share i, valuation j) cell in the share-major grid. */
  function GridIndex(i: int, j: int, n: int): int {
    i * n + j
  }

  lemma GridIndexBounds(i: int, j: int, n: int, m: int)
    requires 0 <= i < m && 0 <= j < n
    ensures 0 <= GridIndex(i, j, n) < m * n
  {
    assert (i + 1) * n <= m * n;
  }

  /** Row i of the grid starts one row length after row i - 1. */
  lemma GridIndexShift(i: int, j: int, n: int)
    ensures GridIndex(i, j, n) == n + GridIndex(i - 1, j, n)
  {
  }

  lemma MulSucc(m: int, n: int)
    requires m >= 1
    ensures m * n == n + (m - 1) * n
  {
  }

  /** Where cell (i, j) of a grid built as one row of n cells followed by
      m - 1 more rows comes from. */
  lemma GridCons<T>(head: seq<T>, tail: seq<T>, m: int, n: int, i: int, j: int)
    requires m >= 1 && |head| == n && |tail| == (m - 1) * n
    requires 0 <= i < m && 0 <= j < n
    ensures 0 <= GridIndex(i, j, n) < |head + tail|
    ensures i == 0 ==> (head + tail)[GridIndex(i, j, n)] == head[j]
    ensures i > 0 ==> 0 <= GridIndex(i - 1, j, n) < |tail|
    ensures i > 0 ==> (head + tail)[GridIndex(i, j, n)] == tail[GridIndex(i - 1, j, n)]
  {
    GridIndexBounds(i, j, n, m);
    MulSucc(m, n);
    if i > 0 {
      GridIndexShift(i, j, n);
      GridIndexBounds(i - 1, j, n, m - 1);
    }
  }

  /** `build_heatmap_data`: the full share x valuation grid, share-major and
      valuation-minor, duplicates kept. */
  function Heatmap(shares: seq<real>, fdvs: seq<real>, totalSupply: int, ogPoolPct: real,
                   cohortSize: int, tierPct: real): (rows: seq<ScenarioResult>)
    requires totalSupply != 0
    ensures |rows| == |shares| * |fdvs|
    ensures forall i, j :: 0 <= i < |shares| && 0 <= j < |fdvs| ==>
      0 <= GridIndex(i, j, |fdvs|) < |rows|
      && rows[GridIndex(i, j, |fdvs|)]
         == ComputeScenario(totalSupply, ogPoolPct, fdvs[j], cohortSize, tierPct, shares[i])
  {
    if shares == [] then []
    else
      var head := FdvRow(shares[0], fdvs, totalSupply, ogPoolPct, cohortSize, tierPct);
      var tail := Heatmap(shares[1..], fdvs, totalSupply, ogPoolPct, cohortSize, tierPct);
      var n := |fdvs|;
      MulSucc(|shares|, n);
      forall i, j | 0 <= i < |shares| && 0 <= j < n
        ensures 0 <= GridIndex(i, j, n) < |head + tail|
        ensures (head + tail)[GridIndex(i, j, n)]
          == ComputeScenario(totalSupply, ogPoolPct, fdvs[j], cohortSize, tierPct, shares[i])
      {
        GridCons(head, tail, |shares|, n, i, j);
        if i > 0 {
          assert shares[1..][i - 1] == shares[i];
        }
      }
      head + tail
  }
}
