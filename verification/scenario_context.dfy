/** `build_scenario_context` (app/controllers/scenario.py): one scenario per
    loaded cohort, scaled to the chosen cohort size, with its percentile band,
    its curve points and its card, plus the snapshot of the primary cohort. */
module ScenarioContext {
  import opened Common
  import opened PyNum
  import opened Buckets
  import opened PercentileBand
  import opened ScenarioCalc
  import opened DataSources
  import opened Cohort

  /** The share options used when none are given. */
  const DefaultShareOptions: seq<real> := [20.0, 30.0, 40.0]

  /** The slider and report inputs of one build. */
  datatype Inputs = Inputs(
    primaryName: string,
    cohortSize: int,
    tierPct: real,
    ogPoolPct: real,
    fdvBillion: real,
    shareOptions: seq<real>,
    fdvSensitivity: seq<real>,
    walletReport: Option<Report>,
    totalSupply: int)

  /** One point of the percentile/USD curve. */
  datatype CurvePoint = CurvePoint(scenario: string, percentile: real, usd: real, minUsd: real, maxUsd: real)

  /** A `scenario_bands` entry. */
  datatype BandEntry = BandEntry(
    name: string,
    fullLabel: string,
    start: Option<real>,
    end: Option<real>,
    mid: Option<real>,
    cohortSize: int)

  /** A scenario card, without its formatted text fields. */
  datatype Card = Card(
    name: string,
    title: string,
    subtitle: string,
    isPrimary: bool,
    cohortSize: int,
    usdValue: real,
    tokensValue: real,
    fullLabel: string,
    curvePoints: seq<CurvePoint>,
    highlightMid: Option<real>,
    highlightUsd: Option<real>)

  /** `ScenarioSnapshot`, without its explanatory steps. */
  datatype Snapshot = Snapshot(
    tokenPrice: real,
    walletsInTier: int,
    ogPoolTokens: real,
    featuredShare: real,
    tierPct: real,
    shareTable: seq<ScenarioResult>,
    heatmap: seq<ScenarioResult>)

  /** The tuple that identifies the inputs of a build. */
  datatype Signature = Signature(
    ogPoolPct: real,
    fdvBillion: real,
    cohortSize: int,
    tierPct: real,
    shares: seq<real>,
    fdvs: seq<real>)

  /** `ScenarioBuildResult`, without the explanatory steps. */
  datatype Build = Build(
    cards: seq<Card>,
    snapshot: Snapshot,
    bands: seq<BandEntry>,
    curveRows: seq<CurvePoint>,
    primaryResult: ScenarioResult,
    primaryLabel: string,
    primaryCohortWallets: int,
    signature: Signature,
    featuredShare: real,
    tokenPrice: real,
    totalUsdSnapshot: real)

  // ---------------------------------------------------------------------
  // Defaults and scaling
  // ---------------------------------------------------------------------

  /** The share options after defaulting an empty list. */
  function EffectiveShares(shareOptions: seq<real>): (s: seq<real>)
    ensures |s| > 0
    ensures shareOptions != [] ==> s == shareOptions
    ensures shareOptions == [] ==> s == DefaultShareOptions
  {
    if shareOptions == [] then DefaultShareOptions else shareOptions
  }

  /** `featured_share`: the first share option, or 20 without any. */
  function FeaturedShare(shareOptions: seq<real>): (f: real)
    ensures shareOptions == [] ==> f == 20.0
    ensures shareOptions != [] ==> f == shareOptions[0]
    ensures f in EffectiveShares(shareOptions)
  {
    EffectiveShares(shareOptions)[0]
  }

  /** `base_estimate`: the primary's estimate, else the cohort size, else 1;
      a non-positive result is replaced by `max(cohort_size, 1)`. */
  function BaseEstimate(primaryEstimate: int, cohortSize: int): (b: int)
    ensures b >= 1
    ensures primaryEstimate > 0 ==> b == primaryEstimate
    ensures primaryEstimate == 0 && cohortSize > 0 ==> b == cohortSize
    ensures primaryEstimate < 0 || (primaryEstimate == 0 && cohortSize <= 0) ==> b == Max(cohortSize, 1)
  {
    var first := if primaryEstimate != 0 then primaryEstimate else if cohortSize != 0 then cohortSize else 1;
    if first <= 0 then Max(cohortSize, 1) else first
  }

  /** `scenario_cohort_size`: the chosen cohort size scaled by the cohort's
      estimate relative to the base (its own being the base when it has
      none), rounded, and at least 1. */
  function ScaledCohortSize(estimate: int, base: int, cohortSize: int): (n: int)
    requires base >= 1
    ensures n >= 1
    ensures var x := cohortSize as real * ((if estimate != 0 then estimate else base) as real / base as real);
      (x >= 1.0 ==> -0.5 <= n as real - x <= 0.5)
      && (x >= 1.0 && (n as real - x == 0.5 || n as real - x == -0.5) ==> n % 2 == 0)
      && (x < 1.0 ==> n == 1)
  {
    if estimate != 0 then Max(1, RoundHalfEven(cohortSize as real * (estimate as real / base as real)))
    else Max(1, RoundHalfEven(cohortSize as real * (base as real / base as real)))
  }

  /** A cohort with no estimate, or with the base estimate, is modelled at
      the chosen size itself (at least 1). */
  lemma UnscaledCohort(estimate: int, base: int, cohortSize: int)
    requires base >= 1 && (estimate == 0 || estimate == base)
    ensures ScaledCohortSize(estimate, base, cohortSize) == Max(1, cohortSize)
  {
    assert base as real / base as real == 1.0;
    RoundOfInteger(cohortSize);
  }

  /** In particular the primary cohort, whenever its estimate is not
      negative. */
  lemma PrimaryIsUnscaled(primaryEstimate: int, cohortSize: int)
    requires primaryEstimate >= 0
    ensures ScaledCohortSize(primaryEstimate, BaseEstimate(primaryEstimate, cohortSize), cohortSize)
      == Max(1, cohortSize)
  {
    UnscaledCohort(primaryEstimate, BaseEstimate(primaryEstimate, cohortSize), cohortSize);
  }

  /** Scaling is monotone in the estimate. */
  lemma ScaledMonotone(e1: int, e2: int, base: int, cohortSize: int)
    requires base >= 1 && 0 < e1 <= e2 && cohortSize >= 0
    ensures ScaledCohortSize(e1, base, cohortSize) <= ScaledCohortSize(e2, base, cohortSize)
  {
    ScaledRoundMonotone(e1, e2, base, cohortSize);
  }

  lemma ScaledRoundMonotone(e1: int, e2: int, base: int, cohortSize: int)
    requires base >= 1 && e1 <= e2 && cohortSize >= 0
    ensures Max(1, RoundHalfEven(cohortSize as real * (e1 as real / base as real)))
         <= Max(1, RoundHalfEven(cohortSize as real * (e2 as real / base as real)))
  {
    var x1 := cohortSize as real * (e1 as real / base as real);
    var x2 := cohortSize as real * (e2 as real / base as real);
    ScaledArgumentMonotone(e1, e2, base, cohortSize);
    MaxRoundMonotone(x1, x2);
  }

  lemma ScaledArgumentMonotone(e1: int, e2: int, base: int, cohortSize: int)
    requires base >= 1 && e1 <= e2 && cohortSize >= 0
    ensures cohortSize as real * (e1 as real / base as real) <= cohortSize as real * (e2 as real / base as real)
  {
    RatioMonotone(e1 as real, e2 as real, base as real);
    ScaleMonotone(cohortSize as real, e1 as real / base as real, e2 as real / base as real);
  }

  lemma MaxRoundMonotone(x1: real, x2: real)
    requires x1 <= x2
    ensures Max(1, RoundHalfEven(x1)) <= Max(1, RoundHalfEven(x2))
  {
    RoundMonotone(x1, x2);
  }

  lemma RatioMonotone(a: real, b: real, d: real)
    requires a <= b && d > 0.0
    ensures a / d <= b / d
  {
  }

  lemma ScaleMonotone(c: real, x: real, y: real)
    requires c >= 0.0 && x <= y
    ensures c * x <= c * y
  {
  }

  // ---------------------------------------------------------------------
  // Per-cohort records
  // ---------------------------------------------------------------------

  /** `data.config.get("title", name)`. */
  function Title(c: LoadedCohort): string {
    c.config.title.GetOr(c.name)
  }

  /** A truthy optional string: present and non-empty. */
  predicate Truthy(s: Option<string>) {
    s.Some? && s.value != ""
  }

  /** `" · ".join` of the truthy parts among timeline label and tagline, or
      the cohort name when that is empty. */
  function Subtitle(c: LoadedCohort): (s: string)
    ensures !Truthy(c.config.timelineLabel) && !Truthy(c.config.tagline) ==> s == c.name
    ensures Truthy(c.config.timelineLabel) && Truthy(c.config.tagline) ==>
      s == c.config.timelineLabel.value + " · " + c.config.tagline.value
    ensures Truthy(c.config.timelineLabel) != Truthy(c.config.tagline) ==>
      s == (if Truthy(c.config.timelineLabel) then c.config.timelineLabel.value else c.config.tagline.value)
  {
    var bits := (if Truthy(c.config.timelineLabel) then [c.config.timelineLabel.value] else [])
              + (if Truthy(c.config.tagline) then [c.config.tagline.value] else []);
    var joined := if |bits| == 2 then bits[0] + " · " + bits[1] else if |bits| == 1 then bits[0] else "";
    if joined == "" then c.name else joined
  }

  /** The title, followed by the timeline label when there is one. */
  function FullLabel(c: LoadedCohort): (s: string)
    ensures !Truthy(c.config.timelineLabel) ==> s == Title(c)
    ensures Truthy(c.config.timelineLabel) ==> s == Title(c) + " · " + c.config.timelineLabel.value
    ensures s == "" ==> Title(c) == ""
  {
    if Truthy(c.config.timelineLabel) then Title(c) + " · " + c.config.timelineLabel.value else Title(c)
  }

  /** `float(percentile)` for the row's rank: a number is itself and a
      string is what `toFloat`, standing for Python's `float`, makes of it.
      `None` when the rank is missing or null, or when `float` raises. */
  function RankValue(rank: Field, toFloat: string -> Option<real>): Option<real> {
    match rank
    case Absent => None
    case Null => None
    case Num(x) => Some(x)
    case Text(t) => toFloat(t)
  }

  /** The curve point a row yields, if any. A row whose rank is missing,
      null or not convertible by `float` is skipped without error, as is one
      whose rank or USD level is not positive. Unlike the band locator, a
      present zero maximum is kept here. */
  function CurvePointOf(scenarioLabel: string, row: Bucket, toFloat: string -> Option<real>): (p: Option<CurvePoint>)
    ensures row.usdPercentileRank.Absent? || row.usdPercentileRank.Null? ==> p.None?
    ensures row.usdPercentileRank.Text? && toFloat(row.usdPercentileRank.s).None? ==> p.None?
    ensures p.Some? ==> p.value.percentile == RankValue(row.usdPercentileRank, toFloat).value
    ensures p.Some? && row.usdPercentileRank.Num? ==> p.value.percentile == row.usdPercentileRank.n
    ensures p.Some? ==> p.value.percentile > 0.0
    ensures p.Some? ==> p.value.minUsd == row.minTotalUsd.GetOr(0.0)
    ensures p.Some? ==> p.value.maxUsd == row.maxTotalUsd.GetOr(p.value.minUsd)
    ensures p.Some? ==> p.value.usd == MaxR(p.value.minUsd, p.value.maxUsd) && p.value.usd > 0.0
    ensures p.Some? ==> p.value.scenario == scenarioLabel
    ensures p.None? <==>
      var v := RankValue(row.usdPercentileRank, toFloat);
      v.None? || v.value <= 0.0 ||
      MaxR(row.minTotalUsd.GetOr(0.0), row.maxTotalUsd.GetOr(row.minTotalUsd.GetOr(0.0))) <= 0.0
  {
    match RankValue(row.usdPercentileRank, toFloat)
    case None => None
    case Some(percentile) =>
      var minUsd := row.minTotalUsd.GetOr(0.0);
      var maxUsd := row.maxTotalUsd.GetOr(minUsd);
      var usd := MaxR(minUsd, maxUsd);
      if usd <= 0.0 || percentile <= 0.0 then None
      else Some(CurvePoint(scenarioLabel, percentile, usd, minUsd, maxUsd))
  }

  /** A point emitted by the curve extraction. */
  predicate ValidPoint(p: CurvePoint) {
    p.percentile > 0.0 && p.usd > 0.0 && p.usd == MaxR(p.minUsd, p.maxUsd)
  }

  /** The curve points of one cohort's rows, in row order. */
  function CurvePoints(scenarioLabel: string, rows: seq<Bucket>, toFloat: string -> Option<real>): (ps: seq<CurvePoint>)
    ensures |ps| <= |rows|
    ensures forall i :: 0 <= i < |ps| ==> ValidPoint(ps[i]) && ps[i].scenario == scenarioLabel
  {
    if rows == [] then []
    else
      var head := CurvePointOf(scenarioLabel, rows[0], toFloat);
      (if head.Some? then [head.value] else []) + CurvePoints(scenarioLabel, rows[1..], toFloat)
  }

  /** The extraction skips exactly the rows that yield no point. */
  lemma {:induction false} CurvePointsOfRows(scenarioLabel: string, rows: seq<Bucket>, toFloat: string -> Option<real>)
    ensures CurvePoints(scenarioLabel, rows, toFloat) == Concat(seq(|rows|, i requires 0 <= i < |rows| =>
      var p := CurvePointOf(scenarioLabel, rows[i], toFloat); if p.Some? then [p.value] else []))
  {
    if rows != [] {
      CurvePointsOfRows(scenarioLabel, rows[1..], toFloat);
      var f := (i: int) requires 0 <= i < |rows| =>
        var p := CurvePointOf(scenarioLabel, rows[i], toFloat); if p.Some? then [p.value] else [];
      var whole := seq(|rows|, f);
      var rest := seq(|rows| - 1, i requires 0 <= i < |rows| - 1 =>
        var p := CurvePointOf(scenarioLabel, rows[1..][i], toFloat); if p.Some? then [p.value] else []);
      assert whole[1..] == rest;
    }
  }

  /** The scenario values shared by every cohort of one build, with the
      `float` conversion the curve extraction applies to string ranks. */
  datatype Shared = Shared(inputs: Inputs, base: int, featuredShare: real, totalUsdSnapshot: real,
                           toFloat: string -> Option<real>)

  predicate ValidShared(k: Shared) {
    k.base >= 1 && k.inputs.totalSupply != 0
  }

  /** The scenario cohort size of c in this build. */
  function CohortSizeFor(k: Shared, c: LoadedCohort): (n: int)
    requires ValidShared(k)
    ensures n >= 1
    ensures n == ScaledCohortSize(c.estimate, k.base, k.inputs.cohortSize)
  {
    ScaledCohortSize(c.estimate, k.base, k.inputs.cohortSize)
  }

  /** The compute_scenario result of c in this build. */
  function ResultFor(k: Shared, c: LoadedCohort): (r: ScenarioResult)
    requires ValidShared(k)
    ensures r.sharePct == k.featuredShare && r.fdvBillion == k.inputs.fdvBillion
    ensures r.usdValue == k.inputs.ogPoolPct / 100.0 * (k.featuredShare / 100.0)
      * (k.inputs.fdvBillion * 1_000_000_000.0) / WalletsInTier(CohortSizeFor(k, c), k.inputs.tierPct)
    ensures r.tokensPerWallet * WalletsInTier(CohortSizeFor(k, c), k.inputs.tierPct)
      == OgPoolTokens(k.inputs.totalSupply, k.inputs.ogPoolPct) * (k.featuredShare / 100.0)
  {
    ComputeScenario(k.inputs.totalSupply, k.inputs.ogPoolPct, k.inputs.fdvBillion,
                    CohortSizeFor(k, c), k.inputs.tierPct, k.featuredShare)
  }

  /** The band of c when there is a wallet report and c has rows. */
  function BandFor(k: Shared, c: LoadedCohort): (b: Option<Band>)
    requires ValidShared(k)
    ensures b.Some? ==> k.inputs.walletReport.Some? && c.rows != []
    ensures b.Some? ==> 0.0 <= b.value.startPercentile < b.value.endPercentile <= 100.0
    ensures b.Some? ==> FirstMatch(k.totalUsdSnapshot, c.rows, CohortSizeFor(k, c), b.value.bucketIndex)
    ensures k.inputs.walletReport.None? || c.rows == [] ==> b.None?
    ensures k.inputs.walletReport.Some? && c.rows != [] ==>
      b == Locate(k.totalUsdSnapshot, c.rows, CohortSizeFor(k, c))
  {
    if k.inputs.walletReport.Some? && c.rows != [] then
      Locate(k.totalUsdSnapshot, c.rows, CohortSizeFor(k, c))
    else None
  }

  /** The `scenario_bands` entry of c. */
  function BandEntryFor(k: Shared, c: LoadedCohort): (e: BandEntry)
    requires ValidShared(k)
    ensures e.name == c.name && e.fullLabel == FullLabel(c) && e.cohortSize == CohortSizeFor(k, c)
    ensures (e.start.Some? && e.end.Some? && e.mid.Some?) || (e.start.None? && e.end.None? && e.mid.None?)
    ensures e.start.Some? ==> k.inputs.walletReport.Some? && c.rows != []
    ensures e.start.Some? ==> 0.0 <= e.start.value < e.mid.value < e.end.value <= 100.0
    ensures e.start.Some? ==> e.mid.value == (e.start.value + e.end.value) / 2.0
    ensures e.start.None? <==> BandFor(k, c).None?
    ensures e.start.Some? ==>
      e.start.value == BandFor(k, c).value.startPercentile && e.end.value == BandFor(k, c).value.endPercentile
  {
    var band := BandFor(k, c);
    if band.Some? then
      var s, t := band.value.startPercentile, band.value.endPercentile;
      BandEntry(c.name, FullLabel(c), Some(s), Some(t), Some((s + t) / 2.0), CohortSizeFor(k, c))
    else
      BandEntry(c.name, FullLabel(c), None, None, None, CohortSizeFor(k, c))
  }

  /** The card of c. */
  function CardFor(k: Shared, c: LoadedCohort): (card: Card)
    requires ValidShared(k)
    ensures card.name == c.name && card.title == Title(c) && card.subtitle == Subtitle(c)
    ensures card.isPrimary <==> c.name == k.inputs.primaryName
    ensures card.cohortSize == CohortSizeFor(k, c) && card.cohortSize >= 1
    ensures card.usdValue == ResultFor(k, c).usdValue
    ensures card.tokensValue == ResultFor(k, c).tokensPerWallet
    ensures card.fullLabel == FullLabel(c)
    ensures card.curvePoints == CurvePoints(FullLabel(c), c.rows, k.toFloat)
    ensures card.highlightMid == BandEntryFor(k, c).mid
    ensures card.highlightUsd.Some? <==> k.totalUsdSnapshot > 0.0
    ensures card.highlightUsd.Some? ==> card.highlightUsd.value == k.totalUsdSnapshot
  {
    var result := ResultFor(k, c);
    Card(c.name, Title(c), Subtitle(c), c.name == k.inputs.primaryName,
         CohortSizeFor(k, c), result.usdValue, result.tokensPerWallet, FullLabel(c),
         CurvePoints(FullLabel(c), c.rows, k.toFloat), BandEntryFor(k, c).mid,
         if k.totalUsdSnapshot > 0.0 then Some(k.totalUsdSnapshot) else None)
  }

  // ---------------------------------------------------------------------
  // The whole build
  // ---------------------------------------------------------------------

  /** Position of the cohort called `name`, or |cohorts| when there is none. */
  function IndexOf(cohorts: seq<LoadedCohort>, name: string): (k: nat)
    ensures k <= |cohorts|
    ensures k < |cohorts| ==> cohorts[k].name == name
    ensures k == |cohorts| <==> forall i :: 0 <= i < |cohorts| ==> cohorts[i].name != name
  {
    if cohorts == [] then 0
    else if cohorts[0].name == name then 0
    else 1 + IndexOf(cohorts[1..], name)
  }

  predicate DistinctCohortNames(cohorts: seq<LoadedCohort>) {
    forall i, j :: 0 <= i < j < |cohorts| ==> cohorts[i].name != cohorts[j].name
  }

  /** `total_usd_snapshot`: the report summary's `total_usd` when there is a
      report and the primary cohort has rows, 0 otherwise. */
  function TotalUsdSnapshot(report: Option<Report>, primaryRows: seq<Bucket>): (t: real)
    ensures report.None? || primaryRows == [] ==> t == 0.0
    ensures report.Some? && primaryRows != [] && report.value.summary.Some? ==>
      t == Or(report.value.summary.value.totalUsd, 0.0)
    ensures report.Some? && report.value.summary.None? ==> t == 0.0
  {
    if report.Some? && primaryRows != [] then
      match report.value.summary
      case None => 0.0
      case Some(row) => Or(row.totalUsd, 0.0)
    else 0.0
  }

  /** `int(round(wallets * (tier_pct / 100)))`, at least 1. */
  function RoundedWalletsInTier(wallets: int, tierPct: real): (n: int)
    ensures n >= 1
    ensures wallets as real * (tierPct / 100.0) >= 1.0 ==>
      -0.5 <= n as real - wallets as real * (tierPct / 100.0) <= 0.5
    ensures var x := wallets as real * (tierPct / 100.0);
      x >= 1.0 && (n as real - x == 0.5 || n as real - x == -0.5) ==> n % 2 == 0
    ensures wallets as real * (tierPct / 100.0) < 1.0 ==> n == 1
  {
    Max(1, RoundHalfEven(wallets as real * (tierPct / 100.0)))
  }

  /** The cards, one per cohort in cohort order. */
  function Cards(k: Shared, cohorts: seq<LoadedCohort>): (cards: seq<Card>)
    requires ValidShared(k)
    ensures |cards| == |cohorts|
    ensures forall i :: 0 <= i < |cohorts| ==> cards[i] == CardFor(k, cohorts[i])
  {
    seq(|cohorts|, i requires 0 <= i < |cohorts| => CardFor(k, cohorts[i]))
  }

  /** The band entries, one per cohort in cohort order. */
  function Bands(k: Shared, cohorts: seq<LoadedCohort>): (bands: seq<BandEntry>)
    requires ValidShared(k)
    ensures |bands| == |cohorts|
    ensures forall i :: 0 <= i < |cohorts| ==> bands[i] == BandEntryFor(k, cohorts[i])
  {
    seq(|cohorts|, i requires 0 <= i < |cohorts| => BandEntryFor(k, cohorts[i]))
  }

  /** Each card's curve points, in card order. */
  function PointsOfCards(cards: seq<Card>): seq<seq<CurvePoint>> {
    seq(|cards|, i requires 0 <= i < |cards| => cards[i].curvePoints)
  }

  /** `curve_rows`: every card's curve points, card after card and row after
      row. A point is a curve row exactly when it is a point of some card. */
  function CurveRows(cards: seq<Card>): (rows: seq<CurvePoint>)
    ensures rows == Concat(PointsOfCards(cards))
    ensures forall i, j :: 0 <= i < |cards| && 0 <= j < |cards[i].curvePoints| ==>
      cards[i].curvePoints[j] in rows
    ensures forall q :: q in rows ==> exists i :: 0 <= i < |cards| && q in cards[i].curvePoints
  {
    if cards == [] then []
    else
      var rest := CurveRows(cards[1..]);
      assert forall i :: 1 <= i < |cards| ==> cards[1..][i - 1] == cards[i];
      assert PointsOfCards(cards)[1..] == PointsOfCards(cards[1..]);
      cards[0].curvePoints + rest
  }

  /** Every curve row is a valid point, labelled with one of the cards. */
  lemma CurveRowsValid(cards: seq<Card>)
    requires forall i, j :: 0 <= i < |cards| && 0 <= j < |cards[i].curvePoints| ==>
      ValidPoint(cards[i].curvePoints[j]) && cards[i].curvePoints[j].scenario == cards[i].fullLabel
    ensures forall q :: q in CurveRows(cards) ==> ValidPoint(q) && exists i :: 0 <= i < |cards| && q.scenario == cards[i].fullLabel
  {
    forall q | q in CurveRows(cards)
      ensures ValidPoint(q) && exists i :: 0 <= i < |cards| && q.scenario == cards[i].fullLabel
    {
      var i :| 0 <= i < |cards| && q in cards[i].curvePoints;
      var j :| 0 <= j < |cards[i].curvePoints| && cards[i].curvePoints[j] == q;
    }
  }

  /** The curve rows of a build are the valid points of its cards. */
  lemma BuildCurveRowsValid(k: Shared, cohorts: seq<LoadedCohort>)
    requires ValidShared(k)
    ensures forall q :: q in CurveRows(Cards(k, cohorts)) ==> ValidPoint(q)
  {
    CurveRowsValid(Cards(k, cohorts));
  }

  /** The snapshot of the primary cohort. The share table and heatmap use the
      chosen cohort size, not the primary's scaled one. */
  function SnapshotFor(inp: Inputs, primaryWallets: int): (s: Snapshot)
    requires inp.totalSupply != 0
    ensures s.tokenPrice * inp.totalSupply as real == inp.fdvBillion * 1_000_000_000.0
    ensures s.walletsInTier >= 1
    ensures s.walletsInTier == RoundedWalletsInTier(primaryWallets, inp.tierPct)
    ensures s.ogPoolTokens == inp.totalSupply as real * (inp.ogPoolPct / 100.0)
    ensures s.featuredShare == FeaturedShare(inp.shareOptions) && s.tierPct == inp.tierPct
    ensures |s.shareTable| == |EffectiveShares(inp.shareOptions)|
    ensures forall i :: 0 <= i < |s.shareTable| ==>
      s.shareTable[i] == ComputeScenario(inp.totalSupply, inp.ogPoolPct, inp.fdvBillion,
                                         inp.cohortSize, inp.tierPct, EffectiveShares(inp.shareOptions)[i])
    ensures |s.heatmap| == |EffectiveShares(inp.shareOptions)| * |inp.fdvSensitivity|
    ensures forall i, j :: 0 <= i < |EffectiveShares(inp.shareOptions)| && 0 <= j < |inp.fdvSensitivity| ==>
      0 <= GridIndex(i, j, |inp.fdvSensitivity|) < |s.heatmap|
      && s.heatmap[GridIndex(i, j, |inp.fdvSensitivity|)]
         == ComputeScenario(inp.totalSupply, inp.ogPoolPct, inp.fdvSensitivity[j],
                            inp.cohortSize, inp.tierPct, EffectiveShares(inp.shareOptions)[i])
  {
    var shares := EffectiveShares(inp.shareOptions);
    Snapshot(
      TokenPrice(inp.fdvBillion, inp.totalSupply),
      RoundedWalletsInTier(primaryWallets, inp.tierPct),
      OgPoolTokens(inp.totalSupply, inp.ogPoolPct),
      FeaturedShare(inp.shareOptions),
      inp.tierPct,
      ShareTable(shares, inp.totalSupply, inp.ogPoolPct, inp.fdvBillion, inp.cohortSize, inp.tierPct),
      Heatmap(shares, inp.fdvSensitivity, inp.totalSupply, inp.ogPoolPct, inp.cohortSize, inp.tierPct))
  }

  /** The values every cohort of a build shares, for primary cohort `primary`. */
  function SharedFor(inp: Inputs, primary: LoadedCohort, toFloat: string -> Option<real>): (k: Shared)
    requires inp.totalSupply != 0
    ensures ValidShared(k) && k.inputs == inp && k.toFloat == toFloat
    ensures k.base == BaseEstimate(primary.estimate, inp.cohortSize)
    ensures k.featuredShare == FeaturedShare(inp.shareOptions)
    ensures k.totalUsdSnapshot == TotalUsdSnapshot(inp.walletReport, primary.rows)
  {
    Shared(inp, BaseEstimate(primary.estimate, inp.cohortSize), FeaturedShare(inp.shareOptions),
           TotalUsdSnapshot(inp.walletReport, primary.rows), toFloat)
  }

  /** `build_scenario_context`. A primary name that is not a loaded cohort
      raises `KeyError`. */
  function BuildScenarioContext(cohorts: seq<LoadedCohort>, inp: Inputs, toFloat: string -> Option<real>): (r: Result<Build>)
    requires inp.totalSupply != 0
    requires DistinctCohortNames(cohorts)
    ensures r.Err? <==> forall i :: 0 <= i < |cohorts| ==> cohorts[i].name != inp.primaryName
    ensures r.Err? ==> r.error == KeyError
    ensures r.Ok? ==> var p := IndexOf(cohorts, inp.primaryName);
      var k := SharedFor(inp, cohorts[p], toFloat);
      && p < |cohorts|
      && r.value.cards == Cards(k, cohorts)
      && r.value.bands == Bands(k, cohorts)
      && r.value.curveRows == CurveRows(r.value.cards)
      && r.value.primaryResult == ResultFor(k, cohorts[p])
      && r.value.primaryLabel == r.value.cards[p].fullLabel
      && r.value.primaryCohortWallets == r.value.cards[p].cohortSize
      && r.value.snapshot == SnapshotFor(inp, r.value.primaryCohortWallets)
      && r.value.featuredShare == FeaturedShare(inp.shareOptions)
      && r.value.tokenPrice == r.value.snapshot.tokenPrice
      && r.value.totalUsdSnapshot == TotalUsdSnapshot(inp.walletReport, cohorts[p].rows)
      && r.value.signature == Signature(inp.ogPoolPct, inp.fdvBillion, inp.cohortSize, inp.tierPct,
                                        EffectiveShares(inp.shareOptions), inp.fdvSensitivity)
  {
    var p := IndexOf(cohorts, inp.primaryName);
    if p == |cohorts| then Err(KeyError)
    else
      var primary := cohorts[p];
      var k := SharedFor(inp, primary, toFloat);
      var cards := Cards(k, cohorts);
      var primaryWallets := CohortSizeFor(k, primary);
      var snapshot := SnapshotFor(inp, primaryWallets);
      Ok(Build(
        cards,
        snapshot,
        Bands(k, cohorts),
        CurveRows(cards),
        ResultFor(k, primary),
        FullLabel(primary),
        primaryWallets,
        Signature(inp.ogPoolPct, inp.fdvBillion, inp.cohortSize, inp.tierPct,
                  EffectiveShares(inp.shareOptions), inp.fdvSensitivity),
        FeaturedShare(inp.shareOptions),
        snapshot.tokenPrice,
        k.totalUsdSnapshot))
  }

  /** Exactly one card is marked primary, and it is the primary cohort's. */
  lemma OnePrimaryCard(cohorts: seq<LoadedCohort>, inp: Inputs, toFloat: string -> Option<real>)
    requires inp.totalSupply != 0 && DistinctCohortNames(cohorts)
    requires exists i :: 0 <= i < |cohorts| && cohorts[i].name == inp.primaryName
    ensures BuildScenarioContext(cohorts, inp, toFloat).Ok?
    ensures var b := BuildScenarioContext(cohorts, inp, toFloat).value;
      var p := IndexOf(cohorts, inp.primaryName);
      && b.cards[p].isPrimary
      && forall i :: 0 <= i < |b.cards| && b.cards[i].isPrimary ==> i == p
  {
  }

  /** The primary cohort, when its estimate is not negative, is modelled at
      the chosen cohort size. */
  lemma PrimaryWalletsAreChosenSize(cohorts: seq<LoadedCohort>, inp: Inputs, toFloat: string -> Option<real>)
    requires inp.totalSupply != 0 && DistinctCohortNames(cohorts)
    requires exists i :: 0 <= i < |cohorts| && cohorts[i].name == inp.primaryName
    requires cohorts[IndexOf(cohorts, inp.primaryName)].estimate >= 0
    ensures BuildScenarioContext(cohorts, inp, toFloat).value.primaryCohortWallets == Max(1, inp.cohortSize)
  {
    var p := IndexOf(cohorts, inp.primaryName);
    PrimaryIsUnscaled(cohorts[p].estimate, inp.cohortSize);
  }
}
