/** Wallet activity metrics over loaded trades and sales
    (`summarise_wallet` in opensea_metrics.py). */
module WalletMetrics {
  import opened Common
  import opened TradeRows

  datatype WalletSummary = WalletSummary(
    wallet: Option<string>,
    firstActivity: Stamp,
    lastActivity: Stamp,
    buys: int,
    buysVolumeEth: real,
    sells: int,
    sellsVolumeEth: real,
    netRealisedEth: real,
    marketplaceFeesEth: real,
    royaltyFeesEth: real,
    uniqueCollections: int,
    uniqueTokens: int,
    tradeCount: int,
    fillsCount: int,
    activeDays: int,
    activeWeeks: int,
    activeMonths: int)

  /** Index of `min(s)`: the first timestamp no later than any other, as a
      left-to-right scan that replaces only on a strictly earlier instant
      finds it. */
  function EarliestIndex(s: seq<Stamp>): (k: nat)
    requires |s| > 0
    ensures k < |s|
    ensures forall j :: 0 <= j < |s| ==> s[k].instant <= s[j].instant
    ensures forall j :: 0 <= j < k ==> s[j].instant > s[k].instant
  {
    if |s| == 1 then 0
    else
      var k := EarliestIndex(s[..|s| - 1]);
      if s[|s| - 1].instant < s[k].instant then |s| - 1 else k
  }

  /** Index of `max(s)`: the first timestamp no earlier than any other. */
  function LatestIndex(s: seq<Stamp>): (k: nat)
    requires |s| > 0
    ensures k < |s|
    ensures forall j :: 0 <= j < |s| ==> s[j].instant <= s[k].instant
    ensures forall j :: 0 <= j < k ==> s[j].instant < s[k].instant
  {
    if |s| == 1 then 0
    else
      var k := LatestIndex(s[..|s| - 1]);
      if s[|s| - 1].instant > s[k].instant then |s| - 1 else k
  }

  function TradeStamp(t: Trade): Stamp { t.timestamp }
  function SaleStamp(s: Sale): Stamp { s.timestamp }
  function StampDate(ts: Stamp): Date { ts.date }
  function TradePrice(t: Trade): real { t.priceEth }
  function SaleProceeds(s: Sale): real { s.proceedsEth }
  function TradeMarketplaceFee(t: Trade): real { t.marketplaceFeeEth }
  function SaleMarketplaceFee(s: Sale): real { s.marketplaceFeeEth }
  function TradeRoyaltyFee(t: Trade): real { t.royaltyFeeEth }
  function SaleRoyaltyFee(s: Sale): real { s.royaltyFeeEth }
  function TradeToken(t: Trade): (string, string) { (t.contract, t.tokenId) }
  function SaleToken(s: Sale): (string, string) { (s.contract, s.tokenId) }
  function TradeCollection(t: Trade): string { t.collection }
  function SaleCollection(s: Sale): string { s.collection }
  function MonthOf(d: Date): (int, int) { (d.year, d.month) }

  /** The trades recorded with the given direction. */
  function WithDirection(d: string): Trade -> bool {
    (t: Trade) => t.direction == d
  }

  /** `[f(x) for x in s]`. */
  function Map<T, U>(s: seq<T>, f: T -> U): (r: seq<U>)
    ensures |r| == |s|
    ensures forall i :: 0 <= i < |s| ==> r[i] == f(s[i])
  {
    seq(|s|, i requires 0 <= i < |s| => f(s[i]))
  }

  /** Every timestamp, trades first and then sales. */
  function Timestamps(trades: seq<Trade>, sales: seq<Sale>): (s: seq<Stamp>)
    ensures |s| == |trades| + |sales|
  {
    Map(trades, TradeStamp) + Map(sales, SaleStamp)
  }

  /** Distinct (contract, token id) pairs touched. */
  function TokenSet(trades: seq<Trade>, sales: seq<Sale>): set<(string, string)> {
    (set x | x in Map(trades, TradeToken)) + (set x | x in Map(sales, SaleToken))
  }

  /** Distinct non-empty collection names touched. */
  function CollectionSet(trades: seq<Trade>, sales: seq<Sale>): set<string> {
    (set c | c in Map(trades, TradeCollection) && c != "") + (set c | c in Map(sales, SaleCollection) && c != "")
  }

  /** The distinct calendar dates among some timestamps. */
  function DatesOf(stamps: seq<Stamp>): set<Date> {
    set d | d in Map(stamps, StampDate)
  }

  /** The distinct groups, under `g`, of the timestamps' dates. */
  function GroupsOf<B>(stamps: seq<Stamp>, g: Date -> B): set<B> {
    set ts | ts in stamps :: g(ts.date)
  }

  /** Distinct calendar dates with activity. */
  function DaySet(trades: seq<Trade>, sales: seq<Sale>): set<Date> {
    DatesOf(Timestamps(trades, sales))
  }

  /** Distinct ISO (year, week) pairs with activity; `isoWeek` stands for
      `isocalendar`. */
  function WeekSet(trades: seq<Trade>, sales: seq<Sale>, isoWeek: Date -> (int, int)): set<(int, int)> {
    GroupsOf(Timestamps(trades, sales), isoWeek)
  }

  /** Distinct (year, month) pairs with activity. */
  function MonthSet(trades: seq<Trade>, sales: seq<Sale>): set<(int, int)> {
    GroupsOf(Timestamps(trades, sales), MonthOf)
  }

  /** Grouping dates never yields more groups than dates. */
  lemma GroupsOfDates<B>(stamps: seq<Stamp>, g: Date -> B)
    ensures |GroupsOf(stamps, g)| <= |DatesOf(stamps)|
  {
    var days := DatesOf(stamps);
    var dates := Map(stamps, StampDate);
    assert GroupsOf(stamps, g) == Image(days, g) by {
      forall w | w in GroupsOf(stamps, g) ensures w in Image(days, g) {
        var ts :| ts in stamps && w == g(ts.date);
        var i :| 0 <= i < |stamps| && stamps[i] == ts;
        assert dates[i] == ts.date;
      }
      forall w | w in Image(days, g) ensures w in GroupsOf(stamps, g) {
        var d :| d in days && w == g(d);
        var i :| 0 <= i < |dates| && dates[i] == d;
        assert stamps[i] in stamps;
      }
    }
    ImageCard(days, g);
  }

  /** There are never more distinct tokens than fills. */
  lemma TokenSetBound(trades: seq<Trade>, sales: seq<Sale>)
    ensures |TokenSet(trades, sales)| <= |trades| + |sales|
  {
    var a := Map(trades, TradeToken);
    var b := Map(sales, SaleToken);
    assert TokenSet(trades, sales) == set x | x in a + b;
    SeqSetCard(a + b);
  }

  /** There are never more distinct collections than fills. */
  lemma CollectionSetBound(trades: seq<Trade>, sales: seq<Sale>)
    ensures |CollectionSet(trades, sales)| <= |trades| + |sales|
  {
    var a := Map(trades, TradeCollection);
    var b := Map(sales, SaleCollection);
    SubsetCard(CollectionSet(trades, sales), set x | x in a + b);
    SeqSetCard(a + b);
  }

  /** Active days never exceed fills, and there is at least one when there is
      any fill. */
  lemma DaySetBound(trades: seq<Trade>, sales: seq<Sale>)
    ensures |DaySet(trades, sales)| <= |trades| + |sales|
    ensures |trades| + |sales| > 0 ==> |DaySet(trades, sales)| >= 1
  {
    var dates := Map(Timestamps(trades, sales), StampDate);
    SeqSetCard(dates);
    if |trades| + |sales| > 0 {
      assert dates[0] in DaySet(trades, sales);
    }
  }

  /** `min(timestamps)` and `max(timestamps)`: the earliest and latest
      activity, each one of the timestamps. */
  function ActivitySpan(stamps: seq<Stamp>): (r: (Stamp, Stamp))
    requires |stamps| > 0
    ensures r.0 in stamps && r.1 in stamps
    ensures forall ts :: ts in stamps ==> r.0.instant <= ts.instant <= r.1.instant
  {
    (stamps[EarliestIndex(stamps)], stamps[LatestIndex(stamps)])
  }

  /** The bounds of all five distinct counts together. */
  lemma ActivityBounds(trades: seq<Trade>, sales: seq<Sale>, isoWeek: Date -> (int, int))
    requires trades != [] || sales != []
    ensures |TokenSet(trades, sales)| <= |trades| + |sales|
    ensures |CollectionSet(trades, sales)| <= |trades| + |sales|
    ensures 1 <= |DaySet(trades, sales)| <= |trades| + |sales|
    ensures |WeekSet(trades, sales, isoWeek)| <= |DaySet(trades, sales)|
    ensures |MonthSet(trades, sales)| <= |DaySet(trades, sales)|
  {
    TokenSetBound(trades, sales);
    CollectionSetBound(trades, sales);
    DaySetBound(trades, sales);
    GroupsOfDates(Timestamps(trades, sales), isoWeek);
    GroupsOfDates(Timestamps(trades, sales), MonthOf);
  }

  /** `summarise_wallet`, without the wall-clock `days_since_first_trade`:
      ValueError when there is nothing to summarise. */
  function SummariseWallet(trades: seq<Trade>, sales: seq<Sale>, wallet: Option<string>,
                           isoWeek: Date -> (int, int)): (r: Result<WalletSummary>)
    ensures r.Err? <==> trades == [] && sales == []
    ensures r.Err? ==> r.error == ValueError
    ensures r.Ok? ==> r.value.wallet == wallet
    ensures r.Ok? ==> r.value.firstActivity in Timestamps(trades, sales)
    ensures r.Ok? ==> r.value.lastActivity in Timestamps(trades, sales)
    ensures r.Ok? ==> forall ts :: ts in Timestamps(trades, sales) ==>
      r.value.firstActivity.instant <= ts.instant <= r.value.lastActivity.instant
    ensures r.Ok? ==> r.value.buys == |Filter(WithDirection("buy"), trades)|
    ensures r.Ok? ==> r.value.buysVolumeEth == SumOf(Filter(WithDirection("buy"), trades), TradePrice)
    ensures r.Ok? ==> r.value.sells == (if sales != [] then |sales| else |Filter(WithDirection("sell"), trades)|)
    ensures r.Ok? ==>
      r.value.sellsVolumeEth == SumOf(sales, SaleProceeds) + SumOf(Filter(WithDirection("sell"), trades), TradePrice)
    ensures r.Ok? ==> r.value.netRealisedEth == r.value.sellsVolumeEth - r.value.buysVolumeEth
    ensures r.Ok? ==>
      r.value.marketplaceFeesEth == SumOf(trades, TradeMarketplaceFee) + SumOf(sales, SaleMarketplaceFee)
    ensures r.Ok? ==> r.value.royaltyFeesEth == SumOf(trades, TradeRoyaltyFee) + SumOf(sales, SaleRoyaltyFee)
    ensures r.Ok? ==> r.value.tradeCount == |trades| && r.value.fillsCount == |trades| + |sales|
    ensures r.Ok? ==> 0 <= r.value.buys <= r.value.tradeCount
    ensures r.Ok? ==> r.value.uniqueTokens == |TokenSet(trades, sales)|
    ensures r.Ok? ==> r.value.uniqueCollections == |CollectionSet(trades, sales)|
    ensures r.Ok? ==> r.value.activeDays == |DaySet(trades, sales)|
    ensures r.Ok? ==> r.value.activeWeeks == |WeekSet(trades, sales, isoWeek)|
    ensures r.Ok? ==> r.value.activeMonths == |MonthSet(trades, sales)|
    ensures r.Ok? ==> r.value.uniqueTokens <= r.value.fillsCount
    ensures r.Ok? ==> r.value.uniqueCollections <= r.value.fillsCount
    ensures r.Ok? ==> 1 <= r.value.activeDays <= r.value.fillsCount
    ensures r.Ok? ==> r.value.activeWeeks <= r.value.activeDays && r.value.activeMonths <= r.value.activeDays
  {
    if trades == [] && sales == [] then Err(ValueError)
    else
      var (first, last) := ActivitySpan(Timestamps(trades, sales));
      var buyTrades := Filter(WithDirection("buy"), trades);
      var sellTrades := Filter(WithDirection("sell"), trades);
      var buysVolume := SumOf(buyTrades, TradePrice);
      var sellsVolume := SumOf(sales, SaleProceeds) + SumOf(sellTrades, TradePrice);
      ActivityBounds(trades, sales, isoWeek);
      Ok(WalletSummary(
        wallet, first, last,
        |buyTrades|, buysVolume,
        if sales != [] then |sales| else |sellTrades|, sellsVolume,
        sellsVolume - buysVolume,
        SumOf(trades, TradeMarketplaceFee) + SumOf(sales, SaleMarketplaceFee),
        SumOf(trades, TradeRoyaltyFee) + SumOf(sales, SaleRoyaltyFee),
        |CollectionSet(trades, sales)|, |TokenSet(trades, sales)|,
        |trades|, |trades| + |sales|,
        |DaySet(trades, sales)|, |WeekSet(trades, sales, isoWeek)|, |MonthSet(trades, sales)|))
  }

  /** One more buy trade adds one buy and its price to the buy volume. */
  lemma AnotherBuy(trades: seq<Trade>, sales: seq<Sale>, t: Trade, wallet: Option<string>,
                   isoWeek: Date -> (int, int))
    requires t.direction == "buy"
    requires trades != [] || sales != []
    ensures var before := SummariseWallet(trades, sales, wallet, isoWeek).value;
            var after := SummariseWallet(trades + [t], sales, wallet, isoWeek).value;
            after.buys == before.buys + 1 && after.buysVolumeEth == before.buysVolumeEth + t.priceEth
  {
    var buy := WithDirection("buy");
    FilterConcat(buy, trades, [t]);
    assert Filter(buy, [t]) == [t];
    SumOfConcat(Filter(buy, trades), [t], TradePrice);
  }

  /** One more buy trade leaves the sell side alone. */
  lemma AnotherBuyKeepsSells(trades: seq<Trade>, sales: seq<Sale>, t: Trade, wallet: Option<string>,
                             isoWeek: Date -> (int, int))
    requires t.direction == "buy"
    requires trades != [] || sales != []
    ensures var before := SummariseWallet(trades, sales, wallet, isoWeek).value;
            var after := SummariseWallet(trades + [t], sales, wallet, isoWeek).value;
            after.sells == before.sells && after.sellsVolumeEth == before.sellsVolumeEth
  {
    var sell := WithDirection("sell");
    FilterConcat(sell, trades, [t]);
    assert Filter(sell, [t]) == [];
    assert Filter(sell, trades + [t]) == Filter(sell, trades);
  }

  /** One more buy trade lowers the realised net by its price. */
  lemma AnotherBuyLowersNet(trades: seq<Trade>, sales: seq<Sale>, t: Trade, wallet: Option<string>,
                            isoWeek: Date -> (int, int))
    requires t.direction == "buy"
    requires trades != [] || sales != []
    ensures SummariseWallet(trades + [t], sales, wallet, isoWeek).value.netRealisedEth
         == SummariseWallet(trades, sales, wallet, isoWeek).value.netRealisedEth - t.priceEth
  {
    AnotherBuy(trades, sales, t, wallet, isoWeek);
    AnotherBuyKeepsSells(trades, sales, t, wallet, isoWeek);
  }
}
