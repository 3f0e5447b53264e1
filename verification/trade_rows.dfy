/** Reading trade and sale rows of a CSV export (opensea_metrics.py):
    decimal columns with fallbacks, trade directions, and the row-to-record
    loaders with their error cases. */
module TradeRows {
  import opened Common
  import opened PyStr

  /** A calendar date. */
  datatype Date = Date(year: int, month: int, day: int)

  /** A parsed timestamp: its instant (which orders timestamps, as aware
      datetimes are ordered) and its calendar date. */
  datatype Stamp = Stamp(instant: int, date: Date)

  /** The library parsers the loaders rely on: `Decimal(text)` (`None` when
      it raises InvalidOperation) and `parse_timestamp` (`None` when no
      accepted format matches, which raises ValueError). */
  datatype Parsers = Parsers(decimal: string -> Option<real>, timestamp: string -> Option<Stamp>)

  /** A CSV row as `csv.DictReader` yields it. */
  type Row = map<string, string>

  /** `row.get(key, default)`. */
  function Get(row: Row, key: string, default: string): string {
    if key in row then row[key] else default
  }

  /** `row.get(key)`. */
  function GetOpt(row: Row, key: string): Option<string> {
    if key in row then Some(row[key]) else None
  }

  /** `parse_decimal`: blank text is 0, anything else goes to `Decimal`
      after stripping. */
  function ParseDecimal(p: Parsers, value: string): (r: Result<real>)
    ensures AllSpace(value) ==> r == Ok(0.0)
    ensures !AllSpace(value) && p.decimal(Strip(value)).Some? ==> r == Ok(p.decimal(Strip(value)).value)
    ensures !AllSpace(value) && p.decimal(Strip(value)).None? ==> r == Err(InvalidOperation)
  {
    var stripped := Strip(value);
    if stripped == [] then Ok(0.0)
    else
      match p.decimal(stripped)
      case Some(d) => Ok(d)
      case None => Err(InvalidOperation)
  }

  /** The column a fallback list settles on: the first name present in the
      row with a non-empty value. */
  function FirstFilled(row: Row, names: seq<string>): (k: nat)
    ensures k <= |names|
    ensures k < |names| ==> names[k] in row && row[names[k]] != ""
    ensures forall j :: 0 <= j < k ==> names[j] !in row || row[names[j]] == ""
  {
    if names == [] then 0
    else if names[0] in row && row[names[0]] != "" then 0
    else 1 + FirstFilled(row, names[1..])
  }

  /** `parse_optional_decimal(row, *names)`: the first filled column, parsed;
      0 when none is filled. */
  function ParseOptionalDecimal(p: Parsers, row: Row, names: seq<string>): (r: Result<real>)
    ensures FirstFilled(row, names) == |names| ==> r == Ok(0.0)
    ensures FirstFilled(row, names) < |names| ==> r == ParseDecimal(p, row[names[FirstFilled(row, names)]])
    ensures (forall j :: 0 <= j < |names| ==> names[j] !in row) ==> r == Ok(0.0)
  {
    if names == [] then Ok(0.0)
    else if names[0] in row && row[names[0]] != "" then ParseDecimal(p, row[names[0]])
    else ParseOptionalDecimal(p, row, names[1..])
  }

  /** A column that is filled comes before every later fallback. */
  lemma FilledColumnWins(p: Parsers, row: Row, names: seq<string>, i: nat)
    requires i < |names| && names[i] in row && row[names[i]] != ""
    requires forall j :: 0 <= j < i ==> names[j] !in row || row[names[j]] == ""
    ensures ParseOptionalDecimal(p, row, names) == ParseDecimal(p, row[names[i]])
  {
  }

  /** Marketplace fee columns, in the order they are tried. */
  const MarketplaceFeeColumns: seq<string> :=
    ["marketplace_fee_eth", "platform_fee_eth", "opensea_fee_eth", "fee_eth"]

  /** Royalty fee columns, in the order they are tried. */
  const RoyaltyFeeColumns: seq<string> := ["royalty_fee_eth", "creator_fee_eth", "royalty_eth"]

  /** `_normalise_direction`: a missing or empty direction is "unknown";
      anything else is stripped and lower-cased. */
  function NormaliseDirection(direction: Option<string>): (r: string)
    ensures direction.None? || direction == Some("") ==> r == "unknown"
    ensures direction.Some? && direction.value != "" ==> r == Lower(Strip(direction.value))
    ensures direction.Some? && direction.value != "" && AllSpace(direction.value) ==> r == ""
    ensures forall k :: 0 <= k < |r| ==> !('A' <= r[k] <= 'Z')
  {
    if direction.None? || direction.value == "" then "unknown"
    else Lower(Strip(direction.value))
  }

  datatype Trade = Trade(
    timestamp: Stamp,
    direction: string,
    collection: string,
    contract: string,
    tokenId: string,
    priceEth: real,
    protocol: Option<string>,
    txHash: Option<string>,
    marketplaceFeeEth: real,
    royaltyFeeEth: real)

  datatype Sale = Sale(
    timestamp: Stamp,
    collection: string,
    contract: string,
    tokenId: string,
    proceedsEth: real,
    paymentAssets: Option<string>,
    txHash: Option<string>,
    marketplaceFeeEth: real,
    royaltyFeeEth: real)

  /** The row's timestamp: KeyError without the column, ValueError when it
      does not parse. */
  function RowStamp(p: Parsers, row: Row): (r: Result<Stamp>)
    ensures "timestamp" !in row <==> r == Err(KeyError)
    ensures "timestamp" in row && p.timestamp(row["timestamp"]).None? ==> r == Err(ValueError)
    ensures r.Ok? ==> "timestamp" in row && p.timestamp(row["timestamp"]) == Some(r.value)
  {
    if "timestamp" !in row then Err(KeyError)
    else
      match p.timestamp(row["timestamp"])
      case None => Err(ValueError)
      case Some(ts) => Ok(ts)
  }

  /** One iteration of `load_trades`. The checks run in the source's order:
      timestamp, marketplace fee, royalty fee, price. */
  function LoadTradeRow(p: Parsers, row: Row): (r: Result<Trade>)
    ensures "timestamp" !in row ==> r == Err(KeyError)
    ensures RowStamp(p, row).Err? ==> r == Err(RowStamp(p, row).error)
    ensures r.Ok? ==> Ok(r.value.timestamp) == RowStamp(p, row)
    ensures r.Ok? ==> r.value.direction == NormaliseDirection(GetOpt(row, "direction"))
    ensures r.Ok? ==> Ok(r.value.marketplaceFeeEth) == ParseOptionalDecimal(p, row, MarketplaceFeeColumns)
    ensures r.Ok? ==> Ok(r.value.royaltyFeeEth) == ParseOptionalDecimal(p, row, RoyaltyFeeColumns)
    ensures r.Ok? ==> Ok(r.value.priceEth) == ParseDecimal(p, Get(row, "price_eth", "0"))
    ensures r.Ok? ==> r.value.collection == Get(row, "collection", "")
    ensures r.Ok? ==> r.value.contract == Get(row, "contract", "") && r.value.tokenId == Get(row, "token_id", "")
    ensures r.Ok? ==> r.value.protocol == GetOpt(row, "protocol") && r.value.txHash == GetOpt(row, "tx_hash")
    ensures r.Err? && RowStamp(p, row).Ok? ==> r.error == InvalidOperation
    ensures r.Ok? <==> RowStamp(p, row).Ok? && ParseOptionalDecimal(p, row, MarketplaceFeeColumns).Ok?
                       && ParseOptionalDecimal(p, row, RoyaltyFeeColumns).Ok? && ParseDecimal(p, Get(row, "price_eth", "0")).Ok?
  {
    var ts :- RowStamp(p, row);
    var direction := NormaliseDirection(GetOpt(row, "direction"));
    var marketplaceFee :- ParseOptionalDecimal(p, row, MarketplaceFeeColumns);
    var royaltyFee :- ParseOptionalDecimal(p, row, RoyaltyFeeColumns);
    var price :- ParseDecimal(p, Get(row, "price_eth", "0"));
    Ok(Trade(ts, direction, Get(row, "collection", ""), Get(row, "contract", ""), Get(row, "token_id", ""),
             price, GetOpt(row, "protocol"), GetOpt(row, "tx_hash"), marketplaceFee, royaltyFee))
  }

  /** One iteration of `load_sales`: timestamp, marketplace fee, royalty fee,
      proceeds. */
  function LoadSaleRow(p: Parsers, row: Row): (r: Result<Sale>)
    ensures "timestamp" !in row ==> r == Err(KeyError)
    ensures RowStamp(p, row).Err? ==> r == Err(RowStamp(p, row).error)
    ensures r.Ok? ==> Ok(r.value.timestamp) == RowStamp(p, row)
    ensures r.Ok? ==> Ok(r.value.marketplaceFeeEth) == ParseOptionalDecimal(p, row, MarketplaceFeeColumns)
    ensures r.Ok? ==> Ok(r.value.royaltyFeeEth) == ParseOptionalDecimal(p, row, RoyaltyFeeColumns)
    ensures r.Ok? ==> Ok(r.value.proceedsEth) == ParseDecimal(p, Get(row, "proceeds_eth", "0"))
    ensures r.Ok? ==> r.value.collection == Get(row, "collection", "")
    ensures r.Ok? ==> r.value.contract == Get(row, "contract", "") && r.value.tokenId == Get(row, "token_id", "")
    ensures r.Ok? ==> r.value.paymentAssets == GetOpt(row, "payment_assets") && r.value.txHash == GetOpt(row, "tx_hash")
    ensures r.Err? && RowStamp(p, row).Ok? ==> r.error == InvalidOperation
    ensures r.Ok? <==> RowStamp(p, row).Ok? && ParseOptionalDecimal(p, row, MarketplaceFeeColumns).Ok?
                       && ParseOptionalDecimal(p, row, RoyaltyFeeColumns).Ok? && ParseDecimal(p, Get(row, "proceeds_eth", "0")).Ok?
  {
    var ts :- RowStamp(p, row);
    var marketplaceFee :- ParseOptionalDecimal(p, row, MarketplaceFeeColumns);
    var royaltyFee :- ParseOptionalDecimal(p, row, RoyaltyFeeColumns);
    var proceeds :- ParseDecimal(p, Get(row, "proceeds_eth", "0"));
    Ok(Sale(ts, Get(row, "collection", ""), Get(row, "contract", ""), Get(row, "token_id", ""),
            proceeds, GetOpt(row, "payment_assets"), GetOpt(row, "tx_hash"), marketplaceFee, royaltyFee))
  }

  /** The loop shared by `load_trades` and `load_sales`: one record per row,
      in order; the first failing row's error ends the load. */
  function LoadEach<T>(rows: seq<Row>, load: Row -> Result<T>): (r: Result<seq<T>>)
    ensures r.Ok? <==> forall i :: 0 <= i < |rows| ==> load(rows[i]).Ok?
    ensures r.Ok? ==> |r.value| == |rows|
    ensures r.Ok? ==> forall i :: 0 <= i < |rows| ==> r.value[i] == load(rows[i]).value
  {
    if rows == [] then Ok([])
    else
      var first := load(rows[0]);
      var rest := LoadEach(rows[1..], load);
      assert forall j :: 1 <= j < |rows| ==> rows[1..][j - 1] == rows[j];
      if first.Err? then Err(first.error)
      else if rest.Err? then Err(rest.error)
      else Ok([first.value] + rest.value)
  }

  /** A failed load reports the error of its first failing row. */
  lemma {:induction false} LoadEachFirstError<T>(rows: seq<Row>, load: Row -> Result<T>)
    requires LoadEach(rows, load).Err?
    ensures exists i :: (0 <= i < |rows| && load(rows[i]) == Err(LoadEach(rows, load).error) &&
                         forall j :: 0 <= j < i ==> load(rows[j]).Ok?)
  {
    if load(rows[0]).Err? {
      assert load(rows[0]) == Err(LoadEach(rows, load).error);
    } else {
      LoadEachFirstError(rows[1..], load);
      var i :| 0 <= i < |rows[1..]| && load(rows[1..][i]) == Err(LoadEach(rows[1..], load).error) &&
        forall j :: 0 <= j < i ==> load(rows[1..][j]).Ok?;
      assert rows[1..][i] == rows[i + 1];
      assert forall j :: 1 <= j < i + 1 ==> rows[1..][j - 1] == rows[j];
    }
  }

  /** `load_trades` over the rows of a trades file. */
  function LoadTrades(p: Parsers, rows: seq<Row>): (r: Result<seq<Trade>>)
    ensures r.Ok? <==> forall i :: 0 <= i < |rows| ==> LoadTradeRow(p, rows[i]).Ok?
    ensures r.Ok? ==> |r.value| == |rows|
    ensures r.Ok? ==> forall i :: 0 <= i < |rows| ==> r.value[i] == LoadTradeRow(p, rows[i]).value
    ensures r.Err? ==> exists i :: (0 <= i < |rows| && LoadTradeRow(p, rows[i]) == Err(r.error) &&
                                    forall j :: 0 <= j < i ==> LoadTradeRow(p, rows[j]).Ok?)
  {
    var r := LoadEach(rows, row => LoadTradeRow(p, row));
    if r.Err? then LoadEachFirstError(rows, row => LoadTradeRow(p, row)); r else r
  }

  /** `load_sales` over the rows of a sales file. */
  function LoadSales(p: Parsers, rows: seq<Row>): (r: Result<seq<Sale>>)
    ensures r.Ok? <==> forall i :: 0 <= i < |rows| ==> LoadSaleRow(p, rows[i]).Ok?
    ensures r.Ok? ==> |r.value| == |rows|
    ensures r.Ok? ==> forall i :: 0 <= i < |rows| ==> r.value[i] == LoadSaleRow(p, rows[i]).value
    ensures r.Err? ==> exists i :: (0 <= i < |rows| && LoadSaleRow(p, rows[i]) == Err(r.error) &&
                                    forall j :: 0 <= j < i ==> LoadSaleRow(p, rows[j]).Ok?)
  {
    var r := LoadEach(rows, row => LoadSaleRow(p, row));
    if r.Err? then LoadEachFirstError(rows, row => LoadSaleRow(p, row)); r else r
  }

  /** Parameter names tried for the wallet when no key is given. */
  const DefaultParamFallbacks: seq<string> := ["address", "wallet_address", "address_t0145f", "wallet"]

  /** `determine_parameter_payload`: the explicit key alone when one is given,
      otherwise every fallback key, each mapped to the wallet. */
  function DetermineParameterPayload(wallet: string, explicitKey: Option<string>): (m: map<string, string>)
    ensures explicitKey.Some? && explicitKey.value != "" ==> m == map[explicitKey.value := wallet]
    ensures explicitKey.None? || explicitKey.value == "" ==>
      m.Keys == set k | k in DefaultParamFallbacks
    ensures forall k :: k in m ==> m[k] == wallet
  {
    if explicitKey.Some? && explicitKey.value != "" then map[explicitKey.value := wallet]
    else map k | k in DefaultParamFallbacks :: wallet
  }
}
