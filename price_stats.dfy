/** The summary record of one (query, storefront) scrape and the database row it becomes. */
module PriceStatsRows {
  import opened Results

  /** `PriceStats(id, ecommerce_name, lowest, highest, median, mean)`: the constructor stores
      `id` as `query_id` and the other five arguments unchanged. */
  datatype PriceStats = PriceStats(
    queryId: int,
    ecommerceName: string,
    lowest: real,
    highest: real,
    median: real,
    mean: real)

  /** A value stored in a row of the `prices` table. */
  datatype Value = Int(i: int) | Text(s: string) | Decimal(r: real)

  /** A row handed to the batch insert: column name to value. */
  type Row = map<string, Value>

  const PricesColumns: set<string> :=
    {"query_id", "ecommerce_name", "query_dt", "median_price", "lowest_price", "highest_price", "mean_price"}

  /** `price_stats_to_prices_row_entry`. `queryDt` is the ISO-8601 text of the UTC instant
      read from the clock when the row is built. */
  function ToRowEntry(stat: PriceStats, queryDt: string): (row: Row)
    ensures row.Keys == PricesColumns
    ensures row["query_dt"] == Text(queryDt)
  {
    map[
      "query_id" := Int(stat.queryId),
      "ecommerce_name" := Text(stat.ecommerceName),
      "query_dt" := Text(queryDt),
      "median_price" := Decimal(stat.median),
      "lowest_price" := Decimal(stat.lowest),
      "highest_price" := Decimal(stat.highest),
      "mean_price" := Decimal(stat.mean)
    ]
  }

  /** Reads a record back from a `prices` row, each figure from the column named after it. */
  function FromRowEntry(row: Row): Option<PriceStats>
  {
    if row.Keys == PricesColumns
       && row["query_id"].Int? && row["ecommerce_name"].Text?
       && row["median_price"].Decimal? && row["lowest_price"].Decimal?
       && row["highest_price"].Decimal? && row["mean_price"].Decimal?
    then Some(PriceStats(
      row["query_id"].i,
      row["ecommerce_name"].s,
      row["lowest_price"].r,
      row["highest_price"].r,
      row["median_price"].r,
      row["mean_price"].r))
    else None
  }

  /** Every figure lands in the column of the same name: reading the row back gives the record. */
  lemma RowEntryRoundTrip(stat: PriceStats, queryDt: string)
    ensures FromRowEntry(ToRowEntry(stat, queryDt)) == Some(stat)
  {
  }
}
