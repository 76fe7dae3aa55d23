/** The older run (`main.py`, lines 35-45): both results of every context are appended, `None`
    included, and every result is converted to a row. No handler catches an exception, so
    one ends the run before the write. */
module RunnerDraft {
  import opened Results
  import opened PriceStatsRows
  import QueryContexts
  import Scraper
  import Runner

  /** Lines 40-42: for each context the Lazada result then the Amazon result, `None`s kept;
      the first exception ends the loop. */
  function AllResults(lazada: Runner.Scrape, amazon: Runner.Scrape, contexts: seq<QueryContexts.QueryContext>)
    : (r: Result<seq<Option<PriceStats>>>)
    ensures r.Ok? ==> |r.value| == 2 * |contexts|
  {
    if contexts == [] then Ok([])
    else
      var last := contexts[|contexts| - 1];
      var init :- AllResults(lazada, amazon, contexts[..|contexts| - 1]);
      var lazadaStats :- lazada(last);
      var amazonStats :- amazon(last);
      Ok(init + [lazadaStats, amazonStats])
  }

  /** Line 44: `price_stats_to_prices_row_entry` applied to every result in order; the first
      `None` raises when its `query_id` is read (price_stats.py:24). */
  function ToRows(results: seq<Option<PriceStats>>, clock: nat -> string): (r: Result<seq<Row>>)
    ensures r.Ok? ==> |r.value| == |results|
    ensures r.Raised? ==> r.error == NoneAttribute("query_id")
  {
    if results == [] then Ok([])
    else
      var n := |results| - 1;
      var init :- ToRows(results[..n], clock);
      match results[n]
      case None => Raised(NoneAttribute("query_id"))
      case Some(stats) => Ok(init + [ToRowEntry(stats, clock(n))])
  }

  /** The records among `results`, in order. */
  function Somes(results: seq<Option<PriceStats>>): (stats: seq<PriceStats>)
    ensures |stats| <= |results|
  {
    if results == [] then []
    else Somes(results[..|results| - 1]) + Runner.Kept(results[|results| - 1])
  }

  /** How the older run ends on the fetched query rows. */
  function Outcome(queryRows: seq<QueryContexts.QueryRow>, browser: string -> Scraper.Page, clock: nat -> string)
    : (r: Runner.RunOutcome)
    ensures |queryRows| == 0 ==> r == Runner.Failed(NoneNotIterable)
    ensures r.BatchWritten? ==> QueryContexts.ContextsOf(queryRows).Ok? && |r.rows| == 2 * |queryRows|
  {
    if |queryRows| == 0 then Runner.Failed(NoneNotIterable)
    else match QueryContexts.ContextsOf(queryRows)
      case Raised(e) => Runner.Failed(e)
      case Ok(contexts) =>
        match AllResults(Runner.LazadaOn(browser), Runner.AmazonOn(browser), contexts)
        case Raised(e) => Runner.Failed(e)
        case Ok(results) =>
          match ToRows(results, clock)
          case Raised(e) => Runner.Failed(e)
          case Ok(rows) => Runner.BatchWritten(rows)
  }

  /** Once the loop has raised on a prefix of the contexts, the whole loop raises the same. */
  lemma {:induction false} AllResultsFailurePersists(lazada: Runner.Scrape, amazon: Runner.Scrape, contexts: seq<QueryContexts.QueryContext>, n: nat)
    requires n <= |contexts|
    requires AllResults(lazada, amazon, contexts[..n]).Raised?
    ensures AllResults(lazada, amazon, contexts) == AllResults(lazada, amazon, contexts[..n])
    decreases |contexts| - n
  {
    if n < |contexts| {
      assert contexts[..n + 1][..n] == contexts[..n];
      AllResultsFailurePersists(lazada, amazon, contexts, n + 1);
    } else {
      assert contexts[..n] == contexts;
    }
  }

  /** A scrape that raises at context `i` ends the whole loop with that exception. */
  lemma AllResultsStop(lazada: Runner.Scrape, amazon: Runner.Scrape, contexts: seq<QueryContexts.QueryContext>, i: nat, e: Error)
    requires i < |contexts| && AllResults(lazada, amazon, contexts[..i]).Ok?
    requires lazada(contexts[i]) == Raised(e) ||
             (lazada(contexts[i]).Ok? && amazon(contexts[i]) == Raised(e))
    ensures AllResults(lazada, amazon, contexts) == Raised(e)
  {
    var prefix := contexts[..i + 1];
    assert prefix[..|prefix| - 1] == contexts[..i] && prefix[|prefix| - 1] == contexts[i];
    LastRaises(lazada, amazon, prefix, e);
    AllResultsFailurePersists(lazada, amazon, contexts, i + 1);
  }

  lemma LastRaises(lazada: Runner.Scrape, amazon: Runner.Scrape, contexts: seq<QueryContexts.QueryContext>, e: Error)
    requires |contexts| > 0 && AllResults(lazada, amazon, contexts[..|contexts| - 1]).Ok?
    requires var last := contexts[|contexts| - 1];
             lazada(last) == Raised(e) || (lazada(last).Ok? && amazon(last) == Raised(e))
    ensures AllResults(lazada, amazon, contexts) == Raised(e)
  {
  }

  /** One more context whose scrapes both succeed: its two results are appended. */
  lemma AllResultsExtends(lazada: Runner.Scrape, amazon: Runner.Scrape, contexts: seq<QueryContexts.QueryContext>,
                          i: nat, before: seq<Option<PriceStats>>)
    requires i < |contexts| && AllResults(lazada, amazon, contexts[..i]) == Ok(before)
    requires lazada(contexts[i]).Ok? && amazon(contexts[i]).Ok?
    ensures AllResults(lazada, amazon, contexts[..i + 1]) ==
            Ok(before + [lazada(contexts[i]).value, amazon(contexts[i]).value])
  {
    assert contexts[..i + 1][..i] == contexts[..i];
  }

  /** Lines 38-42: the scraping loop, appending both results of every context. */
  method CollectAll(browser: string -> Scraper.Page, contexts: seq<QueryContexts.QueryContext>)
    returns (r: Result<seq<Option<PriceStats>>>)
    ensures r == AllResults(Runner.LazadaOn(browser), Runner.AmazonOn(browser), contexts)
  {
    ghost var lazada, amazon := Runner.LazadaOn(browser), Runner.AmazonOn(browser);
    var statsList: seq<Option<PriceStats>> := [];
    var i := 0;
    while i < |contexts|
      invariant 0 <= i <= |contexts|
      invariant AllResults(lazada, amazon, contexts[..i]) == Ok(statsList)
    {
      var lazStats := Scraper.ScrapeLazada(browser, contexts[i]);
      assert lazStats == lazada(contexts[i]);
      if lazStats.Raised? {
        AllResultsStop(lazada, amazon, contexts, i, lazStats.error);
        return Raised(lazStats.error);
      }
      var amaStats := Scraper.ScrapeAmazon(browser, contexts[i]);
      assert amaStats == amazon(contexts[i]);
      if amaStats.Raised? {
        AllResultsStop(lazada, amazon, contexts, i, amaStats.error);
        return Raised(amaStats.error);
      }
      AllResultsExtends(lazada, amazon, contexts, i, statsList);
      statsList := statsList + [lazStats.value, amaStats.value];
      i := i + 1;
    }
    assert contexts[..i] == contexts;
    return Ok(statsList);
  }

  /** `__main__` of `main.py` from the loading of the contexts to the batch write
      (lines 35-45). */
  method Run(queryRows: seq<QueryContexts.QueryRow>, browser: string -> Scraper.Page, clock: nat -> string)
    returns (outcome: Runner.RunOutcome)
    ensures outcome == Outcome(queryRows, browser, clock)
  {
    var contextList := QueryContexts.GetQueryContextList(queryRows);
    if contextList.Raised? {
      return Runner.Failed(contextList.error);
    }
    if contextList.value.None? {
      return Runner.Failed(NoneNotIterable);
    }
    var statsList := CollectAll(browser, contextList.value.value);
    if statsList.Raised? {
      return Runner.Failed(statsList.error);
    }
    var rows := ToRows(statsList.value, clock);
    if rows.Raised? {
      return Runner.Failed(rows.error);
    }
    return Runner.BatchWritten(rows.value);
  }

  // ----- properties of the older run -----

  /** Exactly two results per context, context by context, Lazada before Amazon. */
  lemma {:induction false} AllResultsShape(lazada: Runner.Scrape, amazon: Runner.Scrape, contexts: seq<QueryContexts.QueryContext>)
    requires AllResults(lazada, amazon, contexts).Ok?
    ensures var results := AllResults(lazada, amazon, contexts).value;
            && |results| == 2 * |contexts|
            && forall i :: 0 <= i < |contexts| ==>
                 lazada(contexts[i]) == Ok(results[2 * i]) && amazon(contexts[i]) == Ok(results[2 * i + 1])
  {
    if contexts != [] {
      var n := |contexts| - 1;
      var init, last := contexts[..n], contexts[n];
      AllResultsShape(lazada, amazon, init);
      var before := AllResults(lazada, amazon, init).value;
      var results := before + [lazada(last).value, amazon(last).value];
      assert AllResults(lazada, amazon, contexts) == Ok(results);
      forall i | 0 <= i < |contexts|
        ensures lazada(contexts[i]) == Ok(results[2 * i]) && amazon(contexts[i]) == Ok(results[2 * i + 1])
      {
        if i < n {
          assert init[i] == contexts[i];
          assert results[2 * i] == before[2 * i] && results[2 * i + 1] == before[2 * i + 1];
        } else {
          assert 2 * i == |before|;
        }
      }
    }
  }

  /** The conversion raises exactly when some result is `None`, and then on `query_id`;
      otherwise it gives one row per result, in order, each reading back as its record. */
  lemma ToRowsSpec(results: seq<Option<PriceStats>>, clock: nat -> string)
    ensures ToRows(results, clock).Raised? <==> exists k :: 0 <= k < |results| && results[k].None?
    ensures ToRows(results, clock).Raised? ==> ToRows(results, clock).error == NoneAttribute("query_id")
    ensures ToRows(results, clock).Ok? ==>
              && |ToRows(results, clock).value| == |results|
              && forall k :: 0 <= k < |results| ==> FromRowEntry(ToRows(results, clock).value[k]) == results[k]
  {
    ToRowsRaises(results, clock);
    if ToRows(results, clock).Ok? {
      ToRowsDecode(results, clock);
    }
  }

  lemma {:induction false} ToRowsRaises(results: seq<Option<PriceStats>>, clock: nat -> string)
    ensures ToRows(results, clock).Raised? <==> exists k :: 0 <= k < |results| && results[k].None?
    ensures ToRows(results, clock).Raised? ==> ToRows(results, clock).error == NoneAttribute("query_id")
  {
    if results != [] {
      var n := |results| - 1;
      var init := results[..n];
      ToRowsRaises(init, clock);
      if ToRows(init, clock).Raised? {
        var k :| 0 <= k < n && init[k].None?;
        assert results[k] == init[k];
      } else if results[n].Some? {
        forall k | 0 <= k < |results| ensures results[k].Some? {
          if k < n {
            assert results[k] == init[k];
          }
        }
      }
    }
  }

  lemma {:induction false} ToRowsDecode(results: seq<Option<PriceStats>>, clock: nat -> string)
    requires ToRows(results, clock).Ok?
    ensures |ToRows(results, clock).value| == |results|
    ensures forall k :: 0 <= k < |results| ==> FromRowEntry(ToRows(results, clock).value[k]) == results[k]
  {
    if results != [] {
      var n := |results| - 1;
      var init := results[..n];
      var before := ToRows(init, clock).value;
      ToRowsDecode(init, clock);
      var last := results[n].value;
      var rows := before + [ToRowEntry(last, clock(n))];
      assert ToRows(results, clock).value == rows;
      RowEntryRoundTrip(last, clock(n));
      forall k | 0 <= k < |results|
        ensures FromRowEntry(rows[k]) == results[k]
      {
        if k < n {
          assert rows[k] == before[k];
          assert init[k] == results[k];
        }
      }
    }
  }

  /** With no `None` among the results, the records are the results themselves. */
  lemma {:induction false} SomesOfRecords(results: seq<Option<PriceStats>>)
    requires forall k :: 0 <= k < |results| ==> results[k].Some?
    ensures |Somes(results)| == |results|
    ensures forall k :: 0 <= k < |results| ==> Somes(results)[k] == results[k].value
  {
    if results != [] {
      var n := |results| - 1;
      var init := results[..n];
      assert forall k :: 0 <= k < n ==> init[k] == results[k];
      SomesOfRecords(init);
      var before := Somes(init);
      var stats := before + [results[n].value];
      assert Somes(results) == stats;
      forall k | 0 <= k < |results| ensures stats[k] == results[k].value {
        if k < n {
          assert stats[k] == before[k];
        }
      }
    }
  }

  /** With no `None` among the results, the rows are those the current run builds from the
      same records. */
  lemma ToRowsOfRecords(results: seq<Option<PriceStats>>, clock: nat -> string)
    requires forall k :: 0 <= k < |results| ==> results[k].Some?
    ensures ToRows(results, clock) == Ok(Runner.Rows(Somes(results), clock))
  {
    ToRowsRaises(results, clock);
    SomesOfRecords(results);
    ToRowsEntries(results, clock);
    var rows := ToRows(results, clock).value;
    var stats := Somes(results);
    var expected := Runner.Rows(stats, clock);
    assert |rows| == |expected|;
    forall k | 0 <= k < |rows|
      ensures rows[k] == expected[k]
    {
      assert stats[k] == results[k].value;
    }
    Runner.PointwiseEqual(rows, expected);
  }

  /** Each row is the conversion of its result, stamped with its position. */
  lemma {:induction false} ToRowsEntries(results: seq<Option<PriceStats>>, clock: nat -> string)
    requires ToRows(results, clock).Ok?
    ensures |ToRows(results, clock).value| == |results|
    ensures forall k :: 0 <= k < |results| ==>
              results[k].Some? && ToRows(results, clock).value[k] == ToRowEntry(results[k].value, clock(k))
  {
    if results != [] {
      var n := |results| - 1;
      var init := results[..n];
      var before := ToRows(init, clock).value;
      ToRowsEntries(init, clock);
      var rows := before + [ToRowEntry(results[n].value, clock(n))];
      assert ToRows(results, clock).value == rows;
      forall k | 0 <= k < |results|
        ensures results[k].Some? && rows[k] == ToRowEntry(results[k].value, clock(k))
      {
        if k < n {
          assert rows[k] == before[k];
          assert init[k] == results[k];
        }
      }
    }
  }

  /** The current loop keeps exactly the records among the older loop's results. */
  lemma {:induction false} CollectedIsSomes(lazada: Runner.Scrape, amazon: Runner.Scrape, contexts: seq<QueryContexts.QueryContext>)
    ensures Runner.Collected(lazada, amazon, contexts) ==
            match AllResults(lazada, amazon, contexts)
            case Ok(results) => Ok(Somes(results))
            case Raised(e) => Raised(e)
  {
    if contexts != [] {
      var n := |contexts| - 1;
      var init, last := contexts[..n], contexts[n];
      CollectedIsSomes(lazada, amazon, init);
      if AllResults(lazada, amazon, init).Ok? && lazada(last).Ok? && amazon(last).Ok? {
        var before := AllResults(lazada, amazon, init).value;
        var results := before + [lazada(last).value, amazon(last).value];
        assert results[..|results| - 1] == before + [lazada(last).value];
        assert (before + [lazada(last).value])[..|before|] == before;
        assert Somes(results) == Somes(before) + Runner.Kept(lazada(last).value) + Runner.Kept(amazon(last).value);
      }
    }
  }

  /** Findings: a single `None` among the results makes the older run raise on `query_id`
      before anything is written. */
  lemma NoneAbortsRun(queryRows: seq<QueryContexts.QueryRow>, browser: string -> Scraper.Page, clock: nat -> string)
    requires |queryRows| > 0 && QueryContexts.ContextsOf(queryRows).Ok?
    requires var contexts := QueryContexts.ContextsOf(queryRows).value;
             AllResults(Runner.LazadaOn(browser), Runner.AmazonOn(browser), contexts).Ok? &&
             None in AllResults(Runner.LazadaOn(browser), Runner.AmazonOn(browser), contexts).value
    ensures Outcome(queryRows, browser, clock) == Runner.Failed(NoneAttribute("query_id"))
  {
    var contexts := QueryContexts.ContextsOf(queryRows).value;
    var results := AllResults(Runner.LazadaOn(browser), Runner.AmazonOn(browser), contexts).value;
    ToRowsNone(results, clock);
  }

  lemma ToRowsNone(results: seq<Option<PriceStats>>, clock: nat -> string)
    requires None in results
    ensures ToRows(results, clock) == Raised(NoneAttribute("query_id"))
  {
    ToRowsRaises(results, clock);
    var k :| 0 <= k < |results| && results[k] == None;
  }

  /** Findings, the smallest case: when no search finds a listing, the older run raises on
      `query_id` and writes nothing, where the current run writes its (empty) batch. */
  lemma EmptyPagesAbort(queryRows: seq<QueryContexts.QueryRow>, clock: nat -> string)
    requires |queryRows| > 0 && QueryContexts.ContextsOf(queryRows).Ok?
    ensures Outcome(queryRows, Runner.NoListings, clock) == Runner.Failed(NoneAttribute("query_id"))
    ensures Runner.Outcome(queryRows, Runner.NoListings, clock) == Runner.BatchWritten([])
  {
    var contexts := QueryContexts.ContextsOf(queryRows).value;
    var lazada, amazon := Runner.LazadaOn(Runner.NoListings), Runner.AmazonOn(Runner.NoListings);
    Runner.EmptyPagesWriteEmptyBatch(queryRows, clock);
    assert |contexts| == |queryRows| > 0;
    var first := contexts[0];
    var lazadaUrl := Scraper.SearchUrl(Scraper.BaseUrlLazada, Scraper.DelimiterLazada, first.queryTerms);
    assert Runner.NoListings(lazadaUrl).elements == [];
    assert lazada(first) == Ok(None);
    AllResultsOk(lazada, amazon, contexts);
    AllResultsShape(lazada, amazon, contexts);
    NoneAbortsRun(queryRows, Runner.NoListings, clock);
  }

  /** Scrapers that never raise give a result for every context. */
  lemma {:induction false} AllResultsOk(lazada: Runner.Scrape, amazon: Runner.Scrape, contexts: seq<QueryContexts.QueryContext>)
    requires forall context :: lazada(context).Ok? && amazon(context).Ok?
    ensures AllResults(lazada, amazon, contexts).Ok?
  {
    if contexts != [] {
      AllResultsOk(lazada, amazon, contexts[..|contexts| - 1]);
    }
  }

  /** Whenever the older run writes, it writes the very batch the current run writes. */
  lemma WritesAgreeWithCurrent(queryRows: seq<QueryContexts.QueryRow>, browser: string -> Scraper.Page, clock: nat -> string)
    ensures Outcome(queryRows, browser, clock).BatchWritten? ==>
              Outcome(queryRows, browser, clock) == Runner.Outcome(queryRows, browser, clock)
  {
    if |queryRows| > 0 && QueryContexts.ContextsOf(queryRows).Ok? {
      var contexts := QueryContexts.ContextsOf(queryRows).value;
      var lazada, amazon := Runner.LazadaOn(browser), Runner.AmazonOn(browser);
      CollectedIsSomes(lazada, amazon, contexts);
      if AllResults(lazada, amazon, contexts).Ok? {
        var results := AllResults(lazada, amazon, contexts).value;
        ToRowsSpec(results, clock);
        if ToRows(results, clock).Ok? {
          ToRowsOfRecords(results, clock);
        }
      }
    }
  }
}
