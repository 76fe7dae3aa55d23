/** One run of the current scraper (`run` in `src/main.py`): load the contexts, scrape Lazada
    then Amazon for each, keep the records that are not `None`, turn them into rows and hand
    them to the database in one batch. Any exception ends the run and is caught, so nothing is
    written. */
module Runner {
  import opened Results
  import opened PriceStatsRows
  import QueryContexts
  import Scraper

  /** How a run ends: one batch of rows given to the database, or an exception with no write. */
  datatype RunOutcome = BatchWritten(rows: seq<Row>) | Failed(error: Error)

  /** One storefront scraper, from a context to its result. */
  type Scrape = QueryContexts.QueryContext -> Result<Option<PriceStats>>

  /** What `scrape_lazada` returns for a context on a browser. */
  function LazadaResult(browser: string -> Scraper.Page, context: QueryContexts.QueryContext): Result<Option<PriceStats>>
  {
    Scraper.LazadaOutcome(context, browser(Scraper.SearchUrl(Scraper.BaseUrlLazada, Scraper.DelimiterLazada, context.queryTerms)).elements)
  }

  /** What `scrape_amazon` returns for a context on a browser. */
  function AmazonResult(browser: string -> Scraper.Page, context: QueryContexts.QueryContext): Result<Option<PriceStats>>
  {
    Scraper.AmazonOutcome(context, browser(Scraper.SearchUrl(Scraper.BaseUrlAmazon, Scraper.DelimiterAmazon, context.queryTerms)).elements)
  }

  function LazadaOn(browser: string -> Scraper.Page): Scrape
  {
    context => LazadaResult(browser, context)
  }

  function AmazonOn(browser: string -> Scraper.Page): Scrape
  {
    context => AmazonResult(browser, context)
  }

  /** Every record `scrape` returns carries the id of its context and the storefront `name`. */
  ghost predicate Tags(scrape: Scrape, name: string)
  {
    forall context :: scrape(context).Ok? && scrape(context).value.Some? ==>
      scrape(context).value.value.queryId == context.id && scrape(context).value.value.ecommerceName == name
  }

  /** The two scrapers tag their records with the context's id and their storefront. */
  lemma ScrapersTag(browser: string -> Scraper.Page)
    ensures Tags(LazadaOn(browser), "lazada")
    ensures Tags(AmazonOn(browser), "amazon")
  {
    forall context | LazadaResult(browser, context).Ok? && LazadaResult(browser, context).value.Some?
      ensures LazadaResult(browser, context).value.value.queryId == context.id
      ensures LazadaResult(browser, context).value.value.ecommerceName == "lazada"
    {
      Scraper.LazadaRecord(context, browser(Scraper.SearchUrl(Scraper.BaseUrlLazada, Scraper.DelimiterLazada, context.queryTerms)).elements);
    }
    forall context | AmazonResult(browser, context).Ok? && AmazonResult(browser, context).value.Some?
      ensures AmazonResult(browser, context).value.value.queryId == context.id
      ensures AmazonResult(browser, context).value.value.ecommerceName == "amazon"
    {
      Scraper.AmazonRecord(context, browser(Scraper.SearchUrl(Scraper.BaseUrlAmazon, Scraper.DelimiterAmazon, context.queryTerms)).elements);
    }
  }

  /** A result as the list of what `if stats != None: stats_list.append(stats)` keeps. */
  function Kept(result: Option<PriceStats>): (kept: seq<PriceStats>)
    ensures |kept| <= 1
    ensures result.None? ==> kept == []
    ensures result.Some? ==> kept == [result.value]
  {
    match result
    case None => []
    case Some(stats) => [stats]
  }

  /** Lines 53-59: context by context, the Lazada record then the Amazon record, each only
      when it is not `None`; the first exception ends the loop. */
  function Collected(lazada: Scrape, amazon: Scrape, contexts: seq<QueryContexts.QueryContext>): (r: Result<seq<PriceStats>>)
    ensures r.Ok? ==> |r.value| <= 2 * |contexts|
  {
    if contexts == [] then Ok([])
    else
      var last := contexts[|contexts| - 1];
      var init :- Collected(lazada, amazon, contexts[..|contexts| - 1]);
      var lazadaStats :- lazada(last);
      var amazonStats :- amazon(last);
      Ok(init + Kept(lazadaStats) + Kept(amazonStats))
  }

  /** Line 61: one row per record, in order; `clock(k)` is the instant at which the `k`-th
      row is built. Reading each row back gives its record, and each row has exactly the
      seven columns of `prices`. */
  function Rows(stats: seq<PriceStats>, clock: nat -> string): (rows: seq<Row>)
    ensures |rows| == |stats|
    ensures forall k :: 0 <= k < |stats| ==> rows[k] == ToRowEntry(stats[k], clock(k))
    ensures forall k :: 0 <= k < |rows| ==>
              && FromRowEntry(rows[k]) == Some(stats[k])
              && rows[k].Keys == PricesColumns
              && rows[k]["query_dt"] == PriceStatsRows.Text(clock(k))
  {
    assert forall k :: 0 <= k < |stats| ==>
             && FromRowEntry(ToRowEntry(stats[k], clock(k))) == Some(stats[k])
             && ToRowEntry(stats[k], clock(k)).Keys == PricesColumns
             && ToRowEntry(stats[k], clock(k))["query_dt"] == PriceStatsRows.Text(clock(k)) by {
      forall k | 0 <= k < |stats| {
        RowEntryRoundTrip(stats[k], clock(k));
      }
    }
    seq(|stats|, k requires 0 <= k < |stats| => ToRowEntry(stats[k], clock(k)))
  }


  lemma PointwiseEqual<T>(a: seq<T>, b: seq<T>)
    requires |a| == |b|
    requires forall k :: 0 <= k < |a| ==> a[k] == b[k]
    ensures a == b
  {
  }

  /** The outcome of a run on the fetched query rows: no rows give no context list, and
      iterating over `None` raises; otherwise the collected records become one batch. */
  function Outcome(queryRows: seq<QueryContexts.QueryRow>, browser: string -> Scraper.Page, clock: nat -> string): (r: RunOutcome)
    ensures |queryRows| == 0 ==> r == Failed(NoneNotIterable)
    ensures r.BatchWritten? ==> QueryContexts.ContextsOf(queryRows).Ok? && |r.rows| <= 2 * |queryRows|
  {
    if |queryRows| == 0 then Failed(NoneNotIterable)
    else match QueryContexts.ContextsOf(queryRows)
      case Raised(e) => Failed(e)
      case Ok(contexts) =>
        match Collected(LazadaOn(browser), AmazonOn(browser), contexts)
        case Raised(e) => Failed(e)
        case Ok(stats) => BatchWritten(Rows(stats, clock))
  }

  /** Once the loop has raised on a prefix of the contexts, the whole loop raises the same. */
  lemma {:induction false} CollectedFailurePersists(lazada: Scrape, amazon: Scrape, contexts: seq<QueryContexts.QueryContext>, n: nat)
    requires n <= |contexts|
    requires Collected(lazada, amazon, contexts[..n]).Raised?
    ensures Collected(lazada, amazon, contexts) == Collected(lazada, amazon, contexts[..n])
    decreases |contexts| - n
  {
    if n < |contexts| {
      assert contexts[..n + 1][..n] == contexts[..n];
      CollectedFailurePersists(lazada, amazon, contexts, n + 1);
    } else {
      assert contexts[..n] == contexts;
    }
  }

  /** The loop after one more context: the records so far, then that context's kept records. */
  lemma CollectedExtends(lazada: Scrape, amazon: Scrape, contexts: seq<QueryContexts.QueryContext>, i: nat)
    requires i < |contexts| && Collected(lazada, amazon, contexts[..i]).Ok?
    requires lazada(contexts[i]).Ok? && amazon(contexts[i]).Ok?
    ensures Collected(lazada, amazon, contexts[..i + 1]) ==
            Ok(Collected(lazada, amazon, contexts[..i]).value + Kept(lazada(contexts[i]).value)
               + Kept(amazon(contexts[i]).value))
  {
    assert contexts[..i + 1][..i] == contexts[..i];
  }

  /** A scrape that raises at context `i` ends the whole loop with that exception. */
  lemma CollectedStops(lazada: Scrape, amazon: Scrape, contexts: seq<QueryContexts.QueryContext>, i: nat, e: Error)
    requires i < |contexts| && Collected(lazada, amazon, contexts[..i]).Ok?
    requires lazada(contexts[i]) == Raised(e) ||
             (lazada(contexts[i]).Ok? && amazon(contexts[i]) == Raised(e))
    ensures Collected(lazada, amazon, contexts) == Raised(e)
  {
    var prefix := contexts[..i + 1];
    assert prefix[..|prefix| - 1] == contexts[..i] && prefix[|prefix| - 1] == contexts[i];
    LastRaises(lazada, amazon, prefix, e);
    CollectedFailurePersists(lazada, amazon, contexts, i + 1);
  }

  lemma LastRaises(lazada: Scrape, amazon: Scrape, contexts: seq<QueryContexts.QueryContext>, e: Error)
    requires |contexts| > 0 && Collected(lazada, amazon, contexts[..|contexts| - 1]).Ok?
    requires var last := contexts[|contexts| - 1];
             lazada(last) == Raised(e) || (lazada(last).Ok? && amazon(last) == Raised(e))
    ensures Collected(lazada, amazon, contexts) == Raised(e)
  {
  }

  /** Lines 51-59: the scraping loop, keeping the records that are not `None`. */
  method CollectStats(browser: string -> Scraper.Page, contexts: seq<QueryContexts.QueryContext>)
    returns (r: Result<seq<PriceStats>>)
    ensures r == Collected(LazadaOn(browser), AmazonOn(browser), contexts)
  {
    ghost var lazada, amazon := LazadaOn(browser), AmazonOn(browser);
    var statsList: seq<PriceStats> := [];
    var i := 0;
    while i < |contexts|
      invariant 0 <= i <= |contexts|
      invariant Collected(lazada, amazon, contexts[..i]) == Ok(statsList)
    {
      var lazStats := Scraper.ScrapeLazada(browser, contexts[i]);
      assert lazStats == lazada(contexts[i]);
      if lazStats.Raised? {
        CollectedStops(lazada, amazon, contexts, i, lazStats.error);
        return Raised(lazStats.error);
      }
      var amaStats := Scraper.ScrapeAmazon(browser, contexts[i]);
      assert amaStats == amazon(contexts[i]);
      if amaStats.Raised? {
        CollectedStops(lazada, amazon, contexts, i, amaStats.error);
        return Raised(amaStats.error);
      }
      statsList := statsList + Kept(lazStats.value) + Kept(amaStats.value);
      CollectedExtends(lazada, amazon, contexts, i);
      i := i + 1;
    }
    assert contexts[..i] == contexts;
    return Ok(statsList);
  }

  /** `run` from the loading of the contexts to the batch write (lines 46-63); the bare
      `except` of lines 66-67 turns any exception into a failed run. */
  method Run(queryRows: seq<QueryContexts.QueryRow>, browser: string -> Scraper.Page, clock: nat -> string)
    returns (outcome: RunOutcome)
    ensures outcome == Outcome(queryRows, browser, clock)
  {
    var contextList := QueryContexts.GetQueryContextList(queryRows);
    if contextList.Raised? {
      return Failed(contextList.error);
    }
    if contextList.value.None? {
      return Failed(NoneNotIterable);
    }
    var statsList := CollectStats(browser, contextList.value.value);
    if statsList.Raised? {
      return Failed(statsList.error);
    }
    return BatchWritten(Rows(statsList.value, clock));
  }

  // ----- properties of a run -----

  /** At most two records per context, none of them `None` by construction; with scrapers
      that tag their records, each carries the id of one of the contexts and one of the two
      storefront names. */
  lemma {:induction false} CollectedBound(lazada: Scrape, amazon: Scrape, contexts: seq<QueryContexts.QueryContext>)
    requires Collected(lazada, amazon, contexts).Ok?
    ensures |Collected(lazada, amazon, contexts).value| <= 2 * |contexts|
    ensures Tags(lazada, "lazada") && Tags(amazon, "amazon") ==>
              forall s :: s in Collected(lazada, amazon, contexts).value ==>
                (exists i :: 0 <= i < |contexts| && s.queryId == contexts[i].id) &&
                (s.ecommerceName == "lazada" || s.ecommerceName == "amazon")
  {
    if contexts != [] {
      var n := |contexts| - 1;
      var init, last := contexts[..n], contexts[n];
      CollectedBound(lazada, amazon, init);
      var before := Collected(lazada, amazon, init).value;
      var stats := Collected(lazada, amazon, contexts).value;
      var kept := Kept(lazada(last).value) + Kept(amazon(last).value);
      assert stats == before + kept;
      if Tags(lazada, "lazada") && Tags(amazon, "amazon") {
        forall s | s in stats
          ensures exists i :: 0 <= i < |contexts| && s.queryId == contexts[i].id
          ensures s.ecommerceName == "lazada" || s.ecommerceName == "amazon"
        {
          if s in before {
            var i :| 0 <= i < |init| && s.queryId == init[i].id;
            assert contexts[i] == init[i];
          } else {
            assert s in kept;
            assert s.queryId == contexts[n].id;
          }
        }
      }
    }
  }

  /** When every scrape finds a record, the run keeps exactly two per context, context by
      context, Lazada first. */
  lemma {:induction false} CollectedAllFound(lazada: Scrape, amazon: Scrape, contexts: seq<QueryContexts.QueryContext>)
    requires forall i :: 0 <= i < |contexts| ==>
               lazada(contexts[i]).Ok? && lazada(contexts[i]).value.Some? &&
               amazon(contexts[i]).Ok? && amazon(contexts[i]).value.Some?
    ensures Collected(lazada, amazon, contexts).Ok?
    ensures var stats := Collected(lazada, amazon, contexts).value;
            && |stats| == 2 * |contexts|
            && forall i :: 0 <= i < |contexts| ==>
                 && lazada(contexts[i]) == Ok(Some(stats[2 * i]))
                 && amazon(contexts[i]) == Ok(Some(stats[2 * i + 1]))
  {
    if contexts != [] {
      var n := |contexts| - 1;
      var init, last := contexts[..n], contexts[n];
      assert forall i :: 0 <= i < n ==> init[i] == contexts[i];
      CollectedAllFound(lazada, amazon, init);
      var before := Collected(lazada, amazon, init).value;
      var stats := before + [lazada(last).value.value] + [amazon(last).value.value];
      assert Collected(lazada, amazon, contexts) == Ok(stats);
      forall i | 0 <= i < |contexts|
        ensures lazada(contexts[i]) == Ok(Some(stats[2 * i]))
        ensures amazon(contexts[i]) == Ok(Some(stats[2 * i + 1]))
      {
        if i < n {
          assert init[i] == contexts[i];
          assert stats[2 * i] == before[2 * i] && stats[2 * i + 1] == before[2 * i + 1];
        } else {
          assert 2 * i == |before|;
        }
      }
    }
  }


  /** A run writes exactly when the contexts load and no scrape raises, and then it writes
      the rows of the collected records; a single exception anywhere means no write at all. */
  lemma WriteOnlyWithoutException(queryRows: seq<QueryContexts.QueryRow>, browser: string -> Scraper.Page, clock: nat -> string)
    ensures Outcome(queryRows, browser, clock).BatchWritten? <==>
              |queryRows| > 0 && QueryContexts.ContextsOf(queryRows).Ok? &&
              Collected(LazadaOn(browser), AmazonOn(browser), QueryContexts.ContextsOf(queryRows).value).Ok?
    ensures Outcome(queryRows, browser, clock).BatchWritten? ==>
              Outcome(queryRows, browser, clock).rows ==
              Rows(Collected(LazadaOn(browser), AmazonOn(browser), QueryContexts.ContextsOf(queryRows).value).value, clock)
  {
  }

  /** A browser on which every search comes back without a single listing. */
  function NoListings(url: string): Scraper.Page
  {
    Scraper.Page(Scraper.TimedOut, [])
  }

  /** Pages with no element give no record and no exception, so the run writes an empty batch. */
  lemma EmptyPagesWriteEmptyBatch(queryRows: seq<QueryContexts.QueryRow>, clock: nat -> string)
    requires |queryRows| > 0 && QueryContexts.ContextsOf(queryRows).Ok?
    ensures Outcome(queryRows, NoListings, clock) == BatchWritten([])
  {
    var contexts := QueryContexts.ContextsOf(queryRows).value;
    var lazada, amazon := LazadaOn(NoListings), AmazonOn(NoListings);
    forall context
      ensures lazada(context) == Ok(None) && amazon(context) == Ok(None)
    {
      var lazadaUrl := Scraper.SearchUrl(Scraper.BaseUrlLazada, Scraper.DelimiterLazada, context.queryTerms);
      var amazonUrl := Scraper.SearchUrl(Scraper.BaseUrlAmazon, Scraper.DelimiterAmazon, context.queryTerms);
      assert NoListings(lazadaUrl).elements == [] && NoListings(amazonUrl).elements == [];
    }
    NothingFoundCollectsNothing(lazada, amazon, contexts);
  }

  /** Scrapers that never find a listing leave the collected list empty. */
  lemma {:induction false} NothingFoundCollectsNothing(lazada: Scrape, amazon: Scrape, contexts: seq<QueryContexts.QueryContext>)
    requires forall context :: lazada(context) == Ok(None) && amazon(context) == Ok(None)
    ensures Collected(lazada, amazon, contexts) == Ok([])
  {
    if contexts != [] {
      var last := contexts[|contexts| - 1];
      NothingFoundCollectsNothing(lazada, amazon, contexts[..|contexts| - 1]);
      assert lazada(last) == Ok(None) && amazon(last) == Ok(None);
      var none: seq<PriceStats> := [];
      assert Kept(None) == none;
      assert Collected(lazada, amazon, contexts) == Ok(none + Kept(None) + Kept(None));
      assert none + Kept(None) + Kept(None) == none;
    }
  }
}
