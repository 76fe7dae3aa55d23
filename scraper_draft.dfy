/** The older draft of the scrapers (`scraper.py`): a record without the storefront name, the
    exclusion filter on the Lazada path only, an implicit `None` when no element is found, and a
    `__main__` loop that keeps every result. The URL builder and the two parse loops are the same
    code as in `src/scraper.py` and are shared with the Scraper module. */
module ScraperDraft {
  import opened Results
  import opened PriceStatistics
  import opened PriceStatsRows
  import PyStr
  import Scraper
  import Contexts
  import QueryContexts

  /** The draft's record (lines 26-32): the query id and the four figures. */
  datatype DraftStats = DraftStats(queryId: int, lowest: real, highest: real, median: real, mean: real)

  /** The attributes the draft reads off a context. `id` is `None` for a context that has no
      `id` attribute at all, which is what `context.py` builds. */
  datatype DraftContext = DraftContext(id: Option<int>, queryTerms: seq<string>, excludeTerms: seq<string>)

  /** A context of `context.py`, which the draft imports: it has no `id`. */
  function FromIdless(context: Contexts.QueryContext): DraftContext
  {
    DraftContext(None, context.queryTerms, context.excludeTerms)
  }

  /** A context of `query_context.py`, which carries the row's id. */
  function FromQueryContext(context: QueryContexts.QueryContext): DraftContext
  {
    DraftContext(Some(context.id), context.queryTerms, context.excludeTerms)
  }

  // ----- the record -----

  /** Lines 82-87 and 123-128: the keyword arguments are evaluated in order, so `context.id`
      is read before `min(prices)`; a context without `id` raises even when prices were found. */
  function Summarize(id: Option<int>, prices: seq<real>): (r: Result<DraftStats>)
    ensures id.None? ==> r == Raised(MissingAttribute("id"))
    ensures id.Some? ==> (r.Ok? <==> |prices| > 0)
    ensures id.Some? && prices == [] ==> r == Raised(EmptyPrices)
    ensures r.Ok? ==> r.value.queryId == id.value
    ensures r.Ok? ==> r.value.lowest in prices && r.value.highest in prices
    ensures r.Ok? ==> forall k :: 0 <= k < |prices| ==> r.value.lowest <= prices[k] <= r.value.highest
    ensures r.Ok? ==> r.value.lowest <= r.value.mean <= r.value.highest
    ensures r.Ok? ==> r.value.lowest <= Median(prices) <= r.value.highest
  {
    match id
    case None => Raised(MissingAttribute("id"))
    case Some(i) =>
      if prices == [] then Raised(EmptyPrices)
      else
        MeanBounds(prices);
        MedianBounds(prices);
        Ok(DraftStats(i, Min(prices), Max(prices), Round2(Median(prices)), Mean(prices)))
  }

  /** The current record without its storefront name. */
  function Unnamed(stats: PriceStats): DraftStats
  {
    DraftStats(stats.queryId, stats.lowest, stats.highest, stats.median, stats.mean)
  }

  /** Given an id, the draft's record is the current one without the storefront name, and both
      raise the same exception on an empty pool. */
  lemma SummarizeAgreesWithCurrent(id: int, name: string, prices: seq<real>)
    ensures Summarize(Some(id), prices).Ok? <==> Scraper.Summarize(id, name, prices).Ok?
    ensures Summarize(Some(id), prices).Raised? ==>
              Summarize(Some(id), prices).error == Scraper.Summarize(id, name, prices).error
    ensures Summarize(Some(id), prices).Ok? ==>
              Summarize(Some(id), prices).value == Unnamed(Scraper.Summarize(id, name, prices).value)
  {
  }

  // ----- the two scrapers -----

  /** What `scrape_lazada` (lines 66-92) yields for a page. With no element the `finally` block
      has no `return`: a timeout was already handled, so the result is `None`, while any other
      failure of the navigation or the wait propagates. With elements, the `return` in `finally`
      discards whatever the wait raised. */
  function LazadaOutcome(context: DraftContext, page: Scraper.Page): (r: Result<Option<DraftStats>>)
    ensures r == Ok(None) <==> page.elements == [] && page.wait != Scraper.DriverError
    ensures r.Ok? && r.value.Some? ==> context.id.Some? && r.value.value.queryId == context.id.value
  {
    if |page.elements| == 0 then
      if page.wait == Scraper.DriverError then Raised(DriverFailure) else Ok(None)
    else
      var prices :- Scraper.LazadaPrices(Scraper.Filtered(page.elements, context.excludeTerms));
      var stats :- Summarize(context.id, prices);
      Ok(Some(stats))
  }

  /** What `scrape_amazon` (lines 106-133) yields for a page: as for Lazada, but no exclusion
      filter is applied. */
  function AmazonOutcome(context: DraftContext, page: Scraper.Page): (r: Result<Option<DraftStats>>)
    ensures r == Ok(None) <==> page.elements == [] && page.wait != Scraper.DriverError
    ensures r.Ok? && r.value.Some? ==> context.id.Some? && r.value.value.queryId == context.id.value
  {
    if |page.elements| == 0 then
      if page.wait == Scraper.DriverError then Raised(DriverFailure) else Ok(None)
    else
      var prices :- Scraper.AmazonPrices(page.elements);
      var stats :- Summarize(context.id, prices);
      Ok(Some(stats))
  }

  function LazadaPage(browser: string -> Scraper.Page, context: DraftContext): Scraper.Page
  {
    browser(Scraper.SearchUrl(Scraper.BaseUrlLazada, Scraper.DelimiterLazada, context.queryTerms))
  }

  function AmazonPage(browser: string -> Scraper.Page, context: DraftContext): Scraper.Page
  {
    browser(Scraper.SearchUrl(Scraper.BaseUrlAmazon, Scraper.DelimiterAmazon, context.queryTerms))
  }

  /** `scrape_lazada` of the draft. */
  method ScrapeLazada(browser: string -> Scraper.Page, context: DraftContext)
    returns (r: Result<Option<DraftStats>>)
    ensures r == LazadaOutcome(context, LazadaPage(browser, context))
  {
    var fullQueryUrl := Scraper.GetFullQueryUrl(Scraper.BaseUrlLazada, Scraper.DelimiterLazada, context.queryTerms);
    var page := browser(fullQueryUrl);
    var elements := page.elements;
    if |elements| == 0 {
      if page.wait == Scraper.DriverError {
        return Raised(DriverFailure);
      }
      return Ok(None);
    }
    if |context.excludeTerms| > 0 {
      elements := Scraper.Exclude(elements, context.excludeTerms);
    }
    var prices := Scraper.CollectLazadaPrices(elements);
    if prices.Raised? {
      return Raised(prices.error);
    }
    var stats := Summarize(context.id, prices.value);
    if stats.Raised? {
      return Raised(stats.error);
    }
    return Ok(Some(stats.value));
  }

  /** `scrape_amazon` of the draft. */
  method ScrapeAmazon(browser: string -> Scraper.Page, context: DraftContext)
    returns (r: Result<Option<DraftStats>>)
    ensures r == AmazonOutcome(context, AmazonPage(browser, context))
  {
    var fullQueryUrl := Scraper.GetFullQueryUrl(Scraper.BaseUrlAmazon, Scraper.DelimiterAmazon, context.queryTerms);
    var page := browser(fullQueryUrl);
    var elements := page.elements;
    if |elements| == 0 {
      if page.wait == Scraper.DriverError {
        return Raised(DriverFailure);
      }
      return Ok(None);
    }
    var prices := Scraper.CollectAmazonPrices(elements);
    if prices.Raised? {
      return Raised(prices.error);
    }
    var stats := Summarize(context.id, prices.value);
    if stats.Raised? {
      return Raised(stats.error);
    }
    return Ok(Some(stats.value));
  }

  // ----- properties of the outcomes -----

  /** The draft returns `None` exactly when no element is found and the wait did not fail
      with anything but a timeout; elements that yield no price raise in `min([])`. */
  lemma NoneOnlyWithoutElements(context: DraftContext, page: Scraper.Page)
    ensures LazadaOutcome(context, page) == Ok(None) <==> page.elements == [] && page.wait != Scraper.DriverError
    ensures AmazonOutcome(context, page) == Ok(None) <==> page.elements == [] && page.wait != Scraper.DriverError
    ensures page.elements == [] && page.wait == Scraper.DriverError ==>
              LazadaOutcome(context, page) == AmazonOutcome(context, page) == Raised(DriverFailure)
    ensures context.id.Some? && page.elements != [] &&
            Scraper.LazadaPrices(Scraper.Filtered(page.elements, context.excludeTerms)) == Ok([]) ==>
              LazadaOutcome(context, page) == Raised(EmptyPrices)
    ensures context.id.Some? && page.elements != [] && Scraper.AmazonPrices(page.elements) == Ok([]) ==>
              AmazonOutcome(context, page) == Raised(EmptyPrices)
  {
  }

  /** Once an element is found, how the wait ended makes no difference. */
  lemma WaitIrrelevantWithElements(context: DraftContext, elements: seq<string>, w1: Scraper.WaitOutcome, w2: Scraper.WaitOutcome)
    requires elements != []
    ensures LazadaOutcome(context, Scraper.Page(w1, elements)) == LazadaOutcome(context, Scraper.Page(w2, elements))
    ensures AmazonOutcome(context, Scraper.Page(w1, elements)) == AmazonOutcome(context, Scraper.Page(w2, elements))
  {
  }

  /** A result with a record of the current scraper, stripped of the storefront name. */
  function UnnamedOutcome(r: Result<Option<PriceStats>>): Result<Option<DraftStats>>
  {
    match r
    case Raised(e) => Raised(e)
    case Ok(None) => Ok(None)
    case Ok(Some(stats)) => Ok(Some(Unnamed(stats)))
  }

  /** On a context with an id and a non-empty page, the draft's Lazada scraper agrees with the
      current one, filter included. */
  lemma LazadaAgreesWithCurrent(context: QueryContexts.QueryContext, page: Scraper.Page)
    requires page.elements != []
    ensures LazadaOutcome(FromQueryContext(context), page) == UnnamedOutcome(Scraper.LazadaOutcome(context, page.elements))
  {
    var prices := Scraper.LazadaPrices(Scraper.Filtered(page.elements, context.excludeTerms));
    if prices.Ok? {
      SummarizeAgreesWithCurrent(context.id, "lazada", prices.value);
    }
  }

  /** The draft's Amazon scraper agrees with the current one given no exclude terms: the draft
      never filters Amazon elements. */
  lemma AmazonAgreesWithUnfilteredCurrent(context: QueryContexts.QueryContext, page: Scraper.Page)
    requires page.elements != []
    ensures AmazonOutcome(FromQueryContext(context), page) ==
            UnnamedOutcome(Scraper.AmazonOutcome(QueryContexts.QueryContext(context.id, context.queryTerms, []), page.elements))
  {
    var prices := Scraper.AmazonPrices(page.elements);
    if prices.Ok? {
      SummarizeAgreesWithCurrent(context.id, "amazon", prices.value);
    }
  }

  // ----- the `__main__` loop -----

  /** Lines 140-143: for each context, the Lazada result then the Amazon result, `None`s
      included; the first exception ends the loop. */
  function MainResults(browser: string -> Scraper.Page, contexts: seq<DraftContext>): (r: Result<seq<Option<DraftStats>>>)
    ensures r.Ok? ==> |r.value| == 2 * |contexts|
  {
    if contexts == [] then Ok([])
    else
      var last := contexts[|contexts| - 1];
      var init :- MainResults(browser, contexts[..|contexts| - 1]);
      var lazada :- LazadaOutcome(last, LazadaPage(browser, last));
      var amazon :- AmazonOutcome(last, AmazonPage(browser, last));
      Ok(init + [lazada, amazon])
  }

  /** Exactly two entries per context, context by context, Lazada before Amazon. */
  lemma {:induction false} MainResultsShape(browser: string -> Scraper.Page, contexts: seq<DraftContext>)
    requires MainResults(browser, contexts).Ok?
    ensures var results := MainResults(browser, contexts).value;
            && |results| == 2 * |contexts|
            && forall i :: 0 <= i < |contexts| ==>
                 && Ok(results[2 * i]) == LazadaOutcome(contexts[i], LazadaPage(browser, contexts[i]))
                 && Ok(results[2 * i + 1]) == AmazonOutcome(contexts[i], AmazonPage(browser, contexts[i]))
  {
    if contexts != [] {
      var n := |contexts| - 1;
      var init, last := contexts[..n], contexts[n];
      MainResultsShape(browser, init);
      var before := MainResults(browser, init).value;
      var lazada := LazadaOutcome(last, LazadaPage(browser, last)).value;
      var amazon := AmazonOutcome(last, AmazonPage(browser, last)).value;
      var results := before + [lazada, amazon];
      assert MainResults(browser, contexts).value == results;
      forall i | 0 <= i < |contexts|
        ensures Ok(results[2 * i]) == LazadaOutcome(contexts[i], LazadaPage(browser, contexts[i]))
        ensures Ok(results[2 * i + 1]) == AmazonOutcome(contexts[i], AmazonPage(browser, contexts[i]))
      {
        if i < n {
          assert init[i] == contexts[i];
          assert results[2 * i] == before[2 * i] && results[2 * i + 1] == before[2 * i + 1];
        } else {
          assert 2 * i == |before|;
        }
      }
    }
  }

  /** One more context: its two outcomes are appended, or the first exception is the result. */
  lemma MainResultsStep(browser: string -> Scraper.Page, contexts: seq<DraftContext>, i: nat,
                        before: seq<Option<DraftStats>>)
    requires i < |contexts| && MainResults(browser, contexts[..i]) == Ok(before)
    ensures var context := contexts[i];
            var lazada := LazadaOutcome(context, LazadaPage(browser, context));
            var amazon := AmazonOutcome(context, AmazonPage(browser, context));
            MainResults(browser, contexts[..i + 1])
              == if lazada.Raised? then Raised(lazada.error)
                 else if amazon.Raised? then Raised(amazon.error)
                 else Ok(before + [lazada.value, amazon.value])
  {
    assert contexts[..i + 1][..i] == contexts[..i];
  }

  /** Once the loop has raised on a prefix of the contexts, the whole loop raises the same. */
  lemma {:induction false} MainFailurePersists(browser: string -> Scraper.Page, contexts: seq<DraftContext>, n: nat)
    requires n <= |contexts|
    requires MainResults(browser, contexts[..n]).Raised?
    ensures MainResults(browser, contexts) == MainResults(browser, contexts[..n])
    decreases |contexts| - n
  {
    if n < |contexts| {
      assert contexts[..n + 1][..n] == contexts[..n];
      MainFailurePersists(browser, contexts, n + 1);
    } else {
      assert contexts[..n] == contexts;
    }
  }

  /** The `__main__` block (lines 138-143): a missing context list (no query rows) is not
      iterable; otherwise both scrapers run for every context and every result is kept. */
  method ScrapeAll(browser: string -> Scraper.Page, contextList: Option<seq<DraftContext>>)
    returns (r: Result<seq<Option<DraftStats>>>)
    ensures contextList.None? ==> r == Raised(NoneNotIterable)
    ensures contextList.Some? ==> r == MainResults(browser, contextList.value)
  {
    if contextList.None? {
      return Raised(NoneNotIterable);
    }
    var contexts := contextList.value;
    var statsList: seq<Option<DraftStats>> := [];
    var i := 0;
    while i < |contexts|
      invariant 0 <= i <= |contexts|
      invariant MainResults(browser, contexts[..i]) == Ok(statsList)
    {
      MainResultsStep(browser, contexts, i, statsList);
      var lazada := ScrapeLazada(browser, contexts[i]);
      if lazada.Raised? {
        MainFailurePersists(browser, contexts, i + 1);
        return Raised(lazada.error);
      }
      var amazon := ScrapeAmazon(browser, contexts[i]);
      if amazon.Raised? {
        MainFailurePersists(browser, contexts, i + 1);
        return Raised(amazon.error);
      }
      statsList := statsList + [lazada.value, amazon.value];
      i := i + 1;
    }
    assert contexts[..i] == contexts;
    return Ok(statsList);
  }

  // ----- the draft's contexts have no id -----

  /** With the `context.py` contexts the draft imports, a scraper never produces a record:
      every page with elements whose prices parse raises on `context.id`. */
  lemma IdlessContextNeverRecords(context: Contexts.QueryContext, page: Scraper.Page)
    ensures LazadaOutcome(FromIdless(context), page).Ok? ==> LazadaOutcome(FromIdless(context), page) == Ok(None)
    ensures AmazonOutcome(FromIdless(context), page).Ok? ==> AmazonOutcome(FromIdless(context), page) == Ok(None)
    ensures page.elements != [] && Scraper.AmazonPrices(page.elements).Ok? ==>
              AmazonOutcome(FromIdless(context), page) == Raised(MissingAttribute("id"))
    ensures page.elements != [] && Scraper.LazadaPrices(Scraper.Filtered(page.elements, context.excludeTerms)).Ok? ==>
              LazadaOutcome(FromIdless(context), page) == Raised(MissingAttribute("id"))
  {
  }

  /** The smallest case: one Lazada listing reading `$5.00`, under the context `context.py`
      builds for the query `phone`, raises instead of giving a record. */
  lemma IdlessLazadaCounterexample()
    ensures LazadaOutcome(FromIdless(Contexts.QueryContext(["phone"], [""])),
                          Scraper.Page(Scraper.MarkerPresent, ["$5.00"]))
            == Raised(MissingAttribute("id"))
  {
    FiveDollarListing();
  }

  /** With the `query_context.py` contexts, the same listing gives a record with the row's id. */
  lemma QueryContextLazadaRecord(id: int)
    ensures LazadaOutcome(FromQueryContext(QueryContexts.QueryContext(id, ["phone"], [""])),
                          Scraper.Page(Scraper.MarkerPresent, ["$5.00"]))
            == Ok(Some(DraftStats(id, 5.0, 5.0, 5.0, 5.0)))
  {
    FiveDollarListing();
    SingletonStats(5.0);
    Round2WholeCents(5.0);
    assert IsWholeCents(5.0);
    assert Summarize(Some(id), [5.0]) == Ok(DraftStats(id, 5.0, 5.0, 5.0, 5.0));
  }

  /** The listing `$5.00`, kept by the filter of an empty exclude string, gives the price 5. */
  lemma FiveDollarListing()
    ensures Scraper.LazadaPrices(Scraper.Filtered(["$5.00"], [""])) == Ok([5.0])
  {
    KeptByEmptyTerm();
    Scraper.FiveDollarPrice();
  }

  lemma KeptByEmptyTerm()
    ensures Scraper.Filtered(["$5.00"], [""]) == ["$5.00"]
  {
    assert "$5.00" != "";
  }

  /** The contexts `query_context.py` builds, as the draft reads them. */
  function WithIds(contexts: seq<QueryContexts.QueryContext>): (drafts: seq<DraftContext>)
    ensures |drafts| == |contexts|
    ensures forall i :: 0 <= i < |contexts| ==> drafts[i] == FromQueryContext(contexts[i])
  {
    seq(|contexts|, i requires 0 <= i < |contexts| => FromQueryContext(contexts[i]))
  }

  /** Contexts that carry an id: every record in the loop's results has the id of its context. */
  lemma ContextsWithIdsRecord(browser: string -> Scraper.Page, contexts: seq<QueryContexts.QueryContext>)
    requires MainResults(browser, WithIds(contexts)).Ok?
    ensures var results := MainResults(browser, WithIds(contexts)).value;
            |results| == 2 * |contexts| &&
            forall k :: 0 <= k < |results| && results[k].Some? ==> results[k].value.queryId == contexts[k / 2].id
  {
    var drafts := WithIds(contexts);
    MainResultsCarryIds(browser, drafts);
    var results := MainResults(browser, drafts).value;
    forall k | 0 <= k < |results| && results[k].Some?
      ensures results[k].value.queryId == contexts[k / 2].id
    {
      assert drafts[k / 2].id == Some(contexts[k / 2].id);
    }
  }

  /** Every record the loop collects carries the id of the context it was scraped for. */
  lemma {:induction false} MainResultsCarryIds(browser: string -> Scraper.Page, contexts: seq<DraftContext>)
    requires MainResults(browser, contexts).Ok?
    ensures var results := MainResults(browser, contexts).value;
            && |results| == 2 * |contexts|
            && forall k :: 0 <= k < |results| && results[k].Some? ==>
                 Some(results[k].value.queryId) == contexts[k / 2].id
  {
    if contexts != [] {
      var n := |contexts| - 1;
      var init, last := contexts[..n], contexts[n];
      MainResultsCarryIds(browser, init);
      var before := MainResults(browser, init).value;
      var lazada := LazadaOutcome(last, LazadaPage(browser, last)).value;
      var amazon := AmazonOutcome(last, AmazonPage(browser, last)).value;
      var results := before + [lazada, amazon];
      assert MainResults(browser, contexts).value == results;
      forall k | 0 <= k < |results| && results[k].Some?
        ensures Some(results[k].value.queryId) == contexts[k / 2].id
      {
        var i := k / 2;
        if k < 2 * n {
          assert i < n;
          assert results[k] == before[k];
          assert init[i] == contexts[i];
        } else if k == 2 * n {
          assert i == n;
        } else {
          assert k == 2 * n + 1 && i == n;
        }
      }
    }
  }
}
