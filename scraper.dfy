/** The price-extraction pipeline of the current scraper: search URL, exclusion filter,
    per-storefront price parsing, the empty checks, and the summary record. */
module Scraper {
  import opened Results
  import PyStr
  import opened PriceStatistics
  import opened PriceStatsRows
  import QueryContexts

  const BaseUrlAmazon: string := "https://www.amazon.sg/s?k="
  const DelimiterAmazon: string := "+"
  const BaseUrlLazada: string := "https://www.lazada.sg/catalog/?q="
  const DelimiterLazada: string := "%20"

  /** How the wait for a storefront's "results loaded" marker ended. */
  datatype WaitOutcome = MarkerPresent | TimedOut | DriverError

  /** What the browser shows after navigating to a URL: how the wait ended, and the visible
      text of every element the storefront's listing selector finds. */
  datatype Page = Page(wait: WaitOutcome, elements: seq<string>)

  // ----- search URL -----

  /** Every term followed by the delimiter: what the loop of `get_full_query_url` accumulates. */
  function Terminated(terms: seq<string>, delimiter: string): string
  {
    if terms == [] then "" else terms[0] + delimiter + Terminated(terms[1..], delimiter)
  }

  lemma {:induction false} TerminatedIsJoinThenDelimiter(terms: seq<string>, delimiter: string)
    requires |terms| > 0
    ensures Terminated(terms, delimiter) == PyStr.Join(terms, delimiter) + delimiter
  {
    if |terms| > 1 {
      TerminatedIsJoinThenDelimiter(terms[1..], delimiter);
    }
  }

  lemma TerminatedStep(terms: seq<string>, i: nat, delimiter: string)
    requires i < |terms|
    ensures Terminated(terms[i..], delimiter) == terms[i] + delimiter + Terminated(terms[i + 1..], delimiter)
  {
    assert terms[i..][1..] == terms[i + 1..];
  }

  lemma Regroup<T>(a: seq<T>, b: seq<T>, c: seq<T>, d: seq<T>)
    ensures a + b + c + d == a + (b + c + d)
  {
  }

  /** The URL a storefront is sent to for a list of search terms. */
  function SearchUrl(baseUrl: string, delimiter: string, terms: seq<string>): string
  {
    baseUrl + PyStr.Join(terms, delimiter)
  }

  /** `get_full_query_url`: the base URL followed by the terms joined with the delimiter, with
      no trailing delimiter; no terms give the base URL. An empty delimiter slices off every
      term (`s[:-0]` is empty), leaving only the base URL. */
  method GetFullQueryUrl(baseUrl: string, delimiter: string, queryTerms: seq<string>) returns (url: string)
    ensures |delimiter| > 0 ==> url == SearchUrl(baseUrl, delimiter, queryTerms)
    ensures |delimiter| == 0 ==> url == baseUrl
  {
    var queryParams := "";
    for i := 0 to |queryTerms|
      invariant queryParams + Terminated(queryTerms[i..], delimiter) == Terminated(queryTerms, delimiter)
    {
      TerminatedStep(queryTerms, i, delimiter);
      Regroup(queryParams, queryTerms[i], delimiter, Terminated(queryTerms[i + 1..], delimiter));
      queryParams := queryParams + queryTerms[i] + delimiter;
    }
    assert queryParams == Terminated(queryTerms, delimiter);
    if |queryTerms| > 0 {
      TerminatedIsJoinThenDelimiter(queryTerms, delimiter);
    }
    queryParams := PyStr.DropLast(queryParams, |delimiter|);
    url := baseUrl + queryParams;
  }

  // ----- exclusion filter -----

  /** `filter(lambda e: e not in exclude_terms, elements)`, elements standing for their text. */
  function Exclude(elements: seq<string>, excludeTerms: seq<string>): (kept: seq<string>)
    ensures |kept| <= |elements|
    ensures multiset(kept) <= multiset(elements)
    ensures forall e :: e in kept <==> e in elements && e !in excludeTerms
  {
    if elements == [] then []
    else
      assert elements == [elements[0]] + elements[1..];
      (if elements[0] in excludeTerms then [] else [elements[0]]) + Exclude(elements[1..], excludeTerms)
  }

  /** The filter works element by element: it keeps the order of what it keeps. */
  lemma {:induction false} ExcludeAppend(a: seq<string>, b: seq<string>, excludeTerms: seq<string>)
    ensures Exclude(a + b, excludeTerms) == Exclude(a, excludeTerms) + Exclude(b, excludeTerms)
  {
    if a == [] {
      assert a + b == b;
    } else {
      var head := if a[0] in excludeTerms then [] else [a[0]];
      assert (a + b)[0] == a[0];
      assert (a + b)[1..] == a[1..] + b;
      assert Exclude(a + b, excludeTerms) == head + Exclude(a[1..] + b, excludeTerms);
      ExcludeAppend(a[1..], b, excludeTerms);
      Associate(head, Exclude(a[1..], excludeTerms), Exclude(b, excludeTerms));
    }
  }

  lemma Associate<T>(a: seq<T>, b: seq<T>, c: seq<T>)
    ensures a + (b + c) == a + b + c
  {
  }

  /** With nothing to exclude the filter keeps every element. */
  lemma {:induction false} ExcludeNothing(elements: seq<string>)
    ensures Exclude(elements, []) == elements
  {
    if elements != [] {
      ExcludeNothing(elements[1..]);
    }
  }

  /** Lines 45-46: the filter runs only when there are exclude terms. */
  function Filtered(elements: seq<string>, excludeTerms: seq<string>): (kept: seq<string>)
    ensures multiset(kept) <= multiset(elements)
    ensures forall e :: e in kept <==> e in elements && e !in excludeTerms
  {
    if |excludeTerms| > 0 then Exclude(elements, excludeTerms) else elements
  }

  /** Skipping the filter for an empty term list changes nothing: the result is the same
      as filtering, and the input itself. */
  lemma FilteredIsExclude(elements: seq<string>, excludeTerms: seq<string>)
    ensures Filtered(elements, excludeTerms) == Exclude(elements, excludeTerms)
    ensures excludeTerms == [] ==> Filtered(elements, excludeTerms) == elements
  {
    if excludeTerms == [] {
      ExcludeNothing(elements);
    }
  }

  /** A value as Python's `==` sees it in `e not in exclude_terms`: the element is a
      WebElement object and the terms are strings. */
  datatype PyValue = WebElement(text: string) | Str(s: string)

  function Strs(terms: seq<string>): (values: seq<PyValue>)
    ensures |values| == |terms|
    ensures forall k :: 0 <= k < |terms| ==> values[k] == Str(terms[k])
  {
    if terms == [] then [] else [Str(terms[0])] + Strs(terms[1..])
  }

  /** Line 46 as written: the filter tests the element object, not its text, against the
      string terms. */
  function ExcludeAsWritten(elements: seq<string>, excludeTerms: seq<string>): (kept: seq<string>)
    ensures forall e :: e in kept <==> e in elements && WebElement(e) !in Strs(excludeTerms)
  {
    if elements == [] then []
    else
      assert elements == [elements[0]] + elements[1..];
      (if WebElement(elements[0]) in Strs(excludeTerms) then [] else [elements[0]])
        + ExcludeAsWritten(elements[1..], excludeTerms)
  }

  /** An object never equals a string, so the filter as written keeps every element. */
  lemma {:induction false} ExcludeAsWrittenKeepsAll(elements: seq<string>, excludeTerms: seq<string>)
    ensures ExcludeAsWritten(elements, excludeTerms) == elements
  {
    if elements != [] {
      ExcludeAsWrittenKeepsAll(elements[1..], excludeTerms);
      assert elements == [elements[0]] + elements[1..];
    }
  }

  /** An element whose text is empty, under the exclude list `['']` that an empty
      `exclude_string` gives: the text filter drops it and the other listing gives its price,
      while the filter as written keeps it and its empty line raises on `item[0]`. */
  lemma EmptyTextFilterDivergence()
    ensures Filtered(["", "$5.00"], [""]) == ["$5.00"]
    ensures LazadaPrices(Filtered(["", "$5.00"], [""])) == Ok([5.0])
    ensures LazadaPrices(ExcludeAsWritten(["", "$5.00"], [""])) == Raised(EmptyLineIndex)
  {
    DropsEmptyText();
    FiveDollarPrice();
    ExcludeAsWrittenKeepsAll(["", "$5.00"], [""]);
    EmptyFirstListingRaises(["", "$5.00"]);
  }

  lemma DropsEmptyText()
    ensures Filtered(["", "$5.00"], [""]) == ["$5.00"]
  {
    var elements := ["", "$5.00"];
    assert elements[1..] == ["$5.00"];
    assert ["$5.00"][1..] == [];
  }

  /** The listing `$5.00` gives the price 5. */
  lemma FiveDollarPrice()
    ensures LazadaPrices(["$5.00"]) == Ok([5.0])
  {
    LazadaListingPrice("5", "00");
    FivePointZeroZero();
    assert "$" + "5" + "." + "00" == "$5.00";
  }

  lemma FivePointZeroZero()
    ensures PyStr.DecimalValue("5", "00") == 5.0
  {
    assert PyStr.DigitsValue("5") == 5 by {
      assert "5"[..0] == "";
    }
    assert PyStr.DigitsValue("00") == 0 by {
      assert "00"[..1] == "0";
      assert "0"[..0] == "";
    }
  }

  /** A first listing with empty text has one empty line, which raises. */
  lemma EmptyFirstListingRaises(elements: seq<string>)
    requires |elements| > 0 && elements[0] == ""
    ensures LazadaPrices(elements) == Raised(EmptyLineIndex)
  {
    assert PyStr.Split("", '\n') == [""];
    GatherOne(LazadaLinePrices, "");
    assert elements[..1] == [""];
    GatherOne(LazadaElementPrices, "");
    GatherFailurePersists(LazadaElementPrices, elements, 1);
  }

  // ----- gathering prices -----

  /** The prices of `items` in order, each item parsed by `parse`; the first exception wins. */
  function Gather(parse: string -> Result<seq<real>>, items: seq<string>): Result<seq<real>>
  {
    if items == [] then Ok([])
    else
      var init :- Gather(parse, items[..|items| - 1]);
      var more :- parse(items[|items| - 1]);
      Ok(init + more)
  }

  /** Once a prefix of the items raises, gathering all of them raises the same exception. */
  lemma {:induction false} GatherFailurePersists(parse: string -> Result<seq<real>>, items: seq<string>, n: nat)
    requires n <= |items|
    requires Gather(parse, items[..n]).Raised?
    ensures Gather(parse, items) == Gather(parse, items[..n])
    decreases |items| - n
  {
    if n < |items| {
      assert items[..n + 1][..n] == items[..n];
      GatherFailurePersists(parse, items, n + 1);
    } else {
      assert items[..n] == items;
    }
  }

  /** One more item: its prices are appended, or its exception is the result. */
  lemma GatherExtends(parse: string -> Result<seq<real>>, items: seq<string>, i: nat, before: seq<real>)
    requires i < |items| && Gather(parse, items[..i]) == Ok(before)
    ensures parse(items[i]).Raised? ==> Gather(parse, items[..i + 1]) == parse(items[i])
    ensures parse(items[i]).Ok? ==> Gather(parse, items[..i + 1]) == Ok(before + parse(items[i]).value)
  {
    assert items[..i + 1][..i] == items[..i];
  }

  /** Gathering succeeds exactly when the earlier items and the last one do. */
  lemma GatherOkStep(parse: string -> Result<seq<real>>, items: seq<string>)
    requires items != []
    ensures Gather(parse, items).Ok? <==>
              Gather(parse, items[..|items| - 1]).Ok? && parse(items[|items| - 1]).Ok?
  {
  }

  lemma EveryOneSplit(p: string -> bool, items: seq<string>, init: seq<string>)
    requires items != [] && init == items[..|items| - 1]
    ensures (forall k :: 0 <= k < |items| ==> p(items[k])) <==>
              (forall k :: 0 <= k < |init| ==> p(init[k])) && p(items[|items| - 1])
  {
    if forall k :: 0 <= k < |init| ==> p(init[k]) {
      forall k | 0 <= k < |init| ensures p(items[k]) {
        assert init[k] == items[k];
      }
    }
  }

  // ----- Lazada prices -----

  /** One line of a Lazada listing (lines 50-53): a `$` line is a price, any other line is
      skipped, and an empty line raises on `item[0]`. */
  function LazadaLinePrices(item: string): (r: Result<seq<real>>)
    ensures item == "" ==> r == Raised(EmptyLineIndex)
    ensures r.Ok? <==> ReadableLazadaLine(item)
    ensures r.Ok? ==> |r.value| <= 1 && (|r.value| == 1 <==> item[0] == '$')
    ensures r.Ok? && |r.value| == 1 ==> PyStr.ParseFloat(item[1..]) == Some(r.value[0])
  {
    if item == "" then Raised(EmptyLineIndex)
    else if item[0] != '$' then Ok([])
    else match PyStr.ParseFloat(item[1..])
      case Some(v) => Ok([v])
      case None => Raised(NotAFloat(item[1..]))
  }

  /** The prices of one Lazada listing: one per line of its text. */
  function LazadaElementPrices(text: string): Result<seq<real>>
  {
    Gather(LazadaLinePrices, PyStr.Split(text, '\n'))
  }

  function LazadaPrices(elements: seq<string>): Result<seq<real>>
  {
    Gather(LazadaElementPrices, elements)
  }

  /** The `$` lines among `lines`, in order. */
  function DollarLines(lines: seq<string>): (dollarLines: seq<string>)
    ensures forall k :: 0 <= k < |dollarLines| ==> dollarLines[k] != "" && dollarLines[k][0] == '$'
  {
    if lines == [] then []
    else
      var last := lines[|lines| - 1];
      DollarLines(lines[..|lines| - 1]) + (if last != "" && last[0] == '$' then [last] else [])
  }

  /** A line a Lazada listing can hold without raising. */
  predicate ReadableLazadaLine(line: string)
  {
    line != "" && (line[0] == '$' ==> PyStr.ParseFloat(line[1..]).Some?)
  }

  /** A listing's lines give prices exactly when every line is readable. */
  lemma {:induction false} LazadaLinesReadable(lines: seq<string>)
    ensures Gather(LazadaLinePrices, lines).Ok? <==> forall k :: 0 <= k < |lines| ==> ReadableLazadaLine(lines[k])
  {
    if lines != [] {
      var n := |lines| - 1;
      var init, last := lines[..n], lines[n];
      LazadaLinesReadable(init);
      GatherOkStep(LazadaLinePrices, lines);
      assert LazadaLinePrices(last).Ok? <==> ReadableLazadaLine(last);
      EveryOneSplit(ReadableLazadaLine, lines, init);
    }
  }

  /** Readable lines give one price per `$` line, in order, duplicates kept. */
  lemma {:induction false} LazadaLinesDollarPrices(lines: seq<string>)
    requires Gather(LazadaLinePrices, lines).Ok?
    ensures var prices := Gather(LazadaLinePrices, lines).value;
            |prices| == |DollarLines(lines)| &&
            forall k :: 0 <= k < |prices| ==> PyStr.ParseFloat(DollarLines(lines)[k][1..]) == Some(prices[k])
  {
    if lines != [] {
      var init, last := lines[..|lines| - 1], lines[|lines| - 1];
      LazadaLinesDollarPrices(init);
      var before := Gather(LazadaLinePrices, init).value;
      var more := LazadaLinePrices(last).value;
      assert Gather(LazadaLinePrices, lines).value == before + more;
      assert DollarLines(lines) == DollarLines(init) + (if last != "" && last[0] == '$' then [last] else []);
    }
  }

  /** A Lazada listing whose whole text is one price line `$<whole>.<fraction>` gives exactly
      that decimal. */
  lemma LazadaListingPrice(whole: string, fraction: string)
    requires |whole| > 0 && PyStr.AllDigits(whole) && PyStr.AllDigits(fraction)
    ensures LazadaPrices(["$" + whole + "." + fraction]) == Ok([PyStr.DecimalValue(whole, fraction)])
  {
    PriceLine(whole, fraction);
    NoNewlineInPriceLine(whole, fraction);
    SingleLineListing("$" + whole + "." + fraction);
  }

  /** A listing line with a thousands separator, `$1,299.00`, raises ValueError. */
  lemma ThousandsSeparatorRaises()
    ensures LazadaLinePrices("$1,299.00") == Raised(NotAFloat("1,299.00"))
  {
    PyStr.ThousandsSeparatorRejected();
    assert "$1,299.00"[1..] == "1,299.00";
  }

  lemma PriceLine(whole: string, fraction: string)
    requires |whole| > 0 && PyStr.AllDigits(whole) && PyStr.AllDigits(fraction)
    ensures LazadaLinePrices("$" + whole + "." + fraction) == Ok([PyStr.DecimalValue(whole, fraction)])
  {
    var rest := whole + "." + fraction;
    PyStr.ParseFloatOfDecimal(whole, fraction);
    Regroup("$", whole, ".", fraction);
    DollarLine(rest);
  }

  lemma DollarLine(rest: string)
    ensures var line := "$" + rest;
            line != "" && line[0] == '$' && line[1..] == rest
  {
  }

  /** A listing of one line holds the prices of that line. */
  lemma SingleLineListing(line: string)
    requires '\n' !in line
    ensures LazadaPrices([line]) == LazadaLinePrices(line)
  {
    assert PyStr.Split(line, '\n') == [line];
    GatherOne(LazadaLinePrices, line);
    GatherOne(LazadaElementPrices, line);
  }

  lemma NoNewlineInPriceLine(whole: string, fraction: string)
    requires PyStr.AllDigits(whole) && PyStr.AllDigits(fraction)
    ensures '\n' !in "$" + whole + "." + fraction
  {
    assert forall k :: 0 <= k < |whole| ==> whole[k] != '\n';
    assert forall k :: 0 <= k < |fraction| ==> fraction[k] != '\n';
  }

  /** Gathering a single item is parsing it. */
  lemma GatherOne(parse: string -> Result<seq<real>>, item: string)
    ensures Gather(parse, [item]) == parse(item)
  {
    var empty: seq<string> := [];
    assert [item][..0] == empty;
    match parse(item)
    case Ok(more) => assert [] + more == more;
    case Raised(e) =>
  }

  /** Lines 44-53: every line of every kept listing, in order; a bad line raises. */
  method CollectLazadaPrices(elements: seq<string>) returns (r: Result<seq<real>>)
    ensures r == LazadaPrices(elements)
  {
    var prices: seq<real> := [];
    var i := 0;
    while i < |elements|
      invariant 0 <= i <= |elements|
      invariant LazadaPrices(elements[..i]) == Ok(prices)
    {
      var more := CollectListingPrices(elements[i]);
      GatherExtends(LazadaElementPrices, elements, i, prices);
      if more.Raised? {
        GatherFailurePersists(LazadaElementPrices, elements, i + 1);
        return more;
      }
      prices := prices + more.value;
      i := i + 1;
    }
    assert elements[..i] == elements;
    return Ok(prices);
  }

  /** One line of the inner loop: an empty line or an unreadable `$` line ends the listing
      with its exception, a `$` line appends its price, and any other line appends nothing. */
  lemma LazadaLineStep(lines: seq<string>, j: nat, prices: seq<real>)
    requires j < |lines| && Gather(LazadaLinePrices, lines[..j]) == Ok(prices)
    ensures lines[j] == "" ==> Gather(LazadaLinePrices, lines) == Raised(EmptyLineIndex)
    ensures lines[j] != "" && lines[j][0] == '$' && PyStr.ParseFloat(lines[j][1..]).None? ==>
              Gather(LazadaLinePrices, lines) == Raised(NotAFloat(lines[j][1..]))
    ensures lines[j] != "" && lines[j][0] == '$' && PyStr.ParseFloat(lines[j][1..]).Some? ==>
              Gather(LazadaLinePrices, lines[..j + 1]) == Ok(prices + [PyStr.ParseFloat(lines[j][1..]).value])
    ensures lines[j] != "" && lines[j][0] != '$' ==> Gather(LazadaLinePrices, lines[..j + 1]) == Ok(prices)
  {
    var item := lines[j];
    GatherExtends(LazadaLinePrices, lines, j, prices);
    if LazadaLinePrices(item).Raised? {
      GatherFailurePersists(LazadaLinePrices, lines, j + 1);
    } else if item[0] != '$' {
      assert prices + [] == prices;
    }
  }

  /** Lines 49-53, the inner loop over one listing's lines. */
  method CollectListingPrices(text: string) returns (r: Result<seq<real>>)
    ensures r == LazadaElementPrices(text)
  {
    var productData := PyStr.Split(text, '\n');
    var prices: seq<real> := [];
    var j := 0;
    while j < |productData|
      invariant 0 <= j <= |productData|
      invariant Gather(LazadaLinePrices, productData[..j]) == Ok(prices)
    {
      var item := productData[j];
      LazadaLineStep(productData, j, prices);
      if item == "" {
        return Raised(EmptyLineIndex);
      }
      if item[0] == '$' {
        var price := PyStr.ParseFloat(item[1..]);
        if price.None? {
          return Raised(NotAFloat(item[1..]));
        }
        prices := prices + [price.value];
      }
      j := j + 1;
    }
    assert productData[..j] == productData;
    return Ok(prices);
  }

  // ----- Amazon prices -----

  /** `int(s)`, raising ValueError on anything but decimal digits. */
  function Int(s: string): Result<nat>
  {
    match PyStr.ParseInt(s)
    case Some(n) => Ok(n)
    case None => Raised(NotAnInt(s))
  }

  /** One Amazon price element (lines 90-96): the text after the first `S` is cut at its first
      two newlines into dollars and cents; the price is `int(dollars[1:]) + int(cents[:2]) / 100`.
      No `S` gives no price; a single field after the `S` fails to unpack. */
  function AmazonElementPrices(text: string): (r: Result<seq<real>>)
    ensures 'S' !in text ==> r == Ok([])
    ensures r.Ok? ==> |r.value| <= 1
  {
    var priceData := PyStr.Split(text, 'S');
    if |priceData| < 2 then Ok([]) else AmazonSegmentPrices(priceData[1])
  }

  /** `int(dollars) + int(cents) / 100`: Python's true division gives a float. */
  function PriceOf(dollars: nat, cents: nat): real
  {
    dollars as real + cents as real / 100.0
  }

  /** The price held by the text between an element's first and second `S`. */
  function AmazonSegmentPrices(priceString: string): (r: Result<seq<real>>)
    ensures '\n' !in priceString ==> r == Raised(TooFewFields)
    ensures r.Ok? ==> |r.value| == 1 && r.value[0] >= 0.0
  {
    var fields := PyStr.SplitMax(priceString, '\n', 2);
    PyStr.SplitMaxFirstFields(priceString, '\n');
    if |fields| < 2 then Raised(TooFewFields)
    else
      var dollars :- Int(PyStr.From(fields[0], 1));
      var cents :- Int(PyStr.UpTo(fields[1], 2));
      Ok([PriceOf(dollars, cents)])
  }

  function AmazonPrices(elements: seq<string>): Result<seq<real>>
  {
    Gather(AmazonElementPrices, elements)
  }

  /** An element without an `S` holds no price; otherwise it holds the price read from the
      text between its first and second `S`. */
  lemma AmazonElementPriceRange(text: string)
    requires AmazonElementPrices(text).Ok?
    ensures var priceData := PyStr.Split(text, 'S');
            && (|priceData| < 2 ==> AmazonElementPrices(text) == Ok([]))
            && (|priceData| >= 2 ==> AmazonElementPrices(text) == AmazonSegmentPrices(priceData[1]))
    ensures |AmazonElementPrices(text).value| <= 1
    ensures forall p :: p in AmazonElementPrices(text).value ==> IsWholeCents(p) && 0.0 <= p
  {
    var priceData := PyStr.Split(text, 'S');
    if |priceData| >= 2 {
      AmazonSegmentPriceRange(priceData[1]);
    }
  }

  /** Text after the first `S` with no newline cannot be unpacked into dollars and cents. */
  lemma AmazonSegmentWithoutNewline(before: string, segment: string)
    requires 'S' !in before && 'S' !in segment && '\n' !in segment
    ensures AmazonElementPrices(before + ['S'] + segment) == Raised(TooFewFields)
  {
    AfterFirstS(before, segment);
  }

  /** The price read from the text after the `S`: its first field without the `$` gives the
      dollars `D`, the first two characters of its second field the cents `C < 100`, and the
      price is `100 * D + C` cents, between `D` and `D + 0.99`. */
  lemma AmazonSegmentPriceRange(priceString: string)
    requires AmazonSegmentPrices(priceString).Ok?
    ensures var fields := PyStr.SplitMax(priceString, '\n', 2);
            && |fields| >= 2
            && Int(PyStr.From(fields[0], 1)).Ok? && Int(PyStr.UpTo(fields[1], 2)).Ok?
            && var d := Int(PyStr.From(fields[0], 1)).value;
               var c := Int(PyStr.UpTo(fields[1], 2)).value;
               var prices := AmazonSegmentPrices(priceString).value;
               && c < 100
               && |prices| == 1
               && prices[0] * 100.0 == (100 * d + c) as real
               && d as real <= prices[0] <= d as real + 0.99
               && IsWholeCents(prices[0])
  {
    var fields := PyStr.SplitMax(priceString, '\n', 2);
    var d := Int(PyStr.From(fields[0], 1)).value;
    var centsText := PyStr.UpTo(fields[1], 2);
    var c := Int(centsText).value;
    assert c < PyStr.Pow10(|centsText|) <= 100;
    DollarsCentsRange(d, c);
  }

  /** `D + C / 100` with `C < 100` is `100 * D + C` cents, between `D` and `D + 0.99`. */
  lemma DollarsCentsRange(d: nat, c: nat)
    requires c < 100
    ensures var p := PriceOf(d, c);
            p * 100.0 == (100 * d + c) as real && d as real <= p <= d as real + 0.99 && IsWholeCents(p)
  {
    var p := d as real + c as real / 100.0;
    assert p * 100.0 == (100 * d + c) as real;
  }

  /** Every price gathered from Amazon elements is a whole number of cents. */
  lemma {:induction false} AmazonPricesWholeCents(elements: seq<string>)
    requires AmazonPrices(elements).Ok?
    ensures forall p :: p in AmazonPrices(elements).value ==> IsWholeCents(p)
  {
    if elements != [] {
      var init := elements[..|elements| - 1];
      AmazonPricesWholeCents(init);
      AmazonElementPriceRange(elements[|elements| - 1]);
    }
  }

  /** A price rendered as `S$<dollars>` then `<two cent digits>` on the next line, with no
      `S` before it, reads back as dollars plus cents over 100 whatever text follows it: the
      cents are the first two characters of the line after the dollars. */
  lemma AmazonRenderedPrice(before: string, dollars: string, cents: string, after: string)
    requires 'S' !in before
    requires |dollars| > 0 && PyStr.AllDigits(dollars)
    requires |cents| == 2 && PyStr.AllDigits(cents)
    ensures AmazonElementPrices(before + "S$" + dollars + "\n" + cents + after)
         == Ok([PriceOf(PyStr.DigitsValue(dollars), PyStr.DigitsValue(cents))])
  {
    var head := "$" + dollars + "\n" + cents;
    assert before + "S$" + dollars + "\n" + cents + after == before + ['S'] + (head + after);
    NotInDigits(dollars, 'S');
    NotInDigits(cents, 'S');
    NotInDigits(dollars, '\n');
    NotInDigits(cents, '\n');
    assert 'S' !in head;
    var cut := after[..PyStr.IndexOf(after, 'S')];
    SegmentAfterCleanHead(before, head, after);
    assert head + cut == "$" + dollars + "\n" + cents + cut;
    AmazonSegmentPrice(dollars, cents, cut);
  }

  /** With no `S` before the first one nor in `head`, the segment read is `head` followed by
      `after` up to its first `S`. */
  lemma SegmentAfterCleanHead(before: string, head: string, after: string)
    requires 'S' !in before && 'S' !in head
    ensures AmazonElementPrices(before + ['S'] + (head + after))
         == AmazonSegmentPrices(head + after[..PyStr.IndexOf(after, 'S')])
  {
    var u := head + after;
    var j := PyStr.IndexOf(after, 'S');
    var fields := PyStr.Split(before + ['S'] + u, 'S');
    PyStr.SecondField(before, 'S', u);
    PyStr.IndexOfPastFree(head, 'S', after);
    PyStr.PrefixOfConcat(head, after, j);
    assert fields[1] == head + after[..j];
  }

  lemma NotInDigits(s: string, c: char)
    requires PyStr.AllDigits(s) && !PyStr.IsDigit(c)
    ensures c !in s
  {
    assert forall k :: 0 <= k < |s| ==> s[k] != c;
  }

  /** Only the text between the first and the second `S` is read: an `S` earlier in the
      element, as in `Save`, takes the place of the one in `S$`. */
  lemma AmazonEarlierS(before: string, segment: string, rest: string)
    requires 'S' !in before && 'S' !in segment
    ensures AmazonElementPrices(before + ['S'] + segment + ['S'] + rest) == AmazonSegmentPrices(segment)
  {
    var u := segment + ['S'] + rest;
    assert before + ['S'] + segment + ['S'] + rest == before + ['S'] + u;
    PyStr.SecondField(before, 'S', u);
    PyStr.IndexOfAfterFreePrefix(segment, 'S', rest);
    assert u[..|segment|] == segment;
  }

  /** `Save S$12` then `34` does not read as 12.34: the text after the first `S` is `ave `,
      which has no newline and fails to unpack. */
  lemma AmazonSaveRaises(text: string)
    requires text == "Save S$12\n34"
    ensures AmazonElementPrices(text) == Raised(TooFewFields)
  {
    var segment := text[1..5];
    assert forall k :: 0 <= k < |segment| ==> segment[k] != 'S' && segment[k] != '\n';
    assert text == [] + ['S'] + segment + ['S'] + text[6..];
    AmazonEarlierS([], segment, text[6..]);
  }


  lemma AmazonSegmentPrice(dollars: string, cents: string, after: string)
    requires |dollars| > 0 && PyStr.AllDigits(dollars) && '\n' !in dollars
    requires |cents| == 2 && PyStr.AllDigits(cents) && '\n' !in cents
    ensures AmazonSegmentPrices("$" + dollars + "\n" + cents + after)
         == Ok([PriceOf(PyStr.DigitsValue(dollars), PyStr.DigitsValue(cents))])
  {
    var segment := "$" + dollars + "\n" + cents + after;
    var fields := PyStr.SplitMax(segment, '\n', 2);
    DollarsAndCents(dollars, cents, after);
    assert |fields| >= 2;
    IntOfDigits(dollars);
    IntOfDigits(cents);
    assert Int(PyStr.From(fields[0], 1)) == Ok(PyStr.DigitsValue(dollars));
    assert Int(PyStr.UpTo(fields[1], 2)) == Ok(PyStr.DigitsValue(cents));
    var d, c := PyStr.DigitsValue(dollars), PyStr.DigitsValue(cents);
    SegmentOfFields(segment, d, c);
  }

  lemma SegmentOfFields(priceString: string, d: nat, c: nat)
    requires var fields := PyStr.SplitMax(priceString, '\n', 2);
             |fields| >= 2 && Int(PyStr.From(fields[0], 1)) == Ok(d) && Int(PyStr.UpTo(fields[1], 2)) == Ok(c)
    ensures AmazonSegmentPrices(priceString) == Ok([PriceOf(d, c)])
  {
  }

  lemma IntOfDigits(s: string)
    requires |s| > 0 && PyStr.AllDigits(s)
    ensures Int(s) == Ok(PyStr.DigitsValue(s))
  {
  }

  lemma AfterFirstS(before: string, segment: string)
    requires 'S' !in before && 'S' !in segment
    ensures AmazonElementPrices(before + ['S'] + segment) == AmazonSegmentPrices(segment)
  {
    PyStr.SplitAfterFreePrefix(before, 'S', segment);
    assert PyStr.Split(segment, 'S') == [segment];
  }

  lemma DollarsAndCents(dollars: string, cents: string, after: string)
    requires '\n' !in dollars && |cents| == 2 && '\n' !in cents
    ensures var fields := PyStr.SplitMax("$" + dollars + "\n" + cents + after, '\n', 2);
            |fields| >= 2 && PyStr.From(fields[0], 1) == dollars && PyStr.UpTo(fields[1], 2) == cents
  {
    DollarLine(dollars);
    var head, rest := "$" + dollars, cents + after;
    var segment := head + ['\n'] + rest;
    assert "$" + dollars + "\n" + cents + after == segment;
    assert '\n' !in head;
    PyStr.SplitMaxAfterFreePrefix(head, '\n', rest, 2);
    PyStr.SplitMaxFirstField(rest, '\n', 1);
    CentsBeforeNewline(cents, after);
  }

  /** The line after the dollars starts with the two cent digits, whatever follows them. */
  lemma CentsBeforeNewline(cents: string, after: string)
    requires |cents| == 2 && '\n' !in cents
    ensures var rest := cents + after;
            PyStr.UpTo(rest[..PyStr.IndexOf(rest, '\n')], 2) == cents
  {
    var rest := cents + after;
    var i := PyStr.IndexOf(rest, '\n');
    assert rest[0] == cents[0] && rest[1] == cents[1];
    assert i >= 2;
    assert rest[..i][..2] == cents;
  }

  /** Lines 86-96: one price per Amazon element that has an `S`, in order; the first element
      that fails to unpack or to convert ends the loop with its exception. */
  method CollectAmazonPrices(elements: seq<string>) returns (r: Result<seq<real>>)
    ensures r == AmazonPrices(elements)
  {
    var prices: seq<real> := [];
    var i := 0;
    while i < |elements|
      invariant 0 <= i <= |elements|
      invariant AmazonPrices(elements[..i]) == Ok(prices)
    {
      GatherExtends(AmazonElementPrices, elements, i, prices);
      var priceData := PyStr.Split(elements[i], 'S');
      if |priceData| < 2 {
        assert prices + [] == prices;
        i := i + 1;
        continue;
      }
      var priceString := priceData[1];
      var fields := PyStr.SplitMax(priceString, '\n', 2);
      if |fields| < 2 {
        GatherFailurePersists(AmazonElementPrices, elements, i + 1);
        return Raised(TooFewFields);
      }
      var dollars := Int(PyStr.From(fields[0], 1));
      if dollars.Raised? {
        GatherFailurePersists(AmazonElementPrices, elements, i + 1);
        return Raised(dollars.error);
      }
      var cents := Int(PyStr.UpTo(fields[1], 2));
      if cents.Raised? {
        GatherFailurePersists(AmazonElementPrices, elements, i + 1);
        return Raised(cents.error);
      }
      prices := prices + [PriceOf(dollars.value, cents.value)];
      i := i + 1;
    }
    assert elements[..i] == elements;
    return Ok(prices);
  }

  // ----- summary -----

  /** Lines 55-61: the record tagged with the query id and storefront name; `min([])` raises
      when no price was collected. */
  function Summarize(id: int, name: string, prices: seq<real>): (r: Result<PriceStats>)
    ensures r.Ok? <==> |prices| > 0
    ensures r.Raised? ==> r.error == EmptyPrices
    ensures r.Ok? ==> r.value.queryId == id && r.value.ecommerceName == name
    ensures r.Ok? ==> r.value.lowest in prices && r.value.highest in prices
    ensures r.Ok? ==> forall k :: 0 <= k < |prices| ==> r.value.lowest <= prices[k] <= r.value.highest
    ensures r.Ok? ==> r.value.mean == Sum(prices) / |prices| as real
    ensures r.Ok? ==> r.value.median == Round2(Median(prices))
    ensures r.Ok? ==> r.value.lowest <= r.value.mean <= r.value.highest
    ensures r.Ok? ==> r.value.lowest <= Median(prices) <= r.value.highest
    ensures r.Ok? ==> -0.005 <= r.value.median - Median(prices) <= 0.005
    ensures r.Ok? && IsWholeCents(r.value.lowest) && IsWholeCents(r.value.highest) ==>
              r.value.lowest <= r.value.median <= r.value.highest
  {
    if prices == [] then Raised(EmptyPrices)
    else
      MeanBounds(prices);
      MedianBounds(prices);
      Round2Error(Median(prices));
      RoundedMedianBounds(prices);
      Ok(PriceStats(id, name, Min(prices), Max(prices), Round2(Median(prices)), Mean(prices)))
  }

  /** The record depends only on which prices were collected, not on their order. */
  lemma SummarizeOrderIndependent(id: int, name: string, prices: seq<real>, reordered: seq<real>)
    requires multiset(prices) == multiset(reordered)
    ensures Summarize(id, name, prices) == Summarize(id, name, reordered)
  {
    if prices != [] {
      StatsOrderIndependent(prices, reordered);
    } else {
      assert |reordered| == |multiset(reordered)| == 0;
    }
  }

  // ----- the two scrapers -----

  /** What `scrape_lazada` returns for the listing elements it finds: `None` for no elements,
      otherwise the record of the prices of the kept listings. */
  function LazadaOutcome(context: QueryContexts.QueryContext, elements: seq<string>): (r: Result<Option<PriceStats>>)
    ensures r == Ok(None) <==> elements == []
    ensures r.Ok? && r.value.Some? ==> r.value.value.queryId == context.id && r.value.value.ecommerceName == "lazada"
  {
    if |elements| == 0 then Ok(None)
    else
      var prices :- LazadaPrices(Filtered(elements, context.excludeTerms));
      var stats :- Summarize(context.id, "lazada", prices);
      Ok(Some(stats))
  }

  /** What `scrape_amazon` returns for the price elements it finds. */
  function AmazonOutcome(context: QueryContexts.QueryContext, elements: seq<string>): (r: Result<Option<PriceStats>>)
    ensures r == Ok(None) <==> elements == []
    ensures r.Ok? && r.value.Some? ==> r.value.value.queryId == context.id && r.value.value.ecommerceName == "amazon"
  {
    if |elements| == 0 then Ok(None)
    else
      var prices :- AmazonPrices(Filtered(elements, context.excludeTerms));
      var stats :- Summarize(context.id, "amazon", prices);
      Ok(Some(stats))
  }

  /** `scrape_lazada`: navigate to the search URL, wait, and extract in `finally`. The
      `return` inside `finally` discards whatever the wait raised, a timeout or not, so the
      result depends only on the elements present. */
  method ScrapeLazada(browser: string -> Page, context: QueryContexts.QueryContext)
    returns (r: Result<Option<PriceStats>>)
    ensures r == LazadaOutcome(context, browser(SearchUrl(BaseUrlLazada, DelimiterLazada, context.queryTerms)).elements)
  {
    var fullQueryUrl := GetFullQueryUrl(BaseUrlLazada, DelimiterLazada, context.queryTerms);
    var page := browser(fullQueryUrl);
    var elements := page.elements;
    if |elements| == 0 {
      return Ok(None);
    }
    if |context.excludeTerms| > 0 {
      elements := Exclude(elements, context.excludeTerms);
    }
    var prices := CollectLazadaPrices(elements);
    if prices.Raised? {
      return Raised(prices.error);
    }
    var stats := Summarize(context.id, "lazada", prices.value);
    if stats.Raised? {
      return Raised(stats.error);
    }
    return Ok(Some(stats.value));
  }

  /** `scrape_amazon`, the same steps with the Amazon URL, selector and parser. */
  method ScrapeAmazon(browser: string -> Page, context: QueryContexts.QueryContext)
    returns (r: Result<Option<PriceStats>>)
    ensures r == AmazonOutcome(context, browser(SearchUrl(BaseUrlAmazon, DelimiterAmazon, context.queryTerms)).elements)
  {
    var fullQueryUrl := GetFullQueryUrl(BaseUrlAmazon, DelimiterAmazon, context.queryTerms);
    var page := browser(fullQueryUrl);
    var elements := page.elements;
    if |elements| == 0 {
      return Ok(None);
    }
    if |context.excludeTerms| > 0 {
      elements := Exclude(elements, context.excludeTerms);
    }
    var prices := CollectAmazonPrices(elements);
    if prices.Raised? {
      return Raised(prices.error);
    }
    var stats := Summarize(context.id, "amazon", prices.value);
    if stats.Raised? {
      return Raised(stats.error);
    }
    return Ok(Some(stats.value));
  }

  // ----- properties of the outcomes -----

  /** `None` comes only from an empty element list; elements that yield no price reach
      `min([])` and raise. */
  lemma LazadaNoneOnlyWithoutElements(context: QueryContexts.QueryContext, elements: seq<string>)
    ensures LazadaOutcome(context, elements) == Ok(None) <==> elements == []
    ensures elements != [] && LazadaPrices(Filtered(elements, context.excludeTerms)) == Ok([]) ==>
              LazadaOutcome(context, elements) == Raised(EmptyPrices)
  {
  }

  lemma AmazonNoneOnlyWithoutElements(context: QueryContexts.QueryContext, elements: seq<string>)
    ensures AmazonOutcome(context, elements) == Ok(None) <==> elements == []
    ensures elements != [] && AmazonPrices(Filtered(elements, context.excludeTerms)) == Ok([]) ==>
              AmazonOutcome(context, elements) == Raised(EmptyPrices)
  {
  }

  // ----- order of the elements -----

  /** The prices the items yield, pooled without regard to order; an item that raises adds none. */
  ghost function Pool(parse: string -> Result<seq<real>>, items: seq<string>): multiset<real>
  {
    if items == [] then multiset{}
    else Pool(parse, items[..|items| - 1]) + Yield(parse, items[|items| - 1])
  }

  ghost function Yield(parse: string -> Result<seq<real>>, item: string): multiset<real>
  {
    var r := parse(item);
    if r.Ok? then multiset(r.value) else multiset{}
  }

  /** Gathered prices are the pool of the items. */
  lemma {:induction false} GatherPool(parse: string -> Result<seq<real>>, items: seq<string>)
    requires Gather(parse, items).Ok?
    ensures multiset(Gather(parse, items).value) == Pool(parse, items)
  {
    if items != [] {
      GatherPool(parse, items[..|items| - 1]);
    }
  }

  /** The pool depends only on the multiset of items. */
  lemma {:induction false} PoolPermutation(parse: string -> Result<seq<real>>, items: seq<string>, reordered: seq<string>)
    requires multiset(items) == multiset(reordered)
    ensures Pool(parse, items) == Pool(parse, reordered)
    decreases |items|
  {
    if items == [] {
      assert |reordered| == |multiset(reordered)| == 0;
    } else {
      var n := |items| - 1;
      var last := items[n];
      assert last in multiset(reordered);
      var j :| 0 <= j < |reordered| && reordered[j] == last;
      var front, back := reordered[..j], reordered[j + 1..];
      RemoveOne(items, reordered, front, back);
      PoolPermutation(parse, items[..n], front + back);
      PoolRemove(parse, reordered, j);
    }
  }

  /** Taking one item out of the list takes its prices out of the pool. */
  lemma {:induction false} PoolRemove(parse: string -> Result<seq<real>>, items: seq<string>, j: nat)
    requires j < |items|
    ensures Pool(parse, items) == Pool(parse, items[..j] + items[j + 1..]) + Yield(parse, items[j])
    decreases |items|
  {
    var n := |items| - 1;
    var init := items[..n];
    if j == n {
      assert items[..j] + items[j + 1..] == init;
    } else {
      PoolRemove(parse, init, j);
      RemovedBeforeLast(parse, items, j);
      Rearrange(Pool(parse, items), Pool(parse, init), Yield(parse, items[n]), Pool(parse, init[..j] + init[j + 1..]),
                Pool(parse, items[..j] + items[j + 1..]), Yield(parse, items[j]));
    }
  }

  /** Removing an item before the last one keeps the last one last. */
  lemma RemovedBeforeLast(parse: string -> Result<seq<real>>, items: seq<string>, j: nat)
    requires j < |items| - 1
    ensures var init := items[..|items| - 1];
            && init[j] == items[j]
            && Pool(parse, items[..j] + items[j + 1..]) == Pool(parse, init[..j] + init[j + 1..]) + Yield(parse, items[|items| - 1])
  {
    var init := items[..|items| - 1];
    var rest := items[..j] + items[j + 1..];
    assert rest[..|rest| - 1] == init[..j] + init[j + 1..];
    assert rest[|rest| - 1] == items[|items| - 1];
  }

  lemma Rearrange(whole: multiset<real>, init: multiset<real>, last: multiset<real>, restInit: multiset<real>,
                  rest: multiset<real>, removed: multiset<real>)
    requires whole == init + last && init == restInit + removed && rest == restInit + last
    ensures whole == rest + removed
  {
  }

  lemma RemoveOne<T>(items: seq<T>, reordered: seq<T>, front: seq<T>, back: seq<T>)
    requires |items| > 0 && multiset(items) == multiset(reordered)
    requires |front| < |reordered| && front == reordered[..|front|] && back == reordered[|front| + 1..]
    requires reordered[|front|] == items[|items| - 1]
    ensures multiset(front + back) == multiset(items[..|items| - 1])
  {
    var last := items[|items| - 1];
    assert reordered == front + [last] + back;
    assert items == items[..|items| - 1] + [last];
    assert multiset(reordered) == multiset(front) + multiset{last} + multiset(back);
    assert multiset(items) == multiset(items[..|items| - 1]) + multiset{last};
    forall x
      ensures multiset(front + back)[x] == multiset(items[..|items| - 1])[x]
    {
      assert multiset(front + back)[x] == multiset(front)[x] + multiset(back)[x];
      assert multiset(reordered)[x] == multiset(front)[x] + multiset{last}[x] + multiset(back)[x];
      assert multiset(items)[x] == multiset(items[..|items| - 1])[x] + multiset{last}[x];
    }
  }

  /** Gathering succeeds exactly when every item parses. */
  lemma {:induction false} GatherOkEvery(parse: string -> Result<seq<real>>, items: seq<string>)
    ensures Gather(parse, items).Ok? <==> forall k :: 0 <= k < |items| ==> parse(items[k]).Ok?
  {
    if items != [] {
      var init := items[..|items| - 1];
      GatherOkEvery(parse, init);
      GatherOkStep(parse, items);
      EveryOneSplit(x => parse(x).Ok?, items, init);
    }
  }

  lemma EveryOkPermutation(parse: string -> Result<seq<real>>, items: seq<string>, reordered: seq<string>)
    requires multiset(items) == multiset(reordered)
    requires forall k :: 0 <= k < |items| ==> parse(items[k]).Ok?
    ensures forall k :: 0 <= k < |reordered| ==> parse(reordered[k]).Ok?
  {
    forall k | 0 <= k < |reordered|
      ensures parse(reordered[k]).Ok?
    {
      assert reordered[k] in multiset(items);
      var i :| 0 <= i < |items| && items[i] == reordered[k];
    }
  }

  /** Gathering a reordering of the items succeeds exactly when gathering the items does,
      and then gives the same prices in some order. */
  lemma GatherPermutation(parse: string -> Result<seq<real>>, items: seq<string>, reordered: seq<string>)
    requires multiset(items) == multiset(reordered)
    ensures Gather(parse, items).Ok? <==> Gather(parse, reordered).Ok?
    ensures Gather(parse, items).Ok? ==>
              multiset(Gather(parse, items).value) == multiset(Gather(parse, reordered).value)
  {
    GatherOkEvery(parse, items);
    GatherOkEvery(parse, reordered);
    if Gather(parse, items).Ok? {
      EveryOkPermutation(parse, items, reordered);
      GatherPool(parse, items);
      GatherPool(parse, reordered);
      PoolPermutation(parse, items, reordered);
    }
    if Gather(parse, reordered).Ok? {
      EveryOkPermutation(parse, reordered, items);
    }
  }

  /** How often the filter keeps a text: as often as it occurs, unless it is an exclude term. */
  lemma {:induction false} ExcludeCount(elements: seq<string>, excludeTerms: seq<string>, x: string)
    ensures multiset(Exclude(elements, excludeTerms))[x] == if x in excludeTerms then 0 else multiset(elements)[x]
  {
    if elements != [] {
      var first, tail := elements[0], elements[1..];
      ExcludeCount(tail, excludeTerms, x);
      assert elements == [first] + tail;
      assert Exclude(elements, excludeTerms) == (if first in excludeTerms then [] else [first]) + Exclude(tail, excludeTerms);
      CountAfterHead(first, first in excludeTerms, Exclude(tail, excludeTerms), tail, x, x in excludeTerms);
    }
  }

  /** The count step of the filter, with the filter itself out of sight. */
  lemma CountAfterHead(first: string, dropped: bool, kept: seq<string>, tail: seq<string>, x: string, excluded: bool)
    requires first == x ==> dropped == excluded
    requires multiset(kept)[x] == if excluded then 0 else multiset(tail)[x]
    ensures multiset((if dropped then [] else [first]) + kept)[x] == if excluded then 0 else multiset([first] + tail)[x]
  {
  }

  /** Filtering a reordering of the elements keeps a reordering of what was kept. */
  lemma FilteredPermutation(elements: seq<string>, reordered: seq<string>, excludeTerms: seq<string>)
    requires multiset(elements) == multiset(reordered)
    ensures multiset(Filtered(elements, excludeTerms)) == multiset(Filtered(reordered, excludeTerms))
  {
    if |excludeTerms| > 0 {
      forall x
        ensures multiset(Exclude(elements, excludeTerms))[x] == multiset(Exclude(reordered, excludeTerms))[x]
      {
        ExcludeCount(elements, excludeTerms, x);
        ExcludeCount(reordered, excludeTerms, x);
      }
    }
  }

  /** The order in which the page lists the Lazada elements does not matter: the same
      elements in another order succeed exactly when the original ones do, with the same record. */
  lemma LazadaElementOrderIndependent(context: QueryContexts.QueryContext, elements: seq<string>, reordered: seq<string>)
    requires multiset(elements) == multiset(reordered)
    ensures LazadaOutcome(context, elements).Ok? <==> LazadaOutcome(context, reordered).Ok?
    ensures LazadaOutcome(context, elements).Ok? ==> LazadaOutcome(context, elements) == LazadaOutcome(context, reordered)
  {
    assert |elements| == |multiset(elements)| == |multiset(reordered)| == |reordered|;
    var kept, keptReordered := Filtered(elements, context.excludeTerms), Filtered(reordered, context.excludeTerms);
    FilteredPermutation(elements, reordered, context.excludeTerms);
    GatherPermutation(LazadaElementPrices, kept, keptReordered);
    if LazadaPrices(kept).Ok? {
      SummarizeOrderIndependent(context.id, "lazada", LazadaPrices(kept).value, LazadaPrices(keptReordered).value);
    }
  }

  /** The same for the Amazon price elements. */
  lemma AmazonElementOrderIndependent(context: QueryContexts.QueryContext, elements: seq<string>, reordered: seq<string>)
    requires multiset(elements) == multiset(reordered)
    ensures AmazonOutcome(context, elements).Ok? <==> AmazonOutcome(context, reordered).Ok?
    ensures AmazonOutcome(context, elements).Ok? ==> AmazonOutcome(context, elements) == AmazonOutcome(context, reordered)
  {
    assert |elements| == |multiset(elements)| == |multiset(reordered)| == |reordered|;
    var kept, keptReordered := Filtered(elements, context.excludeTerms), Filtered(reordered, context.excludeTerms);
    FilteredPermutation(elements, reordered, context.excludeTerms);
    GatherPermutation(AmazonElementPrices, kept, keptReordered);
    if AmazonPrices(kept).Ok? {
      SummarizeOrderIndependent(context.id, "amazon", AmazonPrices(kept).value, AmazonPrices(keptReordered).value);
    }
  }

  /** A Lazada record carries the context's id and "lazada", and its mean and unrounded
      median lie between its lowest and highest prices. */
  lemma LazadaRecord(context: QueryContexts.QueryContext, elements: seq<string>)
    requires LazadaOutcome(context, elements).Ok? && LazadaOutcome(context, elements).value.Some?
    ensures var stats := LazadaOutcome(context, elements).value.value;
            var prices := LazadaPrices(Filtered(elements, context.excludeTerms)).value;
            && stats.queryId == context.id && stats.ecommerceName == "lazada"
            && stats.lowest <= stats.mean <= stats.highest
            && stats.lowest <= Median(prices) <= stats.highest
  {
  }

  /** An Amazon record carries the context's id and "amazon", and since Amazon prices are whole
      cents, even its rounded median lies between its lowest and highest prices. */
  lemma AmazonRecord(context: QueryContexts.QueryContext, elements: seq<string>)
    requires AmazonOutcome(context, elements).Ok? && AmazonOutcome(context, elements).value.Some?
    ensures var stats := AmazonOutcome(context, elements).value.value;
            && stats.queryId == context.id && stats.ecommerceName == "amazon"
            && stats.lowest <= stats.mean <= stats.highest
            && stats.lowest <= stats.median <= stats.highest
  {
    var prices := AmazonPrices(Filtered(elements, context.excludeTerms)).value;
    AmazonPricesWholeCents(Filtered(elements, context.excludeTerms));
  }
}
