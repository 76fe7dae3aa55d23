/** The older loader: contexts without an id, built from a `select('query_string')`. */
module Contexts {
  import opened Results
  import PyStr
  import QueryContexts

  /** A row of `select('query_string')`: the only column fetched. */
  datatype QueryStringRow = QueryStringRow(queryString: QueryContexts.Field)

  datatype QueryContext = QueryContext(queryTerms: seq<string>, excludeTerms: seq<string>)

  /** One row to one context (context.py:15-17). `exclude_string` was not selected, so it is
      always absent and every context excludes exactly the empty term. */
  function ContextOf(row: QueryStringRow): (r: Result<QueryContext>)
    ensures r.Ok? <==> !row.queryString.Null?
    ensures r.Ok? ==> PyStr.Join(r.value.queryTerms, " ") == QueryContexts.FieldText(row.queryString)
    ensures r.Ok? ==> forall k :: 0 <= k < |r.value.queryTerms| ==> ' ' !in r.value.queryTerms[k]
    ensures r.Ok? ==> r.value.excludeTerms == [""]
  {
    var queryTerms :- QueryContexts.SplitField(row.queryString);
    var excludeTerms := QueryContexts.SplitField(QueryContexts.Absent).value;
    PyStr.JoinSplit(QueryContexts.FieldText(row.queryString), ' ');
    Ok(QueryContext(queryTerms, excludeTerms))
  }

  /** The terms of a loaded context are exactly the single-space split of `query_string`. */
  lemma TermsAreTheSplit(row: QueryStringRow)
    requires ContextOf(row).Ok?
    ensures ContextOf(row).value.queryTerms == PyStr.Split(QueryContexts.FieldText(row.queryString), ' ')
  {
    PyStr.SplitJoin(ContextOf(row).value.queryTerms, ' ');
  }

  /** The contexts of `rows`, in row order, or the first exception. */
  function ContextsOf(rows: seq<QueryStringRow>): Result<seq<QueryContext>>
  {
    ReadAll(ContextOf, rows)
  }

  /** `get_query_context_list` of context.py: `None` for no rows, otherwise one context per row
      in row order. */
  method GetQueryContextList(rows: seq<QueryStringRow>) returns (r: Result<Option<seq<QueryContext>>>)
    ensures |rows| == 0 ==> r == Ok(None)
    ensures |rows| > 0 ==> r == match ContextsOf(rows)
                               case Ok(contexts) => Ok(Some(contexts))
                               case Raised(e) => Raised(e)
  {
    var contextList: seq<QueryContext> := [];
    if |rows| == 0 {
      return Ok(None);
    }
    var i := 0;
    while i < |rows|
      invariant 0 <= i <= |rows|
      invariant ContextsOf(rows[..i]) == Ok(contextList)
    {
      var query := rows[i];
      ReadAllStep(ContextOf, rows, i, contextList);
      var queryTerms := QueryContexts.SplitField(query.queryString);
      if queryTerms.Raised? {
        ReadAllFailurePersists(ContextOf, rows, i + 1);
        return Raised(queryTerms.error);
      }
      var excludeTerms := QueryContexts.SplitField(QueryContexts.Absent);
      contextList := contextList + [QueryContext(queryTerms.value, excludeTerms.value)];
      i := i + 1;
    }
    assert rows[..i] == rows;
    return Ok(Some(contextList));
  }
}
