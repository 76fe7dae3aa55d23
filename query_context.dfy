/** Loading the saved searches: one `QueryContext` per row of the `queries` table. */
module QueryContexts {
  import opened Results
  import PyStr

  /** A column of a fetched row: absent from the row, SQL NULL, or text. */
  datatype Field = Absent | Null | Text(s: string)

  /** A row of `select('*')` on `queries`; `id` is the table's key and always present. */
  datatype QueryRow = QueryRow(id: int, queryString: Field, excludeString: Field)

  datatype QueryContext = QueryContext(id: int, queryTerms: seq<string>, excludeTerms: seq<string>)

  /** `row.get(column, '').split(' ')`: an absent column reads as `''`; NULL has no `split`. */
  function SplitField(f: Field): (r: Result<seq<string>>)
    ensures r.Ok? <==> !f.Null?
    ensures f.Absent? ==> r == Ok([""])
    ensures r.Ok? ==> |r.value| >= 1
  {
    match f
    case Absent => Ok(PyStr.Split("", ' '))
    case Null => Raised(NoneAttribute("split"))
    case Text(s) => Ok(PyStr.Split(s, ' '))
  }

  /** The text a present column holds, `''` for an absent one. */
  function FieldText(f: Field): string
  {
    if f.Text? then f.s else ""
  }

  /** One row to one context (query_context.py:16-19): the row's id, and the two columns split
      on single spaces. */
  function ContextOf(row: QueryRow): (r: Result<QueryContext>)
    ensures r.Ok? <==> !row.queryString.Null? && !row.excludeString.Null?
    ensures r.Ok? ==> r.value.id == row.id
    ensures r.Ok? ==> PyStr.Join(r.value.queryTerms, " ") == FieldText(row.queryString)
    ensures r.Ok? ==> forall k :: 0 <= k < |r.value.queryTerms| ==> ' ' !in r.value.queryTerms[k]
    ensures r.Ok? ==> PyStr.Join(r.value.excludeTerms, " ") == FieldText(row.excludeString)
    ensures r.Ok? ==> forall k :: 0 <= k < |r.value.excludeTerms| ==> ' ' !in r.value.excludeTerms[k]
    ensures r.Ok? ==> |r.value.excludeTerms| >= 1
  {
    var queryTerms :- SplitField(row.queryString);
    var excludeTerms :- SplitField(row.excludeString);
    PyStr.JoinSplit(FieldText(row.queryString), ' ');
    PyStr.JoinSplit(FieldText(row.excludeString), ' ');
    Ok(QueryContext(row.id, queryTerms, excludeTerms))
  }

  /** The terms of a loaded context are exactly the single-space split of the column: no other
      list of space-free terms joins back to the same text. */
  lemma TermsAreTheSplit(row: QueryRow)
    requires ContextOf(row).Ok?
    ensures ContextOf(row).value.queryTerms == PyStr.Split(FieldText(row.queryString), ' ')
    ensures ContextOf(row).value.excludeTerms == PyStr.Split(FieldText(row.excludeString), ' ')
  {
    var context := ContextOf(row).value;
    PyStr.SplitJoin(context.queryTerms, ' ');
    PyStr.SplitJoin(context.excludeTerms, ' ');
  }

  /** The contexts of `rows`, in row order, or the first exception. */
  function ContextsOf(rows: seq<QueryRow>): Result<seq<QueryContext>>
  {
    ReadAll(ContextOf, rows)
  }

  /** `get_query_context_list`, with the fetched rows as input: `None` for no rows, otherwise
      one context per row in row order; a NULL search column raises. */
  method GetQueryContextList(rows: seq<QueryRow>) returns (r: Result<Option<seq<QueryContext>>>)
    ensures |rows| == 0 ==> r == Ok(None)
    ensures |rows| > 0 ==> r == match ContextsOf(rows)
                               case Ok(contexts) => Ok(Some(contexts))
                               case Raised(e) => Raised(e)
  {
    var contextList: seq<QueryContext> := [];
    if |rows| == 0 {
      return Ok(None);
    }
    var i := 0;
    while i < |rows|
      invariant 0 <= i <= |rows|
      invariant ContextsOf(rows[..i]) == Ok(contextList)
    {
      var row := rows[i];
      ReadAllStep(ContextOf, rows, i, contextList);
      var queryTerms := SplitField(row.queryString);
      if queryTerms.Raised? {
        ReadAllFailurePersists(ContextOf, rows, i + 1);
        return Raised(queryTerms.error);
      }
      var excludeTerms := SplitField(row.excludeString);
      if excludeTerms.Raised? {
        ReadAllFailurePersists(ContextOf, rows, i + 1);
        return Raised(excludeTerms.error);
      }
      contextList := contextList + [QueryContext(row.id, queryTerms.value, excludeTerms.value)];
      i := i + 1;
    }
    assert rows[..i] == rows;
    return Ok(Some(contextList));
  }
}
