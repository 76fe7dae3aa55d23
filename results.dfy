/** Outcomes of a Python call: a value, or one of the exceptions the scraping core can raise. */
module Results {

  datatype Option<+T> = None | Some(value: T)

  /** The exceptions the core raises, named after the expression that raises them. */
  datatype Error =
    | EmptyLineIndex                // `item[0]` on an empty line: IndexError
    | NotAFloat(text: string)       // `float(text)` rejects the text: ValueError
    | NotAnInt(text: string)        // `int(text)` rejects the text: ValueError
    | TooFewFields                  // `dollars, cents, *metadata = ...` with one field: ValueError
    | EmptyPrices                   // `min([])`: ValueError
    | NoneAttribute(name: string)   // an attribute read on `None`: AttributeError
    | MissingAttribute(name: string)// an attribute the object was never given: AttributeError
    | NoneNotIterable               // `for ctx in None`: TypeError
    | DriverFailure                 // navigation or the wait raised something other than a timeout

  /** A call either returns a value or raises; `:-` propagates the first exception. */
  datatype Result<+T> = Ok(value: T) | Raised(error: Error) {
    predicate IsFailure() { Raised? }

    function PropagateFailure<U>(): Result<U>
      requires Raised?
    {
      Raised(error)
    }

    function Extract(): T
      requires Ok?
    {
      value
    }
  }

  /** Items read one by one: appending the last item's value keeps every item matched to
      its own value. */
  lemma AppendRead<A, B>(read: A -> Result<B>, items: seq<A>, init: seq<B>, last: B)
    requires |items| > 0 && |init| == |items| - 1
    requires forall k :: 0 <= k < |init| ==> read(items[k]) == Ok(init[k])
    requires read(items[|items| - 1]) == Ok(last)
    ensures forall k :: 0 <= k < |items| ==> read(items[k]) == Ok((init + [last])[k])
  {
  }

  /** A loop that reads every item in turn and appends its value: the values of `items`, in
      order, or the first exception raised. */
  function ReadAll<A, B>(read: A -> Result<B>, items: seq<A>): (r: Result<seq<B>>)
    ensures r.Ok? ==> |r.value| == |items|
    ensures r.Ok? ==> forall k :: 0 <= k < |items| ==> read(items[k]) == Ok(r.value[k])
    ensures r.Raised? ==> exists k :: 0 <= k < |items| && read(items[k]) == Raised(r.error) &&
                                      forall j :: 0 <= j < k ==> read(items[j]).Ok?
  {
    if items == [] then Ok([])
    else
      var prefix := items[..|items| - 1];
      assert forall k :: 0 <= k < |items| - 1 ==> prefix[k] == items[k];
      var init :- ReadAll(read, prefix);
      var last :- read(items[|items| - 1]);
      AppendRead(read, items, init, last);
      Ok(init + [last])
  }

  /** Reading all items fails exactly when reading one of them fails. */
  lemma {:induction false} ReadAllFails<A, B>(read: A -> Result<B>, items: seq<A>)
    ensures ReadAll(read, items).Raised? <==> exists k :: 0 <= k < |items| && read(items[k]).Raised?
  {
    if items != [] {
      var init := items[..|items| - 1];
      ReadAllFails(read, init);
      if ReadAll(read, init).Raised? {
        var k :| 0 <= k < |init| && read(init[k]).Raised?;
        assert items[k] == init[k];
      }
      if exists k :: 0 <= k < |items| && read(items[k]).Raised? {
        var k :| 0 <= k < |items| && read(items[k]).Raised?;
        if k < |init| {
          assert init[k] == items[k];
        }
      }
    }
  }

  /** One more item: its value is appended, or its exception is the result. */
  lemma ReadAllStep<A, B>(read: A -> Result<B>, items: seq<A>, i: nat, before: seq<B>)
    requires i < |items| && ReadAll(read, items[..i]) == Ok(before)
    ensures read(items[i]).Raised? ==> ReadAll(read, items[..i + 1]) == Raised(read(items[i]).error)
    ensures read(items[i]).Ok? ==> ReadAll(read, items[..i + 1]) == Ok(before + [read(items[i]).value])
  {
    assert items[..i + 1][..i] == items[..i];
  }

  /** Once a prefix of the items raises, so do all the items, with the same exception. */
  lemma {:induction false} ReadAllFailurePersists<A, B>(read: A -> Result<B>, items: seq<A>, n: nat)
    requires n <= |items|
    requires ReadAll(read, items[..n]).Raised?
    ensures ReadAll(read, items) == ReadAll(read, items[..n])
    decreases |items| - n
  {
    if n < |items| {
      assert items[..n + 1][..n] == items[..n];
      ReadAllFailurePersists(read, items, n + 1);
    } else {
      assert items[..n] == items;
    }
  }
}
