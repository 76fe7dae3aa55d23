/** The parts of Python's `str` that the scraper relies on: `split`, `join`, slicing,
    and `int()` / `float()` restricted to plain decimal digits. */
module PyStr {
  import opened Results

  /** Position of the first `c` in `s`, or `|s|` when `s` has none. */
  function IndexOf(s: string, c: char): (i: nat)
    ensures i <= |s|
    ensures i < |s| ==> s[i] == c
    ensures forall k :: 0 <= k < i ==> s[k] != c
    ensures i == |s| <==> c !in s
  {
    if s == [] then 0
    else if s[0] == c then 0
    else 1 + IndexOf(s[1..], c)
  }

  /** `s.split(sep)` for a one-character separator: every field is kept, empty ones
      included, so `"".split(sep)` is `[""]`. */
  function Split(s: string, sep: char): (fields: seq<string>)
    ensures |fields| >= 1
    ensures |fields| == 1 <==> sep !in s
    ensures forall k :: 0 <= k < |fields| ==> sep !in fields[k]
    decreases |s|
  {
    var i := IndexOf(s, sep);
    if i == |s| then [s] else [s[..i]] + Split(s[i + 1..], sep)
  }

  /** `s.split(sep, maxsplit)`: at most `maxsplit` cuts; the rest of `s` stays in the last field. */
  function SplitMax(s: string, sep: char, maxsplit: nat): (fields: seq<string>)
    ensures 1 <= |fields| <= maxsplit + 1
    ensures sep !in s || maxsplit == 0 ==> fields == [s]
    decreases |s|
  {
    var i := IndexOf(s, sep);
    if maxsplit == 0 || i == |s| then [s] else [s[..i]] + SplitMax(s[i + 1..], sep, maxsplit - 1)
  }

  /** `sep.join(parts)` */
  function Join(parts: seq<string>, sep: string): (joined: string)
    ensures |parts| > 0 ==> |parts[0]| <= |joined| && joined[..|parts[0]|] == parts[0]
  {
    if |parts| == 0 then ""
    else if |parts| == 1 then parts[0]
    else parts[0] + sep + Join(parts[1..], sep)
  }

  /** Splitting and joining with the same separator gives the text back. */
  lemma {:induction false} JoinSplit(s: string, sep: char)
    ensures Join(Split(s, sep), [sep]) == s
    decreases |s|
  {
    var i := IndexOf(s, sep);
    if i < |s| {
      var head, rest := s[..i], s[i + 1..];
      var fields := Split(rest, sep);
      assert Split(s, sep) == [head] + fields;
      JoinSplit(rest, sep);
      assert Join([head] + fields, [sep]) == head + [sep] + Join(fields, [sep]) by {
        assert ([head] + fields)[1..] == fields;
      }
      CutAt(s, i);
    }
  }

  lemma CutAt(s: string, i: nat)
    requires i < |s|
    ensures s == s[..i] + [s[i]] + s[i + 1..]
  {
  }

  lemma IndexOfAfterFreePrefix(p: string, c: char, t: string)
    requires c !in p
    ensures IndexOf(p + [c] + t, c) == |p|
  {
    assert (p + [c] + t)[|p|] == c;
  }

  /** A field free of the separator, then the separator: the split starts with that field. */
  lemma SplitAfterFreePrefix(p: string, c: char, t: string)
    requires c !in p
    ensures Split(p + [c] + t, c) == [p] + Split(t, c)
  {
    var s := p + [c] + t;
    IndexOfAfterFreePrefix(p, c, t);
    assert s[..|p|] == p;
    assert s[|p| + 1..] == t;
  }

  /** Past a prefix free of `c`, the first `c` is found where it is in the rest. */
  lemma {:induction false} IndexOfPastFree(p: string, c: char, t: string)
    requires c !in p
    ensures IndexOf(p + t, c) == |p| + IndexOf(t, c)
  {
    if p != [] {
      assert (p + t)[0] == p[0] != c;
      assert (p + t)[1..] == p[1..] + t;
      IndexOfPastFree(p[1..], c, t);
    } else {
      assert p + t == t;
    }
  }

  /** After a field free of the separator, the second field runs up to the next separator. */
  lemma SecondField(p: string, c: char, u: string)
    requires c !in p
    ensures var fields := Split(p + [c] + u, c);
            |fields| >= 2 && fields[1] == u[..IndexOf(u, c)]
  {
    SplitAfterFreePrefix(p, c, u);
    FirstField(u, c);
  }

  lemma PrefixOfConcat(h: string, t: string, j: nat)
    requires j <= |t|
    ensures (h + t)[..|h| + j] == h + t[..j]
  {
  }

  /** The first field of a split runs up to the first separator. */
  lemma FirstField(s: string, c: char)
    ensures Split(s, c)[0] == s[..IndexOf(s, c)]
  {
    assert s[..|s|] == s;
  }


  lemma SplitMaxAfterFreePrefix(p: string, c: char, t: string, maxsplit: nat)
    requires c !in p && maxsplit > 0
    ensures SplitMax(p + [c] + t, c, maxsplit) == [p] + SplitMax(t, c, maxsplit - 1)
  {
    var s := p + [c] + t;
    IndexOfAfterFreePrefix(p, c, t);
    assert s[..|p|] == p;
    assert s[|p| + 1..] == t;
  }

  /** The first field of a bounded split runs up to the first separator. */
  lemma SplitMaxFirstField(s: string, c: char, maxsplit: nat)
    requires maxsplit > 0
    ensures SplitMax(s, c, maxsplit)[0] == s[..IndexOf(s, c)]
  {
    if IndexOf(s, c) == |s| {
      assert s[..|s|] == s;
    }
  }

  /** Joining fields that do not contain the separator, and splitting again, gives the fields back. */
  lemma {:induction false} SplitJoin(parts: seq<string>, sep: char)
    requires |parts| >= 1
    requires forall k :: 0 <= k < |parts| ==> sep !in parts[k]
    ensures Split(Join(parts, [sep]), sep) == parts
  {
    if |parts| > 1 {
      var p, rest := parts[0], Join(parts[1..], [sep]);
      var s := p + [sep] + rest;
      assert Join(parts, [sep]) == s;
      SplitAfterFreePrefix(p, sep, rest);
      SplitJoin(parts[1..], sep);
      assert parts == [p] + parts[1..];
    }
  }

  /** Two separators in a row produce an empty field between them. */
  lemma DoubledSeparatorGivesEmptyField(a: string, sep: char, b: string)
    requires sep !in a
    ensures Split(a + [sep, sep] + b, sep) == [a, ""] + Split(b, sep)
  {
    var t := [sep] + b;
    var s := a + [sep] + t;
    assert a + [sep, sep] + b == s;
    SplitAfterFreePrefix(a, sep, t);
    SplitLeadingSeparator(sep, b);
    var rest := Split(b, sep);
    calc {
      Split(s, sep);
      [a] + Split(t, sep);
      [a] + ([""] + rest);
      { PrependTwo(a, "", rest); }
      [a, ""] + rest;
    }
  }

  lemma PrependTwo<T>(x: T, y: T, r: seq<T>)
    ensures [x] + ([y] + r) == [x, y] + r
  {
  }

  lemma SplitLeadingSeparator(sep: char, b: string)
    ensures Split([sep] + b, sep) == [""] + Split(b, sep)
  {
    var t := [sep] + b;
    assert IndexOf(t, sep) == 0;
    assert t[..0] == "" && t[1..] == b;
  }

  /** `SplitMax` cuts like `Split` at the first separator, and keeps the rest whole. */
  lemma SplitMaxFirstFields(s: string, sep: char)
    ensures |SplitMax(s, sep, 2)| >= 2 <==> sep in s
    ensures SplitMax(s, sep, 2)[0] == Split(s, sep)[0]
    ensures sep in s ==> SplitMax(s, sep, 2)[1] == Split(s, sep)[1]
  {
    var i := IndexOf(s, sep);
    if i < |s| {
      var t := s[i + 1..];
      var j := IndexOf(t, sep);
      assert SplitMax(t, sep, 1)[0] == Split(t, sep)[0];
    }
  }

  /** `s[:-k]`; note that `s[:-0]` is `s[:0]`, the empty string. */
  function DropLast(s: string, k: nat): (r: string)
    ensures k > 0 && k <= |s| ==> r + s[|s| - k..] == s
  {
    if k == 0 || k > |s| then "" else s[..|s| - k]
  }

  /** `s[n:]` */
  function From(s: string, n: nat): string
  {
    if n <= |s| then s[n..] else ""
  }

  /** `s[:n]` */
  function UpTo(s: string, n: nat): (r: string)
    ensures |r| <= n
  {
    if n <= |s| then s[..n] else s
  }

  predicate IsDigit(c: char) { '0' <= c <= '9' }

  predicate AllDigits(s: string) { forall k :: 0 <= k < |s| ==> IsDigit(s[k]) }

  function DigitValue(c: char): (d: nat)
    requires IsDigit(c)
    ensures d < 10
  {
    (c as int - '0' as int) as nat
  }

  function Pow10(n: nat): (p: nat)
    ensures p >= 1
  {
    if n == 0 then 1 else 10 * Pow10(n - 1)
  }

  /** The number a string of decimal digits denotes, most significant digit first. */
  function DigitsValue(s: string): (v: nat)
    requires AllDigits(s)
    ensures v < Pow10(|s|)
  {
    if s == [] then 0
    else
      var v := DigitsValue(s[..|s| - 1]);
      var d := DigitValue(s[|s| - 1]);
      assert v + 1 <= Pow10(|s| - 1);
      assert 10 * v + d < 10 * (v + 1);
      10 * v + d
  }

  /** `int(s)`, for texts made of decimal digits only; anything else is a ValueError. */
  function ParseInt(s: string): (n: Option<nat>)
    ensures n.Some? <==> |s| > 0 && AllDigits(s)
    ensures n.Some? ==> n.value < Pow10(|s|)
  {
    if |s| > 0 && AllDigits(s) then Some(DigitsValue(s)) else None
  }

  /** `float(s)`, for digits with at most one decimal point and at least one digit;
      anything else is a ValueError. */
  function ParseFloat(s: string): (x: Option<real>)
    ensures s == "" ==> x.None?
    ensures |s| > 0 && AllDigits(s) ==> x == Some(DigitsValue(s) as real)
    ensures x.Some? ==> x.value >= 0.0
  {
    var i := IndexOf(s, '.');
    var whole := s[..i];
    var fraction := if i < |s| then s[i + 1..] else "";
    DigitsParts(s);
    if |whole| + |fraction| > 0 && AllDigits(whole) && AllDigits(fraction)
    then Some(DecimalValue(whole, fraction))
    else None
  }

  /** The texts `float` accepts here: digits and at most one decimal point, with at least one digit. */
  predicate DecimalText(s: string)
  {
    && (forall k :: 0 <= k < |s| ==> IsDigit(s[k]) || s[k] == '.')
    && (forall j, k :: 0 <= j < k < |s| && s[j] == '.' ==> s[k] != '.')
    && (exists k :: 0 <= k < |s| && IsDigit(s[k]))
  }

  /** Cutting at the first point: a decimal text is exactly one whose two sides are digits
      and not both empty. */
  lemma DecimalTextParts(s: string)
    ensures var i := IndexOf(s, '.');
            var whole := s[..i];
            var fraction := if i < |s| then s[i + 1..] else "";
            DecimalText(s) <==> |whole| + |fraction| > 0 && AllDigits(whole) && AllDigits(fraction)
  {
    var i := IndexOf(s, '.');
    if i < |s| {
      PointParts(s, i);
    } else {
      assert s[..i] == s;
      NoPointParts(s);
    }
  }

  lemma NoPointParts(s: string)
    requires forall k :: 0 <= k < |s| ==> s[k] != '.'
    ensures DecimalText(s) <==> |s| > 0 && AllDigits(s)
  {
    if |s| > 0 && AllDigits(s) {
      assert IsDigit(s[0]);
    }
  }

  lemma PointParts(s: string, i: nat)
    requires i < |s| && s[i] == '.'
    requires forall k :: 0 <= k < i ==> s[k] != '.'
    ensures DecimalText(s) <==> |s| > 1 && AllDigits(s[..i]) && AllDigits(s[i + 1..])
  {
    var whole, fraction := s[..i], s[i + 1..];
    if DecimalText(s) {
      DecimalSides(s, i);
    }
    if |s| > 1 && AllDigits(whole) && AllDigits(fraction) {
      SidesDecimal(s, i);
    }
  }

  lemma DecimalSides(s: string, i: nat)
    requires i < |s| && s[i] == '.' && DecimalText(s)
    ensures |s| > 1 && AllDigits(s[..i]) && AllDigits(s[i + 1..])
  {
    var d :| 0 <= d < |s| && IsDigit(s[d]);
    assert d != i;
    var fraction := s[i + 1..];
    forall k | 0 <= k < |fraction|
      ensures IsDigit(fraction[k])
    {
      assert fraction[k] == s[i + 1 + k] != '.';
    }
  }

  lemma SidesDecimal(s: string, i: nat)
    requires i < |s| && s[i] == '.' && |s| > 1
    requires AllDigits(s[..i]) && AllDigits(s[i + 1..])
    ensures DecimalText(s)
  {
    var whole, fraction := s[..i], s[i + 1..];
    assert forall k :: 0 <= k < i ==> s[k] == whole[k];
    assert forall k :: i < k < |s| ==> s[k] == fraction[k - i - 1];
    if i > 0 {
      assert IsDigit(s[0]);
    } else {
      assert IsDigit(s[1]);
    }
  }

  /** `float` accepts exactly the decimal texts; everything else is a ValueError. */
  lemma ParseFloatAccepts(s: string)
    ensures ParseFloat(s).Some? <==> DecimalText(s)
  {
    DecimalTextParts(s);
  }

  /** A price with a thousands separator is not a float: `float('1,299.00')` raises. */
  lemma ThousandsSeparatorRejected()
    ensures ParseFloat("1,299.00") == None
  {
    ParseFloatAccepts("1,299.00");
    assert !IsDigit(',');
    assert "1,299.00"[1] == ',';
  }

  /** The value of the decimal numeral `whole.fraction`. */
  function DecimalValue(whole: string, fraction: string): (v: real)
    requires AllDigits(whole) && AllDigits(fraction)
    ensures v >= 0.0
  {
    DigitsValue(whole) as real + DigitsValue(fraction) as real / Pow10(|fraction|) as real
  }

  lemma NoPointInDigits(s: string)
    requires AllDigits(s)
    ensures '.' !in s
  {
  }

  /** A run of digits has no point: all of it is the whole part, and its value is an integer. */
  lemma DigitsParts(s: string)
    ensures AllDigits(s) ==> IndexOf(s, '.') == |s| && s[..|s|] == s && DecimalValue(s, "") == DigitsValue(s) as real
  {
    if AllDigits(s) {
      NoPointInDigits(s);
    }
  }

  /** A price written as whole digits, a point and fraction digits is read as exactly that decimal. */
  lemma ParseFloatOfDecimal(whole: string, fraction: string)
    requires |whole| + |fraction| > 0 && AllDigits(whole) && AllDigits(fraction)
    ensures ParseFloat(whole + "." + fraction) == Some(DecimalValue(whole, fraction))
  {
    var s := whole + "." + fraction;
    NoPointInDigits(whole);
    assert s == whole + ['.'] + fraction;
    IndexOfAfterFreePrefix(whole, '.', fraction);
    assert IndexOf(s, '.') == |whole|;
    assert s[..|whole|] == whole;
    assert s[|whole| + 1..] == fraction;
    assert |whole| < |s|;
  }
}
