/** Request-side helpers: typing of text parameters, the write-query test,
    and the shapes a request body may take. */
module Utils {
  import opened Results
  import opened Values

  // ---------------------------------------------------------------------
  // convertIfNeeded(String)

  const MinLong: int := -0x8000_0000_0000_0000
  const MaxLong: int := 0x7FFF_FFFF_FFFF_FFFF

  /** `Character.toUpperCase(c) == Character.toUpperCase(w)` or the lower
      cases of those agree, for `w` a lower-case ASCII letter: `c` is `w`,
      its upper-case form, or (for 's') the long s, whose upper case is 'S'. */
  predicate FoldsTo(c: char, w: char)
    requires 'a' <= w <= 'z'
  {
    c == w || c as int == w as int - 32 || (w == 's' && c == '\U{017F}')
  }

  /** `value.equalsIgnoreCase(word)` for an all-lower-case ASCII word. */
  predicate EqualsIgnoreCase(value: string, word: string)
    requires forall i :: 0 <= i < |word| ==> 'a' <= word[i] <= 'z'
  {
    |value| == |word| && forall i :: 0 <= i < |value| ==> FoldsTo(value[i], word[i])
  }

  predicate IsBooleanWord(value: string)
  {
    EqualsIgnoreCase(value, "true") || EqualsIgnoreCase(value, "false")
  }

  predicate IsDigit(c: char)
  {
    '0' <= c <= '9'
  }

  /** The text after an optional leading sign. */
  function Unsigned(s: string): string
  {
    if |s| > 0 && (s[0] == '+' || s[0] == '-') then s[1..] else s
  }

  predicate AllDigits(s: string)
  {
    forall i :: 0 <= i < |s| ==> IsDigit(s[i])
  }

  /** `value.matches("^[+-]?[0-9.]+$")`. */
  predicate LooksNumeric(s: string)
  {
    var body := Unsigned(s);
    |body| > 0 && forall i :: 0 <= i < |body| ==> IsDigit(body[i]) || body[i] == '.'
  }

  function CountDots(s: string): nat
  {
    if |s| == 0 then 0 else (if s[0] == '.' then 1 else 0) + CountDots(s[1..])
  }

  /** What `Double.parseDouble` accepts among the texts that look numeric:
      one decimal point and at least one digit ("." and "1.2.3" fail). */
  predicate ParsesAsDouble(s: string)
    requires LooksNumeric(s)
  {
    CountDots(s) == 1 && exists i :: 0 <= i < |Unsigned(s)| && IsDigit(Unsigned(s)[i])
  }

  /** The value of a string of decimal digits. */
  function DigitsValue(ds: string): nat
    requires AllDigits(ds)
  {
    if |ds| == 0 then 0
    else DigitsValue(ds[..|ds| - 1]) * 10 + (ds[|ds| - 1] as int - '0' as int)
  }

  /** The integer a sign and a string of decimal digits denote. */
  function SignedValue(s: string): int
    requires AllDigits(Unsigned(s))
  {
    if |s| > 0 && s[0] == '-' then -(DigitsValue(Unsigned(s)) as int) else DigitsValue(Unsigned(s))
  }

  /** A numeric-looking text without a decimal point is a sign and digits. */
  lemma NoDotDigits(s: string)
    requires LooksNumeric(s) && '.' !in s
    ensures |Unsigned(s)| > 0 && AllDigits(Unsigned(s))
  {
    var body := Unsigned(s);
    forall i | 0 <= i < |body| ensures IsDigit(body[i]) {
      assert body[i] in s by {
        if body != s { assert body[i] == s[i + 1]; }
      }
    }
  }

  /** `Long.parseLong` on a signed string of digits: the value it denotes,
      or a `NumberFormatException` (carrying the input) when that value is
      outside the 64-bit range. */
  function ParseLong(s: string): (r: Result<Scalar, string>)
    requires LooksNumeric(s) && '.' !in s
    ensures AllDigits(Unsigned(s))
    ensures r.Ok? <==> MinLong <= SignedValue(s) <= MaxLong
    ensures r.Ok? ==> r.value == Long(SignedValue(s))
    ensures r.Err? ==> r.error == s
  {
    NoDotDigits(s);
    var magnitude := DigitsValue(Unsigned(s));
    var n: int := if s[0] == '-' then -(magnitude as int) else magnitude;
    if MinLong <= n <= MaxLong then Ok(Long(n)) else Err(s)
  }

  /** `convertIfNeeded(String)`: booleans in any letter case, then
      numeric-looking text as a double (with a '.') or a long (without),
      everything else unchanged. A numeric-looking text that does not parse
      is an error, not a string. */
  function ConvertIfNeeded(value: string): (r: Result<Scalar, string>)
    ensures r == Ok(Bool(true)) <==> EqualsIgnoreCase(value, "true")
    ensures r == Ok(Bool(false)) <==> EqualsIgnoreCase(value, "false")
    ensures r.Ok? && r.value.Str? <==> !IsBooleanWord(value) && !LooksNumeric(value)
    ensures r.Ok? && r.value.Str? ==> r.value.s == value
    ensures r.Ok? && r.value.Double? ==> LooksNumeric(value) && '.' in value && r.value.text == value
    ensures r.Ok? && r.value.Long? ==> LooksNumeric(value) && '.' !in value && MinLong <= r.value.n <= MaxLong
    ensures r.Err? ==> LooksNumeric(value) && r.error == value
  {
    if EqualsIgnoreCase(value, "true") then Ok(Bool(true))
    else if EqualsIgnoreCase(value, "false") then Ok(Bool(false))
    else if LooksNumeric(value) then
      if '.' in value then
        (if ParsesAsDouble(value) then Ok(Double(value)) else Err(value))
      else ParseLong(value)
    else Ok(Str(value))
  }

  /** The decimal digits of a natural number, most significant first. */
  function DigitsOf(n: nat): (ds: string)
    ensures |ds| > 0 && AllDigits(ds)
  {
    if n < 10 then ['0' + n as char] else DigitsOf(n / 10) + ['0' + (n % 10) as char]
  }

  lemma {:induction false} DigitsOfValue(n: nat)
    ensures DigitsValue(DigitsOf(n)) == n
  {
    var ds := DigitsOf(n);
    if n >= 10 {
      DigitsOfValue(n / 10);
      assert ds[..|ds| - 1] == DigitsOf(n / 10);
    }
  }

  /** `Long.toString(n)`. */
  function LongText(n: int): string
  {
    if n < 0 then "-" + DigitsOf(-n) else DigitsOf(n)
  }

  /** Numeric-looking text is decided by the number parsers alone: with a
      point it coerces exactly when `Double.parseDouble` accepts it, and
      without one the outcome is exactly `Long.parseLong`'s. */
  lemma ConvertNumeric(value: string)
    requires LooksNumeric(value)
    ensures '.' in value ==> (ConvertIfNeeded(value).Ok? <==> ParsesAsDouble(value))
    ensures '.' !in value ==> ConvertIfNeeded(value) == ParseLong(value)
  {
    NumericIsNotBoolean(value);
  }

  /** A numeric-looking text is neither "true" nor "false" in any case. */
  lemma NumericIsNotBoolean(value: string)
    ensures LooksNumeric(value) ==> !IsBooleanWord(value)
  {
    if LooksNumeric(value) && |value| > 1 {
      var c := Unsigned(value)[0];
      assert c == value[0] || c == value[1];
    }
  }

  /** `Long.toString(n)` is an optional minus sign and the digits of |n|,
      and denotes `n`. */
  lemma LongTextShape(n: int)
    ensures LooksNumeric(LongText(n)) && '.' !in LongText(n)
    ensures Unsigned(LongText(n)) == DigitsOf(if n < 0 then -n else n)
    ensures SignedValue(LongText(n)) == n
  {
    var s := LongText(n);
    var ds := DigitsOf(if n < 0 then -n else n);
    DigitsOfValue(if n < 0 then -n else n);
    if n < 0 {
      assert s == ['-'] + ds;
      assert s[1..] == ds;
      assert forall i :: 0 < i < |s| ==> s[i] == ds[i - 1];
    } else {
      assert s == ds;
    }
    assert Unsigned(s) == ds;
  }

  /** Every 64-bit long written in decimal comes back as that long. */
  lemma LongRoundTrip(n: int)
    requires MinLong <= n <= MaxLong
    ensures ConvertIfNeeded(LongText(n)) == Ok(Long(n))
  {
    LongTextShape(n);
    ConvertNumeric(LongText(n));
  }

  /** Every integer outside the 64-bit range, written in decimal, is a
      number format error. */
  lemma LongOutOfRange(n: int)
    requires n < MinLong || n > MaxLong
    ensures ConvertIfNeeded(LongText(n)) == Err(LongText(n))
  {
    LongTextShape(n);
    ConvertNumeric(LongText(n));
  }

  /** Letter case does not matter for the two boolean words. */
  lemma BooleanExamples()
    ensures ConvertIfNeeded("true") == Ok(Bool(true))
    ensures ConvertIfNeeded("FALSE") == Ok(Bool(false))
    ensures ConvertIfNeeded("TrUe") == Ok(Bool(true))
  {
  }

  /** Whole numbers become longs, a leading sign included. */
  lemma LongExamples()
    ensures ConvertIfNeeded("-12") == Ok(Long(-12))
    ensures ConvertIfNeeded("+21") == Ok(Long(21))
  {
    assert Unsigned("-12") == "12";
    assert DigitsValue("12") == 12 by { assert "12"[..1] == "1"; assert "1"[..0] == ""; }
    assert Unsigned("+21") == "21";
    assert DigitsValue("21") == 21 by { assert "21"[..1] == "2"; assert "2"[..0] == ""; }
  }

  /** A point makes a double; a text with no digit or with two points does
      not parse, and neither does a long beyond 64 bits. */
  lemma NumericErrorExamples()
    ensures ConvertIfNeeded("3.5") == Ok(Double("3.5"))
    ensures ConvertIfNeeded(".") == Err(".")
    ensures ConvertIfNeeded("1.2.3") == Err("1.2.3")
  {
    PointParses("3.5");
    DottedFails(".");
    DottedFails("1.2.3");
  }

  lemma PointParses(half: string)
    requires half == "3.5"
    ensures ConvertIfNeeded(half) == Ok(Double(half))
  {
    assert LooksNumeric(half) && '.' in half && ParsesAsDouble(half) by {
      assert CountDots("3.5") == 1;
      assert IsDigit(Unsigned(half)[0]);
    }
    ConvertNumeric(half);
  }

  lemma DottedFails(t: string)
    requires t == "." || t == "1.2.3"
    ensures ConvertIfNeeded(t) == Err(t)
  {
    if t == "." {
      assert LooksNumeric(t) && '.' in t && !ParsesAsDouble(t) by { assert Unsigned(t) == t; }
    } else {
      assert LooksNumeric(t) && '.' in t && !ParsesAsDouble(t) by { assert CountDots("1.2.3") == 2; }
    }
    ConvertNumeric(t);
  }

  /** Twenty or more digits without a leading zero are beyond the range
      of a long. */
  lemma LongOverflow(ds: string)
    requires AllDigits(ds) && |ds| >= 20 && ds[0] != '0'
    ensures ConvertIfNeeded(ds) == Err(ds)
  {
    assert Unsigned(ds) == ds;
    assert '.' !in ds by {
      forall i | 0 <= i < |ds| ensures ds[i] != '.' { assert IsDigit(ds[i]); }
    }
    ConvertNumeric(ds);
    LongDigits(ds);
    Pow10Grows(|ds| - 1);
    assert Pow10(6) == 1000000;
    assert Pow10(12) == 1000000000000;
    assert Pow10(18) == 1000000000000000000;
  }

  /** The smallest overflowing text. */
  lemma LongOverflowExample()
    ensures ConvertIfNeeded("10000000000000000000") == Err("10000000000000000000")
  {
    LongOverflow("10000000000000000000");
  }

  /** Anything else stays a string: exponents, letters, the empty text. */
  lemma StringExamples()
    ensures ConvertIfNeeded("bar") == Ok(Str("bar"))
    ensures ConvertIfNeeded("") == Ok(Str(""))
    ensures ConvertIfNeeded("12a") == Ok(Str("12a"))
    ensures ConvertIfNeeded("1e5") == Ok(Str("1e5"))
  {
    assert !LooksNumeric("bar") by { assert Unsigned("bar")[0] == 'b'; }
    assert !LooksNumeric("12a") by { assert Unsigned("12a")[2] == 'a'; }
    assert !LooksNumeric("1e5") by { assert Unsigned("1e5")[1] == 'e'; }
  }

  /** A long digit string is worth at least ten to its length minus one. */
  lemma {:induction false} LongDigits(ds: string)
    requires AllDigits(ds)
    requires |ds| > 0 && ds[0] != '0'
    ensures DigitsValue(ds) >= Pow10(|ds| - 1)
  {
    if |ds| > 1 {
      var init := ds[..|ds| - 1];
      assert init[0] == ds[0];
      LongDigits(init);
      assert Pow10(|ds| - 1) == 10 * Pow10(|init| - 1);
    }
  }

  function Pow10(k: nat): nat
  {
    if k == 0 then 1 else 10 * Pow10(k - 1)
  }

  lemma {:induction false} Pow10Grows(k: nat)
    requires k >= 19
    ensures Pow10(k) >= Pow10(19)
  {
    if k > 19 {
      Pow10Grows(k - 1);
    }
  }

  // ---------------------------------------------------------------------
  // isWriteQuery

  /** The keyword alternatives of `IS_WRITE_QUERY`. */
  const WriteKeywords: seq<string> := ["create", "set", "remove", "merge", "delete", "drop"]

  /** Case-insensitive matching without UNICODE_CASE folds ASCII letters only. */
  function AsciiLower(c: char): char
  {
    if 'A' <= c <= 'Z' then (c as int + 32) as char else c
  }

  /** `word` occurs in `q` at position `i`, ignoring ASCII letter case. */
  predicate KeywordAt(q: string, i: nat, word: string)
  {
    i + |word| <= |q| && forall j :: 0 <= j < |word| ==> AsciiLower(q[i + j]) == word[j]
  }

  predicate AnyKeywordAt(q: string, i: nat)
  {
    exists k :: 0 <= k < |WriteKeywords| && KeywordAt(q, i, WriteKeywords[k])
  }

  /** The scan of `Matcher.find()` from position `from` onward. */
  function FindKeyword(q: string, from: nat): (found: bool)
    ensures found <==> exists i :: from <= i < |q| && AnyKeywordAt(q, i)
    decreases |q| - from
  {
    if from >= |q| then false
    else AnyKeywordAt(q, from) || FindKeyword(q, from + 1)
  }

  /** `isWriteQuery`: some keyword occurs anywhere, as any substring,
      ignoring case; there are no word boundaries. */
  function IsWriteQuery(q: string): (b: bool)
    ensures b <==> exists i :: 0 <= i < |q| && AnyKeywordAt(q, i)
  {
    FindKeyword(q, 0)
  }

  /** The queries of the endpoint tests, and a keyword hidden in a word. */
  lemma WriteQueryExamples()
    ensures IsWriteQuery("create (n {name:{name}}) return n")
    ensures IsWriteQuery("MATCH n SET n.x=1")
    ensures IsWriteQuery("offset")
  {
    WriteQueriesFound("create (n {name:{name}}) return n", "MATCH n SET n.x=1", "offset");
  }

  lemma WriteQueriesFound(create: string, update: string, offset: string)
    requires create == "create (n {name:{name}}) return n" && update == "MATCH n SET n.x=1" && offset == "offset"
    ensures IsWriteQuery(create) && IsWriteQuery(update) && IsWriteQuery(offset)
  {
    KeywordMakesWrite(create, 0, 0);
    KeywordMakesWrite(update, 8, 1);
    KeywordMakesWrite(offset, 3, 1);
  }

  /** One keyword occurrence is enough. */
  lemma KeywordMakesWrite(q: string, i: nat, k: nat)
    requires i < |q| && k < |WriteKeywords| && KeywordAt(q, i, WriteKeywords[k])
    ensures IsWriteQuery(q)
  {
    assert AnyKeywordAt(q, i);
  }

  /** The first three letters of each keyword. */
  const Openings: set<(char, char, char)> :=
    {('c', 'r', 'e'), ('s', 'e', 't'), ('r', 'e', 'm'), ('m', 'e', 'r'), ('d', 'e', 'l'), ('d', 'r', 'o')}

  /** A match starts with the opening of one of the keywords. */
  lemma KeywordOpening(q: string, i: nat)
    requires AnyKeywordAt(q, i)
    ensures i + 3 <= |q| && (AsciiLower(q[i]), AsciiLower(q[i + 1]), AsciiLower(q[i + 2])) in Openings
  {
    var k :| 0 <= k < |WriteKeywords| && KeywordAt(q, i, WriteKeywords[k]);
    var w := WriteKeywords[k];
    assert (w[0], w[1], w[2]) in Openings;
    assert AsciiLower(q[i]) == w[0] && AsciiLower(q[i + 1]) == w[1] && AsciiLower(q[i + 2]) == w[2];
  }

  /** A read-only query of the endpoint tests passes the guard. */
  lemma ReadQueryExample()
    ensures !IsWriteQuery("start n=node({id}) return n")
  {
    ReadQueryPasses("start n=node({id}) return n");
  }

  lemma ReadQueryPasses(q: string)
    requires q == "start n=node({id}) return n"
    ensures !IsWriteQuery(q)
  {
    NoOpeningBetween(q, 0, 7);
    NoOpeningBetween(q, 7, 14);
    NoOpeningBetween(q, 14, 21);
    NoOpeningBetween(q, 21, |q|);
  }

  lemma NoOpeningBetween(q: string, lo: nat, hi: nat)
    requires q == "start n=node({id}) return n" && lo <= hi <= |q| && hi - lo <= 7
    ensures forall i :: lo <= i < hi ==> !AnyKeywordAt(q, i)
  {
    forall i | lo <= i < hi ensures !AnyKeywordAt(q, i) {
      if AnyKeywordAt(q, i) {
        KeywordOpening(q, i);
      }
    }
  }

  // ---------------------------------------------------------------------
  // toParams(MultivaluedMap) and convertIfNeeded(List)

  /** Every element coerced, in order; the first failure wins. */
  function CoerceAll(values: seq<string>): (r: Result<seq<Scalar>, string>)
    ensures r.Ok? <==> forall i :: 0 <= i < |values| ==> ConvertIfNeeded(values[i]).Ok?
    ensures r.Ok? ==> (|r.value| == |values| &&
                       forall i :: 0 <= i < |values| ==> r.value[i] == ConvertIfNeeded(values[i]).value)
  {
    if |values| == 0 then Ok([])
    else
      var init := values[..|values| - 1];
      assert forall i :: 0 <= i < |init| ==> init[i] == values[i];
      var last := ConvertIfNeeded(values[|values| - 1]);
      match CoerceAll(init)
      case Err(e) => Err(e)
      case Ok(xs) =>
        if last.Err? then Err(last.error)
        else
          assert forall i :: 0 <= i < |xs| ==> (xs + [last.value])[i] == xs[i];
          Ok(xs + [last.value])
  }

  /** A failed list names the first element that fails. */
  lemma {:induction false} CoerceAllFirstError(values: seq<string>)
    requires CoerceAll(values).Err?
    ensures exists i :: 0 <= i < |values| && ConvertIfNeeded(values[i]) == Err(CoerceAll(values).error) &&
                        forall j :: 0 <= j < i ==> ConvertIfNeeded(values[j]).Ok?
  {
    var init := values[..|values| - 1];
    var e := CoerceAll(values).error;
    assert forall j :: 0 <= j < |init| ==> values[j] == init[j];
    CoerceAllStep(values);
    if CoerceAll(init).Err? {
      CoerceAllFirstError(init);
      var i :| 0 <= i < |init| && ConvertIfNeeded(init[i]) == Err(e) &&
               forall j :: 0 <= j < i ==> ConvertIfNeeded(init[j]).Ok?;
      assert ConvertIfNeeded(values[i]) == Err(e);
    } else {
      var i := |values| - 1;
      assert forall j :: 0 <= j < i ==> ConvertIfNeeded(init[j]).Ok?;
      assert ConvertIfNeeded(values[i]) == Err(e);
    }
  }

  /** `convertIfNeeded(List)`: a fresh list of the coerced elements. */
  method ConvertListIfNeeded(values: seq<string>) returns (r: Result<seq<Scalar>, string>)
    ensures r == CoerceAll(values)
  {
    var result: seq<Scalar> := [];
    var i := 0;
    while i < |values|
      invariant 0 <= i <= |values|
      invariant CoerceAll(values[..i]) == Ok(result)
    {
      assert values[..i + 1][..i] == values[..i];
      var c := ConvertIfNeeded(values[i]);
      if c.Err? {
        CoerceAllKeepsFirstError(values, i + 1);
        return Err(c.error);
      }
      result := result + [c.value];
      i := i + 1;
    }
    assert values[..i] == values;
    r := Ok(result);
  }

  /** The last step of the coercion: a failure before the last element is
      the failure of the list; otherwise the last element's failure is. */
  lemma CoerceAllStep(values: seq<string>)
    requires |values| > 0
    ensures CoerceAll(values[..|values| - 1]).Err? ==> CoerceAll(values) == CoerceAll(values[..|values| - 1])
    ensures CoerceAll(values[..|values| - 1]).Ok? && ConvertIfNeeded(values[|values| - 1]).Err? ==>
      CoerceAll(values) == Err(ConvertIfNeeded(values[|values| - 1]).error)
  {
  }

  /** Once a prefix fails, the whole list fails with the same error. */
  lemma {:induction false} CoerceAllKeepsFirstError(values: seq<string>, n: nat)
    requires n <= |values| && CoerceAll(values[..n]).Err?
    ensures CoerceAll(values) == CoerceAll(values[..n])
    decreases |values|
  {
    if n < |values| {
      var init := values[..|values| - 1];
      assert init[..n] == values[..n];
      CoerceAllKeepsFirstError(init, n);
      CoerceAllStep(values);
    } else {
      assert values[..n] == values;
    }
  }


  /** The parameter one query-string key yields: one value becomes that
      value coerced; none, or several, become the list of coerced values. */
  function ParamValue(values: seq<string>): (r: Result<Value, string>)
    ensures |values| == 1 ==> r == (match ConvertIfNeeded(values[0])
                                   case Ok(x) => Ok(Prim(x))
                                   case Err(e) => Err(e))
    ensures |values| != 1 && r.Ok? ==> r.value.ListV? && |r.value.items| == |values|
  {
    if |values| == 1 then
      match ConvertIfNeeded(values[0])
      case Ok(x) => Ok(Prim(x))
      case Err(e) => Err(e)
    else
      match CoerceAll(values)
      case Ok(xs) => Ok(ListV(Prims(xs)))
      case Err(e) => Err(e)
  }

  /** Whether every key's values can be coerced. */
  predicate ParamsCoerce(query: map<string, seq<string>>)
  {
    forall k :: k in query ==> ParamValue(query[k]).Ok?
  }

  /** The parameter map of a query string whose values all coerce. */
  function Params(query: map<string, seq<string>>): (p: map<string, Value>)
    requires ParamsCoerce(query)
  {
    map k | k in query :: ParamValue(query[k]).value
  }

  /** `toParams(MultivaluedMap)`: the same keys, each with its parameter
      value; a key whose text cannot be coerced makes the whole call fail
      with that key's error (which key, when several fail, depends on the
      hash order). */
  method ToParams(query: map<string, seq<string>>) returns (r: Result<map<string, Value>, string>)
    ensures r.Ok? <==> ParamsCoerce(query)
    ensures r.Ok? ==> r.value == Params(query)
    ensures r.Err? ==> exists k :: k in query && ParamValue(query[k]) == Err(r.error)
  {
    var result: map<string, Value> := map[];
    var pending := query.Keys;
    while pending != {}
      invariant pending <= query.Keys
      invariant result.Keys == query.Keys - pending
      invariant forall k :: k in result ==> ParamValue(query[k]).Ok? && result[k] == ParamValue(query[k]).value
      decreases pending
    {
      var key :| key in pending;
      var v := ParamOf(query[key]);
      if v.Err? {
        assert key in query && ParamValue(query[key]) == Err(v.error);
        return Err(v.error);
      }
      result := result[key := v.value];
      pending := pending - {key};
    }
    ParamsFromEntries(query, result);
    r := Ok(result);
  }

  /** A map holding every key's parameter value is the parameter map. */
  lemma ParamsFromEntries(query: map<string, seq<string>>, result: map<string, Value>)
    requires result.Keys == query.Keys
    requires forall k :: k in result ==> ParamValue(query[k]).Ok? && result[k] == ParamValue(query[k]).value
    ensures ParamsCoerce(query) && result == Params(query)
  {
  }

  /** The value one key's texts become, as the body of the loop in
      `toParams` computes it: an empty list first, replaced by the
      coerced list; a single text coerced on its own. */
  method ParamOf(value: seq<string>) returns (r: Result<Value, string>)
    ensures r == ParamValue(value)
  {
    var v: Value;
    if |value| == 0 {
      v := ListV([]);
    }
    if |value| == 1 {
      var c := ConvertIfNeeded(value[0]);
      if c.Err? {
        return Err(c.error);
      }
      v := Prim(c.value);
    } else {
      var cs := ConvertListIfNeeded(value);
      if cs.Err? {
        return Err(cs.error);
      }
      v := ListV(Prims(cs.value));
    }
    r := Ok(v);
  }

  /** The parameter map has exactly the query-string keys: one value gives
      its coerced scalar, no value or several give the list of coerced
      values in their original order. */
  lemma ParamsSpec(query: map<string, seq<string>>)
    requires ParamsCoerce(query)
    ensures Params(query).Keys == query.Keys
    ensures forall k :: k in query && |query[k]| == 1 ==>
      Params(query)[k] == Prim(ConvertIfNeeded(query[k][0]).value)
    ensures forall k :: k in query && |query[k]| != 1 ==>
      Params(query)[k] == ListV(Prims(CoerceAll(query[k]).value)) &&
      |Params(query)[k].items| == |query[k]| &&
      forall i :: 0 <= i < |query[k]| ==> Params(query)[k].items[i] == Prim(ConvertIfNeeded(query[k][i]).value)
  {
  }

  // ---------------------------------------------------------------------
  // toParams(String) and toJson(Object)

  /** The object the JSON codec reads from a request body. */
  datatype Json =
    | JObject(fields: map<string, Value>)
    | JList(elements: seq<Json>)
    | JOther(value: Value)      // a JSON string, number, boolean or null

  /** `toParams(String)`: an object becomes a one-element list, an array is
      taken as it is; anything else, or a body the codec cannot read
      (`None`), is bad input. */
  function BodyParams(parsed: Option<Json>): (r: Result<seq<Json>, string>)
    ensures r.Ok? <==> parsed.Some? && (parsed.value.JObject? || parsed.value.JList?)
    ensures r.Ok? && parsed.value.JObject? ==> r.value == [parsed.value]
    ensures r.Ok? && parsed.value.JList? ==> r.value == parsed.value.elements
  {
    match parsed
    case None => Err("Cannot read as JSON list or map")
    case Some(JObject(fields)) => Ok([JObject(fields)])
    case Some(JList(elements)) => Ok(elements)
    case Some(JOther(_)) => Err("Cannot read as JSON list or map")
  }

  /** `toJson(Object)`: null gives no text at all; any other value gives
      the codec's text for it, which is not modelled and stands as the
      value itself. */
  function ToJson(v: Value): (text: Option<Value>)
    ensures text.None? <==> v.Null?
    ensures text.Some? ==> text.value == v
  {
    if v.Null? then None else Some(v)
  }
}
