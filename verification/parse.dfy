/**
 * proc/src/parse/mod.rs: the error type, the `Parse` results, the
 * `parse_ident!` keyword matcher, and the `Parse` impls for `()`,
 * `MemProp`, `bool` and `usize`. Strings are sequences of characters; the
 * keywords are ASCII, so a byte offset after a matched keyword is the same
 * position as the character offset used here.
 */
module Parse {
  import opened Common

  /** The kinds of `core::num::ParseIntError` that `str::parse::<usize>` can give on a run of ASCII digits. */
  datatype IntErrorKind = EmptyDigits | PosOverflow

  /** `ParseError`; the variants are suffixed so as not to clash with the types of the same name. */
  datatype ParseError =
    | Empty
    | MemPropError
    | CmpOpError
    | CondError
    | ParenError
    | BoolError
    | IntError(cause: Option<IntErrorKind>)

  /** `Result<(Self, &str), ParseError>`: the parsed value and the unconsumed remainder. */
  datatype PResult<T> = Ok(value: T, rest: string) | Err(error: ParseError)

  /** `T::parse` as a value. */
  type Parser<T> = string -> PResult<T>

  /** `impl From<ParseIntError> for ParseError`, used by the `?` in `usize::parse`. */
  function FromIntError(e: IntErrorKind): (r: ParseError)
    ensures r == IntError(Some(e))
  {
    IntError(Some(e))
  }

  lemma PrefixSplit(p: string, s: string)
    requires p <= s
    ensures s == p + s[|p|..]
  {
  }

  /**
   * `parse_ident!(s, Error: p1 => v1, …)`: the first pattern that `s`
   * starts with gives its value and the text after it; with none,
   * `Err(Error)`. Matching is by prefix only.
   */
  function ParseIdent<T(==)>(s: string, arms: seq<(string, T)>, err: ParseError): (r: PResult<T>)
    ensures r.Err? <==> forall i | 0 <= i < |arms| :: !(arms[i].0 <= s)
    ensures r.Err? ==> r.error == err
    ensures r.Ok? ==> exists i | 0 <= i < |arms| ::
      && arms[i].0 <= s
      && (forall j | 0 <= j < i :: !(arms[j].0 <= s))
      && r.value == arms[i].1
      && s == arms[i].0 + r.rest
  {
    if arms == [] then Err(err)
    else if arms[0].0 <= s then
      PrefixSplit(arms[0].0, s);
      Ok(arms[0].1, s[|arms[0].0|..])
    else
      var r := ParseIdent(s, arms[1..], err);
      assert forall i | 0 < i < |arms| :: arms[i] == arms[1..][i - 1];
      if r.Ok? then
        var k :| 0 <= k < |arms[1..]|
          && arms[1..][k].0 <= s
          && (forall j | 0 <= j < k :: !(arms[1..][j].0 <= s))
          && r.value == arms[1..][k].1
          && s == arms[1..][k].0 + r.rest;
        assert forall j | 0 <= j < k + 1 :: !(arms[j].0 <= s) by {
          forall j | 0 <= j < k + 1 ensures !(arms[j].0 <= s) {
            if j > 0 { assert arms[j] == arms[1..][j - 1]; }
          }
        }
        assert arms[k + 1] == arms[1..][k];
        r
      else
        r
  }

  /** The arm that matches first decides the result. */
  lemma {:induction false} ParseIdentFirst<T>(s: string, arms: seq<(string, T)>, err: ParseError, i: nat)
    requires i < |arms| && arms[i].0 <= s
    requires forall j | 0 <= j < i :: !(arms[j].0 <= s)
    ensures ParseIdent(s, arms, err) == Ok(arms[i].1, s[|arms[i].0|..])
  {
    if i > 0 {
      assert !(arms[0].0 <= s);
      assert forall j | 0 <= j < i - 1 :: arms[1..][j] == arms[j + 1];
      ParseIdentFirst(s, arms[1..], err, i - 1);
    }
  }

  /** `impl Parse for ()`: never fails and consumes nothing. */
  function ParseUnit(s: string): (r: PResult<()>)
    ensures r.Ok? && r.rest == s
  {
    Ok((), s)
  }

  /** `MemProp`. */
  datatype MemProp = Size | Align

  /** The keyword of each memory property. */
  function MemPropText(m: MemProp): string
  {
    match m
    case Size => "size"
    case Align => "align"
  }

  /** `MemProp::parse`: `"size"` then `"align"`, by prefix, no word boundary. */
  function ParseMemProp(s: string): (r: PResult<MemProp>)
    ensures r.Ok? ==> s == MemPropText(r.value) + r.rest
    ensures r.Err? <==> !("size" <= s) && !("align" <= s)
    ensures r.Err? ==> r.error == MemPropError
  {
    var arms := [("size", Size), ("align", Align)];
    var r := ParseIdent(s, arms, MemPropError);
    assert arms[0].0 == "size" && arms[1].0 == "align";
    r
  }

  /** Every keyword parses back with any remainder. */
  lemma MemPropRoundTrip(m: MemProp, rest: string)
    ensures ParseMemProp(MemPropText(m) + rest) == Ok(m, rest)
  {
    var s := MemPropText(m) + rest;
    assert MemPropText(m) <= s;
    var r := ParseMemProp(s);
    assert r.Ok?;
    assert s == MemPropText(m) + r.rest;
    assert r.rest == s[|MemPropText(m)|..];
  }

  lemma MemPropExample(m: MemProp, rest: string, s: string)
    requires s == MemPropText(m) + rest
    ensures ParseMemProp(s) == Ok(m, rest)
  {
    MemPropRoundTrip(m, rest);
  }

  /** The test `mem_prop`: its inputs have no leading whitespace, so `trim_start` keeps them whole. */
  lemma MemPropTestSize()
    ensures ParseMemProp("size") == Ok(Size, "")
    ensures ParseMemProp("size ") == Ok(Size, " ")
  {
    MemPropExample(Size, "", "size");
    MemPropExample(Size, " ", "size ");
  }

  /** The test `mem_prop`, continued. */
  lemma MemPropTestAlign()
    ensures ParseMemProp("align") == Ok(Align, "")
    ensures ParseMemProp("align ") == Ok(Align, " ")
  {
    MemPropExample(Align, "", "align");
    MemPropExample(Align, " ", "align ");
  }

  /** No word boundary is required after a keyword, and leading whitespace is not skipped. */
  lemma MemPropPrefixOnly()
    ensures ParseMemProp("sizeable") == Ok(Size, "able")
    ensures ParseMemProp(" size").Err?
  {
    MemPropExample(Size, "able", "sizeable");
    var t := " size";
    assert t[0] == ' ';
    assert !("size" <= t) && !("align" <= t);
  }

  /** The keyword of each boolean literal. */
  function BoolText(b: bool): string
  {
    if b then "true" else "false"
  }

  /** `bool::parse`: `"true"` then `"false"`, by prefix. */
  function ParseBool(s: string): (r: PResult<bool>)
    ensures r.Ok? ==> s == BoolText(r.value) + r.rest
    ensures r.Err? <==> !("true" <= s) && !("false" <= s)
    ensures r.Err? ==> r.error == BoolError
  {
    var arms := [("true", true), ("false", false)];
    var r := ParseIdent(s, arms, BoolError);
    assert arms[0].0 == "true" && arms[1].0 == "false";
    r
  }

  /** Every literal parses back with any remainder. */
  lemma BoolRoundTrip(b: bool, rest: string)
    ensures ParseBool(BoolText(b) + rest) == Ok(b, rest)
  {
    var s := BoolText(b) + rest;
    assert BoolText(b) <= s;
    var r := ParseBool(s);
    assert r.Ok?;
    assert s == BoolText(b) + r.rest;
    assert r.rest == s[|BoolText(b)|..];
  }

  // ---------------------------------------------------------------------
  // `usize::parse`

  predicate IsDigit(c: char)
  {
    '0' <= c <= '9'
  }

  predicate AllDigits(s: string)
  {
    forall i | 0 <= i < |s| :: IsDigit(s[i])
  }

  /** `.iter().enumerate().find(|(_, &ch)| not a digit)`: the index of the first non-digit. */
  function FirstNonDigit(s: string): (r: Option<nat>)
    ensures r.None? <==> AllDigits(s)
    ensures r.Some? ==> r.value < |s| && !IsDigit(s[r.value]) && AllDigits(s[..r.value])
  {
    if s == [] then None
    else if !IsDigit(s[0]) then Some(0)
    else
      match FirstNonDigit(s[1..])
      case None => None
      case Some(k) =>
        assert s[..k + 1] == [s[0]] + s[1..][..k];
        Some(k + 1)
  }

  /** A run of digits in front shifts the first non-digit by its length. */
  lemma {:induction false} FirstNonDigitAfterDigits(digits: string, rest: string)
    requires AllDigits(digits)
    ensures FirstNonDigit(digits + rest)
         == match FirstNonDigit(rest) case None => None case Some(k) => Some(|digits| + k)
  {
    if digits != [] {
      var s := digits + rest;
      assert s[0] == digits[0];
      assert s[1..] == digits[1..] + rest;
      FirstNonDigitAfterDigits(digits[1..], rest);
    } else {
      assert digits + rest == rest;
    }
  }

  function DigitValue(c: char): nat
    requires IsDigit(c)
  {
    c as nat - '0' as nat
  }

  /** The value of a run of decimal digits, most significant first (leading zeros allowed). */
  function DecimalValue(ds: string): nat
    requires AllDigits(ds)
  {
    if ds == [] then 0
    else DecimalValue(ds[..|ds| - 1]) * 10 + DigitValue(ds[|ds| - 1])
  }

  /**
   * `usize::parse`: the digits before the first non-digit are read by
   * `str::parse::<usize>` (the platform's `usize::MAX` is `max`), and the
   * remainder starts at that non-digit. With no non-digit at all (empty
   * or all-digit input) it fails with `Int(None)`.
   */
  function ParseUsize(s: string, max: nat): (r: PResult<nat>)
    ensures r == Err(IntError(None)) <==> AllDigits(s)
    ensures |s| > 0 && !IsDigit(s[0]) ==> r == Err(FromIntError(EmptyDigits))
    ensures r.Ok? ==>
      && |r.rest| > 0 && !IsDigit(r.rest[0])
      && |r.rest| < |s|
      && var digits := s[..|s| - |r.rest|];
      && s == digits + r.rest
      && AllDigits(digits)
      && r.value == DecimalValue(digits) <= max
  {
    match FirstNonDigit(s)
    case None => Err(IntError(None))
    case Some(last) =>
      var digits := s[..last];
      assert s == digits + s[last..];
      if digits == [] then Err(FromIntError(EmptyDigits))
      else if DecimalValue(digits) > max then Err(FromIntError(PosOverflow))
      else Ok(DecimalValue(digits), s[last..])
  }

  function DigitChar(d: nat): (c: char)
    requires d < 10
    ensures IsDigit(c) && DigitValue(c) == d
  {
    ('0' as nat + d) as char
  }

  /** The decimal text of `n`, as `format!("{}", n)` writes it. */
  function ToDecimal(n: nat): (ds: string)
    ensures |ds| > 0
    decreases n
  {
    if n < 10 then [DigitChar(n)] else ToDecimal(n / 10) + [DigitChar(n % 10)]
  }

  lemma {:induction false} ToDecimalValue(n: nat)
    ensures AllDigits(ToDecimal(n))
    ensures DecimalValue(ToDecimal(n)) == n
    decreases n
  {
    if n >= 10 {
      ToDecimalValue(n / 10);
      var ds := ToDecimal(n);
      assert ds[..|ds| - 1] == ToDecimal(n / 10);
    }
  }

  /**
   * Digits followed by a non-digit: the value of the digits and the
   * remainder from the non-digit on, or `PosOverflow` above `max`.
   */
  lemma {:induction false} UsizeDigitsThenRest(digits: string, rest: string, max: nat)
    requires |digits| > 0 && AllDigits(digits)
    requires |rest| > 0 && !IsDigit(rest[0])
    ensures ParseUsize(digits + rest, max)
         == if DecimalValue(digits) <= max then Ok(DecimalValue(digits), rest)
            else Err(FromIntError(PosOverflow))
  {
    var s := digits + rest;
    FirstNonDigitAfterDigits(digits, rest);
    assert FirstNonDigit(rest) == Some(0);
    assert s[..|digits|] == digits && s[|digits|..] == rest;
  }

  /** Round trip: the decimal text of any `n <= max`, followed by a non-digit, parses back to `n`. */
  lemma UsizeRoundTrip(n: nat, rest: string, max: nat)
    requires n <= max
    requires |rest| > 0 && !IsDigit(rest[0])
    ensures ParseUsize(ToDecimal(n) + rest, max) == Ok(n, rest)
  {
    ToDecimalValue(n);
    UsizeDigitsThenRest(ToDecimal(n), rest, max);
  }

  /** A bare number, with nothing after its digits, is rejected with `Int(None)`. */
  lemma UsizeRejectsBareNumber(n: nat, max: nat)
    ensures ParseUsize(ToDecimal(n), max) == Err(IntError(None))
  {
    ToDecimalValue(n);
  }

  /**
   * `usize::parse` as its test inputs expect it: a number that runs to the
   * end of the input is read whole, with an empty remainder.
   */
  function ParseUsizeToEnd(s: string, max: nat): (r: PResult<nat>)
    ensures r.Ok? ==>
      && (r.rest == [] || !IsDigit(r.rest[0]))
      && |r.rest| < |s|
      && var digits := s[..|s| - |r.rest|];
      && s == digits + r.rest
      && AllDigits(digits)
      && r.value == DecimalValue(digits) <= max
    ensures r.Err? ==> r.error.IntError? && r.error.cause.Some?
  {
    var last := match FirstNonDigit(s) case None => |s| case Some(k) => k;
    var digits := s[..last];
    assert s == digits + s[last..];
    if digits == [] then Err(FromIntError(EmptyDigits))
    else if DecimalValue(digits) > max then Err(FromIntError(PosOverflow))
    else Ok(DecimalValue(digits), s[last..])
  }

  /** Round trip for the corrected parser, including a number at the end of the input. */
  lemma {:induction false} UsizeToEndRoundTrip(n: nat, rest: string, max: nat)
    requires n <= max
    requires rest == [] || !IsDigit(rest[0])
    ensures ParseUsizeToEnd(ToDecimal(n) + rest, max) == Ok(n, rest)
  {
    ToDecimalValue(n);
    var digits := ToDecimal(n);
    var s := digits + rest;
    assert s[..|digits|] == digits && s[|digits|..] == rest;
    FirstNonDigitAfterDigits(digits, rest);
    assert FirstNonDigit(rest) == if rest == [] then None else Some(0);
  }

  // ---------------------------------------------------------------------
  // `str::trim_start`

  /** `char::is_whitespace`: the Unicode `White_Space` property. */
  predicate IsWhitespace(c: char)
  {
    || '\U{0009}' <= c <= '\U{000D}'
    || c == '\U{0020}'
    || c == '\U{0085}'
    || c == '\U{00A0}'
    || c == '\U{1680}'
    || '\U{2000}' <= c <= '\U{200A}'
    || c == '\U{2028}'
    || c == '\U{2029}'
    || c == '\U{202F}'
    || c == '\U{205F}'
    || c == '\U{3000}'
  }

  predicate IsSuffix(r: string, s: string)
  {
    |r| <= |s| && s[|s| - |r|..] == r
  }

  /** `str::trim_start`: drops the leading whitespace and nothing else. */
  function TrimStart(s: string): (r: string)
    ensures IsSuffix(r, s)
    ensures forall i | 0 <= i < |s| - |r| :: IsWhitespace(s[i])
    ensures r == [] || !IsWhitespace(r[0])
  {
    if s != [] && IsWhitespace(s[0]) then
      var r := TrimStart(s[1..]);
      assert forall i | 1 <= i < |s| - |r| :: s[i] == s[1..][i - 1];
      r
    else s
  }

  /** Leading whitespace in front of text that does not start with whitespace is exactly what `trim_start` drops. */
  lemma {:induction false} TrimStartWhitespace(ws: string, t: string)
    requires forall i | 0 <= i < |ws| :: IsWhitespace(ws[i])
    requires t == [] || !IsWhitespace(t[0])
    ensures TrimStart(ws + t) == t
  {
    if ws == [] {
      assert ws + t == t;
    } else {
      assert (ws + t)[0] == ws[0];
      assert (ws + t)[1..] == ws[1..] + t;
      TrimStartWhitespace(ws[1..], t);
    }
  }
}
