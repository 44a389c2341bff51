/**
 * proc/src/parse/generic.rs: the combinators `List<T>` (items read one
 * after another until the item parser fails) and `Paren<T>` (an item
 * between parentheses, whitespace allowed inside). An item parser is a
 * function value, `T::parse`.
 */
module ParseGeneric {
  import opened Parse

  /** An item parser consumes something whenever it succeeds. */
  ghost predicate MakesProgress<T>(p: Parser<T>)
  {
    forall t :: p(t).Ok? ==> |p(t).rest| < |t|
  }

  /**
   * What `List::parse` computes, from remainder `s` with `acc` already
   * read: an `Empty` error after at least one item ends the list with an
   * empty remainder, any other error is returned as is.
   */
  function ListFrom<T>(p: Parser<T>, s: string, acc: seq<T>): (r: PResult<seq<T>>)
    requires MakesProgress(p)
    ensures r.Ok? ==> r.rest == [] && |r.value| > 0 && acc <= r.value
    ensures r.Err? ==> r.error != Empty || |acc| == 0
    decreases |s|
  {
    match p(s)
    case Ok(x, rest) =>
      var r := ListFrom(p, rest, acc + [x]);
      assert r.Ok? ==> acc <= acc + [x] <= r.value;
      r
    case Err(e) =>
      if e == Empty && acc != [] then Ok(acc, "") else Err(e)
  }

  /** `List::parse`, with its loop. */
  method ParseList<T>(p: Parser<T>, s: string) returns (r: PResult<seq<T>>)
    requires MakesProgress(p)
    ensures r == ListFrom(p, s, [])
    ensures r.Ok? ==> |r.value| > 0 && r.rest == ""
  {
    var list: seq<T> := [];
    var rest := s;
    while true
      invariant ListFrom(p, rest, list) == ListFrom(p, s, [])
      decreases |rest|
    {
      var step := p(rest);
      if step.Ok? {
        list := list + [step.value];
        rest := step.rest;
      } else if step.error == Empty && list != [] {
        return Ok(list, "");
      } else {
        return Err(step.error);
      }
    }
  }

  /** `xs` are the items `p` reads one after another from `s`, leaving `end`. */
  ghost predicate Chain<T>(p: Parser<T>, s: string, xs: seq<T>, end: string)
    decreases |xs|
  {
    if xs == [] then s == end
    else p(s).Ok? && p(s).value == xs[0] && Chain(p, p(s).rest, xs[1..], end)
  }

  /**
   * The list is whatever items the parser reads in a row: when they run
   * out with an `Empty` error the list is those items, otherwise the list
   * fails with the error that stopped it.
   */
  lemma {:induction false} ListOfChain<T>(p: Parser<T>, s: string, acc: seq<T>, xs: seq<T>, end: string, e: ParseError)
    requires MakesProgress(p)
    requires Chain(p, s, xs, end) && p(end) == Err(e)
    ensures ListFrom(p, s, acc)
         == if e == Empty && acc + xs != [] then Ok(acc + xs, "") else Err(e)
    decreases |xs|
  {
    if xs == [] {
      assert acc + xs == acc;
    } else {
      var x := p(s).value;
      ListOfChain(p, p(s).rest, acc + [x], xs[1..], end, e);
      assert acc + [x] + xs[1..] == acc + xs;
    }
  }

  /** The unit parser succeeds without consuming anything, so a chain of it never moves and never stops. */
  lemma {:induction false} UnitChainStays(s: string, xs: seq<()>, end: string)
    requires Chain(ParseUnit, s, xs, end)
    ensures end == s && ParseUnit(end).Ok?
    decreases |xs|
  {
    if xs != [] {
      UnitChainStays(s, xs[1..], end);
    }
  }

  /** Hence `List<()>` is outside `ParseList`'s precondition: the source's loop would not end. */
  lemma UnitMakesNoProgress()
    ensures !MakesProgress(ParseUnit)
  {
    assert ParseUnit("x").Ok? && |ParseUnit("x").rest| == |"x"|;
  }

  /** An item parser that never reports `Empty` makes every list fail, with the item parser's own error. */
  lemma {:induction false} NeverEmptyFails<T>(p: Parser<T>, s: string, acc: seq<T>)
    requires MakesProgress(p)
    requires forall t :: p(t) != Err(Empty)
    ensures ListFrom(p, s, acc).Err? && ListFrom(p, s, acc).error != Empty
    decreases |s|
  {
    match p(s)
    case Ok(x, rest) => NeverEmptyFails(p, rest, acc + [x]);
    case Err(e) =>
  }

  lemma BoolMakesProgress()
    ensures MakesProgress(ParseBool)
  {
    forall t | ParseBool(t).Ok?
      ensures |ParseBool(t).rest| < |t|
    {
      var r := ParseBool(t);
      if r.value {
        assert t == "true" + r.rest;
        assert |t| == 4 + |r.rest|;
      } else {
        assert t == "false" + r.rest;
        assert |t| == 5 + |r.rest|;
      }
    }
  }

  /**
   * `List<bool>` never succeeds: the boolean parser never reports `Empty`,
   * and the loop does not consume the commas between items.
   */
  lemma BoolListFails(s: string)
    ensures MakesProgress(ParseBool) && ListFrom(ParseBool, s, []).Err?
  {
    BoolMakesProgress();
    NeverEmptyFails(ParseBool, s, []);
  }

  /** `Paren<T>`. */
  datatype Paren<T> = Paren(inner: T)

  /**
   * `Paren::parse`: an opening parenthesis, leading whitespace dropped,
   * the item, whitespace dropped, a closing parenthesis. A missing
   * parenthesis is `Paren`; the item parser's error passes through.
   */
  function ParseParen<T>(p: Parser<T>, s: string): (r: PResult<Paren<T>>)
    ensures !("(" <= s) ==> r == Err(ParenError)
    ensures "(" <= s && p(TrimStart(s[1..])).Err? ==> r == Err(p(TrimStart(s[1..])).error)
    ensures r.Ok? ==>
      && "(" <= s
      && var q := p(TrimStart(s[1..]));
      && q.Ok?
      && r.value.inner == q.value
      && TrimStart(q.rest) == ")" + r.rest
    ensures r.Err? && r.error != ParenError ==> "(" <= s && p(TrimStart(s[1..])) == Err(r.error)
    ensures "(" <= s && p(TrimStart(s[1..])).Ok? ==>
      (r.Ok? <==> ")" <= TrimStart(p(TrimStart(s[1..])).rest))
  {
    if !("(" <= s) then Err(ParenError)
    else
      match p(TrimStart(s[1..]))
      case Err(e) => Err(e)
      case Ok(x, rest) =>
        var t := TrimStart(rest);
        if ")" <= t then
          PrefixSplit(")", t);
          Ok(Paren(x), t[1..])
        else Err(ParenError)
  }

  /** A parser whose remainder is never longer than its input. */
  ghost predicate Consumes<T>(p: Parser<T>)
  {
    forall t :: p(t).Ok? ==> |p(t).rest| <= |t|
  }

  /** The parentheses make progress even around an item that consumes nothing, such as `()`. */
  lemma ParenMakesProgress<T>(p: Parser<T>)
    requires Consumes(p)
    ensures MakesProgress((t: string) => ParseParen(p, t))
  {
    forall t | ParseParen(p, t).Ok?
      ensures |ParseParen(p, t).rest| < |t|
    {
      var r := ParseParen(p, t);
      var q := p(TrimStart(t[1..]));
      assert |TrimStart(q.rest)| == 1 + |r.rest|;
    }
  }

  /**
   * Round trip: `(`, whitespace, text the item parser reads as `x` up to
   * `tail`, whitespace, `)` and any remainder parses to `Paren(x)` with
   * that remainder.
   */
  lemma ParenRoundTrip<T>(p: Parser<T>, x: T, ws1: string, body: string, ws2: string, rest: string)
    requires forall i | 0 <= i < |ws1| :: IsWhitespace(ws1[i])
    requires forall i | 0 <= i < |ws2| :: IsWhitespace(ws2[i])
    requires |body| > 0 && !IsWhitespace(body[0])
    requires p(body + ws2 + ")" + rest) == Ok(x, ws2 + ")" + rest)
    ensures ParseParen(p, "(" + ws1 + body + ws2 + ")" + rest) == Ok(Paren(x), rest)
  {
    var s := "(" + ws1 + body + ws2 + ")" + rest;
    var t := body + ws2 + ")" + rest;
    var close := ")" + rest;
    assert s[0] == '(' && "(" <= s;
    assert s[1..] == ws1 + t;
    assert t[0] == body[0];
    TrimStartWhitespace(ws1, t);
    assert TrimStart(s[1..]) == t;
    assert close[0] == ')';
    assert ws2 + ")" + rest == ws2 + close;
    TrimStartWhitespace(ws2, close);
    assert ")" <= close && close[1..] == rest;
  }

  lemma ConcatAssoc(a: string, b: string, c: string)
    ensures a + (b + c) == a + b + c
  {
  }

  /** A parenthesised boolean literal, with any whitespace inside, parses back. */
  lemma ParenBoolRoundTrip(b: bool, ws1: string, ws2: string, rest: string)
    requires forall i | 0 <= i < |ws1| :: IsWhitespace(ws1[i])
    requires forall i | 0 <= i < |ws2| :: IsWhitespace(ws2[i])
    ensures ParseParen(ParseBool, "(" + ws1 + BoolText(b) + ws2 + ")" + rest) == Ok(Paren(b), rest)
  {
    var body := BoolText(b);
    var tail := ws2 + ")" + rest;
    BoolRoundTrip(b, tail);
    ConcatAssoc(body, ws2 + ")", rest);
    ConcatAssoc(body, ws2, ")");
    assert !IsWhitespace(body[0]);
    ParenRoundTrip(ParseBool, b, ws1, body, ws2, rest);
  }
}
