/**
 * proc/src/parse/op.rs: the comparison operators of a condition, their
 * text, `FromStr`, and their `Parse` impl, which tries the operators'
 * texts as prefixes in declaration order.
 */
module ParseOp {
  import opened Common
  import opened Parse

  /** `CmpOp`. */
  datatype CmpOp = Eq | Ne | Lt | LtEq | Gt | GtEq

  /** `CmpOp::as_str`, also what `Display` writes. */
  function AsStr(op: CmpOp): (r: string)
    ensures 1 <= |r| <= 2
  {
    match op
    case Eq => "=="
    case Ne => "!="
    case Lt => "<"
    case LtEq => "<="
    case Gt => ">"
    case GtEq => ">="
  }

  /** No two operators are written the same way. */
  lemma AsStrInjective(a: CmpOp, b: CmpOp)
    ensures AsStr(a) == AsStr(b) <==> a == b
  {
  }

  /** `<CmpOp as FromStr>::from_str`: an exact match of the whole text; `None` is `Err(())`. */
  function FromStr(s: string): (r: Option<CmpOp>)
    ensures r.Some? ==> AsStr(r.value) == s
    ensures r.None? <==> forall op: CmpOp :: AsStr(op) != s
  {
    if s == "==" then Some(Eq)
    else if s == "!=" then Some(Ne)
    else if s == "<" then Some(Lt)
    else if s == "<=" then Some(LtEq)
    else if s == ">" then Some(Gt)
    else if s == ">=" then Some(GtEq)
    else None
  }

  /** `from_str` inverts `as_str`. */
  lemma FromStrAsStr(op: CmpOp)
    ensures FromStr(AsStr(op)) == Some(op)
  {
    var r := FromStr(AsStr(op));
    AsStrInjective(r.value, op);
  }

  /**
   * `CmpOp::parse`, as written: the first operator text that the input
   * starts with, in declaration order. Because `"<"` is tried before
   * `"<="` (and `">"` before `">="`), `LtEq` and `GtEq` are never produced.
   */
  function ParseCmpOp(s: string): (r: PResult<CmpOp>)
    ensures r.Ok? ==> AsStr(r.value) <= s && r.rest == s[|AsStr(r.value)|..]
    ensures r.Ok? ==> r.value != LtEq && r.value != GtEq
    ensures r.Err? <==> !("==" <= s) && !("!=" <= s) && !("<" <= s) && !(">" <= s)
    ensures r.Err? ==> r.error == CmpOpError
  {
    if "==" <= s then Ok(Eq, s[2..])
    else if "!=" <= s then Ok(Ne, s[2..])
    else if "<" <= s then Ok(Lt, s[1..])
    else if "<=" <= s then Ok(LtEq, s[2..])
    else if ">" <= s then Ok(Gt, s[1..])
    else if ">=" <= s then Ok(GtEq, s[2..])
    else Err(CmpOpError)
  }

  /** `<=` is read as `<`, leaving the `=` behind; likewise `>=`. */
  lemma TwoCharOpsShadowed(rest: string)
    ensures ParseCmpOp("<=" + rest) == Ok(Lt, "=" + rest)
    ensures ParseCmpOp(">=" + rest) == Ok(Gt, "=" + rest)
  {
    var le := "<=" + rest;
    var ge := ">=" + rest;
    assert le[0] == '<' && le[1..] == "=" + rest;
    assert ge[0] == '>' && ge[1..] == "=" + rest;
  }

  /** `CmpOp::parse` with each two-character operator tried ahead of its one-character prefix. */
  function ParseCmpOpLongest(s: string): (r: PResult<CmpOp>)
    ensures r.Ok? ==> AsStr(r.value) <= s && r.rest == s[|AsStr(r.value)|..]
    ensures r.Ok? && r.value in {Lt, Gt} ==> r.rest == [] || r.rest[0] != '='
    ensures r.Err? <==> !("==" <= s) && !("!=" <= s) && !("<" <= s) && !(">" <= s)
    ensures r.Err? ==> r.error == CmpOpError
  {
    if "==" <= s then Ok(Eq, s[2..])
    else if "!=" <= s then Ok(Ne, s[2..])
    else if "<=" <= s then Ok(LtEq, s[2..])
    else if "<" <= s then Ok(Lt, s[1..])
    else if ">=" <= s then Ok(GtEq, s[2..])
    else if ">" <= s then Ok(Gt, s[1..])
    else Err(CmpOpError)
  }

  /** Every operator, followed by anything but `=`, parses back to itself. */
  lemma LongestRoundTrip(op: CmpOp, rest: string)
    requires rest == [] || rest[0] != '='
    ensures ParseCmpOpLongest(AsStr(op) + rest) == Ok(op, rest)
  {
    var s := AsStr(op) + rest;
    assert s[0] == AsStr(op)[0];
    assert |AsStr(op)| == 2 ==> s[1] == AsStr(op)[1];
    assert |AsStr(op)| == 1 && rest != [] ==> s[1] == rest[0];
    assert s[|AsStr(op)|..] == rest;
  }

  /** `BinOp`: only comparisons so far. */
  datatype BinOp = Cmp(op: CmpOp)

  /** `BinOp::parse`: the comparison operator `CmpOp::parse` reads, wrapped. */
  function ParseBinOp(s: string): (r: PResult<BinOp>)
    ensures r.Ok? <==> ParseCmpOp(s).Ok?
    ensures r.Ok? ==> r.value == Cmp(ParseCmpOp(s).value) && r.rest == ParseCmpOp(s).rest
    ensures r.Err? ==> r.error == ParseCmpOp(s).error
    ensures r.Ok? ==> AsStr(r.value.op) <= s && r.rest == s[|AsStr(r.value.op)|..]
  {
    match ParseCmpOp(s)
    case Ok(op, rest) => Ok(Cmp(op), rest)
    case Err(e) => Err(e)
  }

  /** `BinOp::parse` as evidently intended: over the longest-match operator parser. */
  function ParseBinOpLongest(s: string): (r: PResult<BinOp>)
    ensures r.Ok? <==> ParseCmpOpLongest(s).Ok?
    ensures r.Ok? ==> ParseCmpOpLongest(s) == Ok(r.value.op, r.rest)
    ensures r.Err? ==> ParseCmpOpLongest(s).Err?
    ensures r.Ok? ==> AsStr(r.value.op) <= s && r.rest == s[|AsStr(r.value.op)|..]
    ensures r.Ok? && r.value.op in {Lt, Gt} ==> r.rest == [] || r.rest[0] != '='
    ensures r.Err? ==> r.error == CmpOpError
  {
    match ParseCmpOpLongest(s)
    case Ok(op, rest) => Ok(Cmp(op), rest)
    case Err(e) => Err(e)
  }

  /** Every operator, `<=` and `>=` included, reaches a `BinOp` through the intended parser. */
  lemma BinOpLongestRoundTrip(op: CmpOp, rest: string)
    requires rest == [] || rest[0] != '='
    ensures ParseBinOpLongest(AsStr(op) + rest) == Ok(Cmp(op), rest)
  {
    LongestRoundTrip(op, rest);
  }
}
