/**
 * proc/src/parse/mod.rs, continued: the `Cond` syntax tree and its
 * `Parse` impl, which so far reads only a boolean literal and reaches
 * `unimplemented!()` otherwise.
 */
module ParseCond {
  import opened Common
  import opened Parse
  import opened ParseOp

  /** `Cond`, a boolean condition. */
  datatype Cond =
    | BoolLit(b: bool)
    | MemPropCmp(prop: MemProp, cmp: CmpOp, n: nat)
    | ParenCond(inner: Cond)
    | Neg(inner: Cond)
    | Binary(left: Cond, op: BinOp, right: Cond)

  /**
   * `Cond::parse`: a boolean literal becomes `Cond::Bool`; anything else
   * panics in `unimplemented!()`, which is `None` here.
   */
  function ParseCondition(s: string): (r: Option<PResult<Cond>>)
    ensures r.Some? <==> "true" <= s || "false" <= s
    ensures r.Some? ==>
      && r.value.Ok?
      && r.value.value.BoolLit?
      && s == BoolText(r.value.value.b) + r.value.rest
  {
    match ParseBool(s)
    case Ok(b, rest) => Some(Ok(BoolLit(b), rest))
    case Err(_) => None
  }

  /** Every boolean literal, followed by anything, parses back. */
  lemma ConditionRoundTrip(b: bool, rest: string)
    ensures ParseCondition(BoolText(b) + rest) == Some(Ok(BoolLit(b), rest))
  {
    BoolRoundTrip(b, rest);
  }

  /** The other forms of the grammar are not parsed yet: they reach the panic. */
  lemma ConditionUnimplemented()
    ensures ParseCondition("(true)").None?
    ensures ParseCondition("!true").None?
    ensures ParseCondition("size < 4").None?
  {
    var a, b, c := "(true)", "!true", "size < 4";
    assert a[0] == '(' && b[0] == '!' && c[0] == 's';
  }
}
