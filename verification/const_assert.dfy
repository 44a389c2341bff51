/**
 * src/const_assert.rs: `const_assert!`, `const_assert_eq!` and
 * `const_assert_ne!` (stable expansions).
 *
 * `_const_assert!(e1, …, en)` declares `[(); 0 - !(e1 && … && en) as usize]`.
 * The array length is `0 - 0` when every condition holds; otherwise it is
 * `0 - 1`, an underflow of `usize` that constant evaluation rejects.
 */
module ConstAssert {
  import opened Common
  import TypeBool

  /** The arguments `[label;] conditions…`. A label wraps the check in `fn label()`, so that it may stand at module scope; where an invocation stands is not modelled. */
  datatype Args = Args(fnLabel: Option<string>, conds: seq<bool>)

  /** `usize` subtraction in a constant: an underflow is a compile error (`None`). */
  function UsizeSub(a: nat, b: nat): (r: Option<nat>)
    ensures r.Some? <==> b <= a
    ensures r.Some? ==> r.value + b == a
  {
    if b <= a then Some(a - b) else None
  }

  /** `e1 && … && en`, the `&&+` separator of the macro repetition. */
  function Conj(cs: seq<bool>): (r: bool)
    requires |cs| > 0
    ensures r <==> forall i | 0 <= i < |cs| :: cs[i]
  {
    if |cs| == 1 then cs[0] else cs[0] && Conj(cs[1..])
  }

  /** The array length `0 - !(e1 && … && en) as usize`. */
  function ArrayLength(cs: seq<bool>): (r: Option<nat>)
    requires |cs| > 0
    ensures r.Some? <==> forall i | 0 <= i < |cs| :: cs[i]
    ensures r.Some? ==> r.value == 0
  {
    UsizeSub(0, TypeBool.BoolAsUsize(!Conj(cs)))
  }

  /**
   * `const_assert!([label;] conds…)` compiles exactly when every condition
   * is true (and at least one is given).
   */
  function ConstAssertMacro(args: Args): (ok: bool)
    ensures ok <==> |args.conds| > 0 && forall i | 0 <= i < |args.conds| :: args.conds[i]
  {
    |args.conds| > 0 && ArrayLength(args.conds).Some?
  }

  /** The conditions `x == y1, …, x == yn` of `const_assert_eq!`. */
  function EqConds(x: int, ys: seq<int>): (cs: seq<bool>)
    ensures |cs| == |ys|
    ensures forall i | 0 <= i < |ys| :: cs[i] == (x == ys[i])
  {
    seq(|ys|, i requires 0 <= i < |ys| => x == ys[i])
  }

  /** The conditions `x != y1, …, x != yn` of `const_assert_ne!`. */
  function NeConds(x: int, ys: seq<int>): (cs: seq<bool>)
    ensures |cs| == |ys|
    ensures forall i | 0 <= i < |ys| :: cs[i] == (x != ys[i])
  {
    seq(|ys|, i requires 0 <= i < |ys| => x != ys[i])
  }

  /** `const_assert_eq!([label;] x, ys…)`: every `y` equals the first argument `x`. */
  function ConstAssertEq(fnLabel: Option<string>, x: int, ys: seq<int>): (ok: bool)
    ensures ok <==> |ys| > 0 && forall i | 0 <= i < |ys| :: ys[i] == x
  {
    ConstAssertMacro(Args(fnLabel, EqConds(x, ys)))
  }

  /** `const_assert_ne!([label;] x, ys…)`: every `y` differs from the first argument `x`; the `y`s are not compared with each other. */
  function ConstAssertNe(fnLabel: Option<string>, x: int, ys: seq<int>): (ok: bool)
    ensures ok <==> |ys| > 0 && forall i | 0 <= i < |ys| :: ys[i] != x
  {
    ConstAssertMacro(Args(fnLabel, NeConds(x, ys)))
  }

  /** A failing condition makes the array length underflow. */
  lemma FailureIsUnderflow(cs: seq<bool>, i: nat)
    requires i < |cs| && !cs[i]
    ensures ArrayLength(cs) == None
  {
  }

  /** `const_assert_ne!` is not pairwise distinctness: `1, 2, 2` passes. */
  lemma NeComparesFirstOnly()
    ensures ConstAssertNe(None, 1, [2, 2])
  {
  }

  /** The doc and test examples, with `TWO = 2` and `FIVE = 5`. */
  lemma Examples()
    ensures ConstAssertEq(Some("two"), 2 * 2, [2 + 2, 4])
    ensures !ConstAssertEq(None, 4 + 4, [4 * 4])
    ensures ConstAssertNe(Some("nums"), 1, [2, 3, 4])
    ensures !ConstAssertNe(None, 2 + 2, [2 * 2])
    ensures ConstAssertMacro(Args(None, [5 * 2 == 10]))
    ensures ConstAssertMacro(Args(None, [5 > 2]))
    ensures !ConstAssertMacro(Args(None, [1 >= 2]))
  {
    assert [4 * 4][0] != 4 + 4;
    assert [2 * 2][0] == 2 + 2;
    assert [1 >= 2][0] == false;
  }
}
