/**
 * src/bool.rs: the type-level booleans `True` and `False`, their `not`,
 * `and` and `or` methods, the `ToBool` impls for `[(); 0]` and `[(); 1]`,
 * and the `_to_bool!` lift of a `const bool`.
 */
module TypeBool {
  import opened Common

  /** The two zero-sized marker types `True` and `False`. */
  datatype TBool = True | False {

    /** The plain `bool` a marker stands for. */
    function Value(): bool {
      this == True
    }

    /** `True.not()` is `&FALSE`, `False.not()` is `&TRUE`. */
    function Not(): (r: TBool)
      ensures r != this
      ensures r.Value() == !Value()
    {
      match this
      case True => False
      case False => True
    }

    /**
     * `True.and(other)` returns `other`; `False.and(_)` returns `&FALSE`.
     * The source's `and` takes any `&T`; here the argument is narrowed to
     * `TBool`, the only type the macros pass it.
     */
    function And(other: TBool): (r: TBool)
      ensures r.Value() == (Value() && other.Value())
    {
      match this
      case True => other
      case False => False
    }

    /**
     * `True.or(_)` returns `&TRUE`; `False.or(other)` returns `other`.
     * The argument is narrowed to `TBool` as for `And`.
     */
    function Or(other: TBool): (r: TBool)
      ensures r.Value() == (Value() || other.Value())
    {
      match this
      case True => True
      case False => other
    }
  }

  /** The marker for a plain boolean. */
  function Lift(b: bool): (r: TBool)
    ensures r.Value() == b
  {
    if b then True else False
  }

  /**
   * `<[(); len] as ToBool>::TO_BOOL`: only the array types of length 0 and
   * 1 implement `ToBool`; any other length has no impl, so the path does
   * not resolve (`None`).
   */
  function ArrayToBool(len: nat): (r: Option<TBool>)
    ensures r.Some? <==> len <= 1
    ensures r.Some? ==> (r.value == True <==> len == 1)
  {
    if len == 0 then Some(False)
    else if len == 1 then Some(True)
    else None
  }

  /** Rust's `b as usize` for a `bool`. */
  function BoolAsUsize(b: bool): (n: nat)
    ensures n <= 1
    ensures n == 1 <==> b
  {
    if b then 1 else 0
  }

  /**
   * `_to_bool!(x)`: binds `const X: bool = x` and reads
   * `<[(); X as usize] as ToBool>::TO_BOOL`.
   */
  function ToBoolMacro(x: bool): (r: TBool)
    ensures r.Value() == x
    ensures r == Lift(x)
  {
    ArrayToBool(BoolAsUsize(x)).value
  }

  /** `not` is an involution and never a fixed point. */
  lemma NotInvolution(x: TBool)
    ensures x.Not().Not() == x
    ensures x.Not() != x
  {
  }

  /** `and` and `or` agree with `&&` and `||` on the lifted values, in both argument orders. */
  lemma AlgebraAgreesWithBool(a: bool, b: bool)
    ensures Lift(a).And(Lift(b)) == Lift(a && b)
    ensures Lift(a).Or(Lift(b)) == Lift(a || b)
    ensures Lift(a).Not() == Lift(!a)
  {
  }
}
