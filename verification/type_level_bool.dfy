/**
 * src/type_level_bool.rs: the older copy of the type-level booleans. Its
 * `True`/`False` are types of their own, distinct from those of
 * src/bool.rs, with the same `not`/`and`/`or` methods; its `ToBool` trait
 * names the associated type `Value`, and `to_bool!` indexes the array type
 * with `x as usize` directly instead of through a local `const`.
 */
module TypeLevelBool {
  import opened Common
  import TypeBool

  /** The older `True` and `False` markers. */
  datatype TBool = True | False {

    function Not(): (r: TBool)
      ensures r != this
    {
      match this
      case True => False
      case False => True
    }

    function And(other: TBool): (r: TBool)
      ensures this == True ==> r == other
      ensures this == False ==> r == False
    {
      match this
      case True => other
      case False => False
    }

    function Or(other: TBool): (r: TBool)
      ensures this == True ==> r == True
      ensures this == False ==> r == other
    {
      match this
      case True => True
      case False => other
    }
  }

  /** The corresponding marker of src/bool.rs. */
  function Current(x: TBool): (r: TypeBool.TBool)
    ensures r.Value() <==> x == True
  {
    match x
    case True => TypeBool.True
    case False => TypeBool.False
  }

  /** `impl ToBool for [(); 0]` and `[(); 1]`: `Value` is `False` resp. `True`; no other length has an impl. */
  function ArrayValue(len: nat): (r: Option<TBool>)
    ensures r.Some? <==> len <= 1
    ensures r.Some? ==> (r.value == True <==> len == 1)
  {
    if len == 0 then Some(False)
    else if len == 1 then Some(True)
    else None
  }

  /** `to_bool!(x)`: `<[(); x as usize] as ToBool>::TO_BOOL`. */
  function ToBoolMacro(x: bool): (r: TBool)
    ensures r == True <==> x
  {
    ArrayValue(TypeBool.BoolAsUsize(x)).value
  }

  /**
   * The older copy is the same algebra as src/bool.rs: translating to the
   * current markers commutes with `not`, `and`, `or` and with the lift.
   */
  lemma AgreesWithCurrent(x: TBool, y: TBool, b: bool)
    ensures Current(x.Not()) == Current(x).Not()
    ensures Current(x.And(y)) == Current(x).And(Current(y))
    ensures Current(x.Or(y)) == Current(x).Or(Current(y))
    ensures Current(ToBoolMacro(b)) == TypeBool.ToBoolMacro(b)
    ensures x.Not().Not() == x
  {
  }
}
