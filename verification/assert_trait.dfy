/**
 * src/assert_trait.rs: `assert_trait_sub_all!`, `assert_trait_sub_any!`
 * and `assert_trait_super_all!`.
 *
 * Each sub macro declares its own local `True`/`False` with `Not`, `And`
 * and `Or` traits, and inside `fn forall<T: $sub>()` asks, per listed
 * trait, whether `Wrapper<T>: DoesImpl` holds through the `T: $super` impl
 * (`True`) or only through `Deref` to `Base` (`False`). Whether the bound
 * `T: $sub` guarantees `T: $super` is the compiler's answer, here the
 * parameter `entails(sub, super)`. The assertion is `assert_true(result)`,
 * which type-checks only when the folded result is `True`.
 */
module AssertTrait {
  import TypeBool

  /** The macro-local `True` and `False`. */
  datatype Truth = True | False {

    /** `impl Not for True` gives `False`, `impl Not for False` gives `True`. */
    function Not(): (r: Truth)
      ensures r != this
    {
      match this
      case True => False
      case False => True
    }

    /** `impl<T> And<T> for True` returns `other`; `for False` returns `False`. */
    function And(other: Truth): (r: Truth)
      ensures r == True <==> this == True && other == True
    {
      match this
      case True => other
      case False => False
    }

    /** `impl<T> Or<T> for True` returns `True`; `for False` returns `other`. */
    function Or(other: Truth): (r: Truth)
      ensures r == True <==> this == True || other == True
    {
      match this
      case True => True
      case False => other
    }
  }

  /** The marker of src/bool.rs with the same meaning. */
  function Shared(x: Truth): (r: TypeBool.TBool)
    ensures r.Value() <==> x == True
  {
    if x == True then TypeBool.True else TypeBool.False
  }

  /** The local algebra is the one of src/bool.rs. */
  lemma LocalAlgebraAgrees(x: Truth, y: Truth)
    ensures Shared(x.Not()) == Shared(x).Not()
    ensures Shared(x.And(y)) == Shared(x).And(Shared(y))
    ensures Shared(x.Or(y)) == Shared(x).Or(Shared(y))
  {
  }

  /**
   * One per-trait check: `Wrapper::<T>(PhantomData).does_impl()` resolves
   * to the `impl<T: $super> DoesImpl for Wrapper<T>` (`True`) when `T: $sub`
   * entails `T: $super`, and otherwise auto-derefs to `Base` (`False`).
   */
  function Check(entails: (string, string) -> bool, sub: string, super: string): (r: Truth)
    ensures r == True <==> entails(sub, super)
  {
    if entails(sub, super) then True else False
  }

  /** The chain `let result = result.and({ … });` over the listed traits, a left fold. */
  function FoldAnd(entails: (string, string) -> bool, sub: string, acc: Truth, supers: seq<string>): (r: Truth)
    ensures r == True <==> acc == True && forall i | 0 <= i < |supers| :: entails(sub, supers[i])
    decreases |supers|
  {
    if supers == [] then acc
    else FoldAnd(entails, sub, acc.And(Check(entails, sub, supers[0])), supers[1..])
  }

  /** The chain `let result = result.or({ … });` over the listed traits. */
  function FoldOr(entails: (string, string) -> bool, sub: string, acc: Truth, supers: seq<string>): (r: Truth)
    ensures r == True <==> acc == True || exists i | 0 <= i < |supers| :: entails(sub, supers[i])
    decreases |supers|
  {
    if supers == [] then acc
    else
      var r := FoldOr(entails, sub, acc.Or(Check(entails, sub, supers[0])), supers[1..]);
      assert (exists i | 0 <= i < |supers| :: entails(sub, supers[i]))
         <==> entails(sub, supers[0]) || exists i | 0 <= i < |supers[1..]| :: entails(sub, supers[1..][i])
      by {
        if exists i | 0 <= i < |supers| :: entails(sub, supers[i]) {
          var i :| 0 <= i < |supers| && entails(sub, supers[i]);
          if i > 0 { assert supers[1..][i - 1] == supers[i]; }
        }
      }
      r
  }

  /**
   * `assert_trait_sub_all!(sub: supers…)`: at least one trait must be
   * listed (`$(…),+`); the fold from `True` must be `True`, so the assertion
   * holds exactly when `sub` entails every listed trait.
   */
  function SubAll(entails: (string, string) -> bool, sub: string, supers: seq<string>): (ok: bool)
    ensures ok <==> |supers| > 0 && forall i | 0 <= i < |supers| :: entails(sub, supers[i])
  {
    |supers| > 0 && FoldAnd(entails, sub, True, supers) == True
  }

  /**
   * `assert_trait_sub_any!(sub: supers…)`: the fold of `or` from `False`
   * must be `True`, so the assertion holds exactly when `sub` entails at
   * least one listed trait.
   */
  function SubAny(entails: (string, string) -> bool, sub: string, supers: seq<string>): (ok: bool)
    ensures ok <==> exists i | 0 <= i < |supers| :: entails(sub, supers[i])
  {
    |supers| > 0 && FoldOr(entails, sub, False, supers) == True
  }

  /**
   * `assert_trait_super_all!(super: subs…)` expands to one
   * `assert_trait_sub_all!(sub: super)` per listed trait; it holds exactly
   * when every listed trait entails `super`.
   */
  function SuperAll(entails: (string, string) -> bool, super: string, subs: seq<string>): (ok: bool)
    ensures ok <==> |subs| > 0 && forall i | 0 <= i < |subs| :: entails(subs[i], super)
  {
    |subs| > 0 && forall i | 0 <= i < |subs| :: SubAll(entails, subs[i], [super])
  }

  /**
   * Supertrait declarations of the standard traits used in the doc
   * examples (`Copy: Clone`, `Eq: PartialEq`, `PartialOrd: PartialEq`,
   * `Ord: Eq + PartialOrd`), closed under transitivity, and every trait
   * entails itself.
   */
  function StdEntails(sub: string, super: string): bool
  {
    || sub == super
    || (sub == "Copy" && super == "Clone")
    || (sub == "Eq" && super == "PartialEq")
    || (sub == "PartialOrd" && super == "PartialEq")
    || (sub == "Ord" && super in ["Eq", "PartialOrd", "PartialEq"])
  }

  /** The doc examples of `assert_trait_sub_all!` and `assert_trait_sub_any!`. */
  lemma DocExamples()
    ensures SubAll(StdEntails, "Copy", ["Clone"])
    ensures SubAll(StdEntails, "Ord", ["PartialEq", "Eq", "PartialOrd"])
    ensures !SubAll(StdEntails, "PartialOrd", ["Eq"])
    ensures SubAny(StdEntails, "Copy", ["Clone"])
    ensures SubAny(StdEntails, "Ord", ["Eq", "Clone"])
    ensures !SubAny(StdEntails, "PartialOrd", ["Eq", "Clone"])
  {
    var ord := ["PartialEq", "Eq", "PartialOrd"];
    assert forall i | 0 <= i < |ord| :: StdEntails("Ord", ord[i]);
    assert StdEntails("Ord", ["Eq", "Clone"][0]);
  }

  /** The doc example of `assert_trait_super_all!`: with `trait A: Copy`, `trait B: Copy` and `trait C`, `Copy: A, B` holds and `Copy: A, B, C` does not. */
  lemma SuperAllDocExample(entails: (string, string) -> bool)
    requires entails("A", "Copy") && entails("B", "Copy") && !entails("C", "Copy")
    ensures SuperAll(entails, "Copy", ["A", "B"])
    ensures !SuperAll(entails, "Copy", ["A", "B", "C"])
  {
    var ab := ["A", "B"];
    assert forall i | 0 <= i < |ab| :: entails(ab[i], "Copy");
    assert ["A", "B", "C"][2] == "C";
  }
}
