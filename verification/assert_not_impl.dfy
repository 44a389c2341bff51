/**
 * src/assert_not_impl.rs: `assert_not_impl_all!` and
 * `assert_not_impl_any!` (the stable expansions; the nightly ones wrap
 * the block in `const _` and have no labelled arm).
 *
 * Both declare a trait `AmbiguousIfImpl<A>` with a blanket impl for
 * `A = ()` and one or more impls for a local `Invalid` type, then name
 * `<$x as AmbiguousIfImpl<_>>::some_item`. The `_` is inferred only when
 * exactly one impl applies to `$x`; with two or more it is ambiguous and
 * the crate fails to compile. `implements(ty, trait)` is the compiler's
 * answer to `ty: trait`.
 */
module AssertNotImpl {
  import opened Common

  /** One candidate impl of `AmbiguousIfImpl<_>`. */
  datatype Candidate =
    | UnitImpl                          // `impl<T: ?Sized> AmbiguousIfImpl<()> for T`
    | InvalidImpl(bounds: seq<string>)  // `impl<T: ?Sized + bounds…> AmbiguousIfImpl<Invalid> for T`

  /** The arguments `[label;] ty, traits…`. A label wraps the check in `fn label()`, so that it may stand at module scope; where an invocation stands is not modelled. */
  datatype Args = Args(fnLabel: Option<string>, ty: string, traits: seq<string>)

  predicate Applies(implements: (string, string) -> bool, ty: string, c: Candidate)
  {
    match c
    case UnitImpl => true
    case InvalidImpl(bounds) => forall i | 0 <= i < |bounds| :: implements(ty, bounds[i])
  }

  /** How many candidates apply to `ty`. */
  function CountApplying(implements: (string, string) -> bool, ty: string, cs: seq<Candidate>): nat
  {
    if cs == [] then 0
    else (if Applies(implements, ty, cs[0]) then 1 else 0) + CountApplying(implements, ty, cs[1..])
  }

  lemma CountCons(implements: (string, string) -> bool, ty: string, c: Candidate, rest: seq<Candidate>)
    ensures CountApplying(implements, ty, [c] + rest)
         == (if Applies(implements, ty, c) then 1 else 0) + CountApplying(implements, ty, rest)
  {
    assert ([c] + rest)[1..] == rest;
  }

  lemma AppliesSingle(implements: (string, string) -> bool, ty: string, t: string)
    ensures Applies(implements, ty, InvalidImpl([t])) <==> implements(ty, t)
  {
    assert [t][0] == t;
  }

  /** The item path resolves exactly when one candidate applies. */
  predicate Resolves(implements: (string, string) -> bool, ty: string, cs: seq<Candidate>)
  {
    CountApplying(implements, ty, cs) == 1
  }

  /** `_assert_not_impl_all!`: the `()` impl and one `Invalid` impl bounded by all listed traits. */
  function AllCandidates(traits: seq<string>): seq<Candidate>
  {
    [UnitImpl, InvalidImpl(traits)]
  }

  /** `_assert_not_impl_any!`: one `Invalid` impl per listed trait, each in its own block with its own `Invalid`. */
  function InvalidPerTrait(traits: seq<string>): (cs: seq<Candidate>)
    ensures |cs| == |traits|
    ensures forall i | 0 <= i < |traits| :: cs[i] == InvalidImpl([traits[i]])
  {
    if traits == [] then [] else [InvalidImpl([traits[0]])] + InvalidPerTrait(traits[1..])
  }

  /** `_assert_not_impl_any!`: the `()` impl and the per-trait `Invalid` impls. */
  function AnyCandidates(traits: seq<string>): seq<Candidate>
  {
    [UnitImpl] + InvalidPerTrait(traits)
  }

  /** For `_all`, the `()` impl always applies and the `Invalid` impl exactly when every listed trait is implemented. */
  lemma AllCandidatesCount(implements: (string, string) -> bool, ty: string, traits: seq<string>)
    ensures CountApplying(implements, ty, AllCandidates(traits))
         == if forall i | 0 <= i < |traits| :: implements(ty, traits[i]) then 2 else 1
  {
    CountCons(implements, ty, UnitImpl, [InvalidImpl(traits)]);
    CountCons(implements, ty, InvalidImpl(traits), []);
    assert AllCandidates(traits) == [UnitImpl] + [InvalidImpl(traits)];
    assert [InvalidImpl(traits)] + [] == [InvalidImpl(traits)];
  }

  /** For `_any`, the `()` impl always applies and one `Invalid` impl per listed trait the type implements. */
  lemma AnyCandidatesCount(implements: (string, string) -> bool, ty: string, traits: seq<string>)
    ensures CountApplying(implements, ty, AnyCandidates(traits)) == 1 + ImplementedCount(implements, ty, traits)
  {
    CountCons(implements, ty, UnitImpl, InvalidPerTrait(traits));
    InvalidPerTraitCount(implements, ty, traits);
  }

  /** How many listed entries the type implements (an entry listed twice counts twice). */
  function ImplementedCount(implements: (string, string) -> bool, ty: string, traits: seq<string>): nat
  {
    if traits == [] then 0
    else (if implements(ty, traits[0]) then 1 else 0) + ImplementedCount(implements, ty, traits[1..])
  }

  /**
   * The `Invalid` impls of `_any` that apply are exactly the listed traits
   * the type implements; in particular none applies exactly when the type
   * implements no listed trait.
   */
  lemma {:induction false} InvalidPerTraitCount(implements: (string, string) -> bool, ty: string, traits: seq<string>)
    ensures CountApplying(implements, ty, InvalidPerTrait(traits)) == ImplementedCount(implements, ty, traits)
    ensures CountApplying(implements, ty, InvalidPerTrait(traits)) == 0
        <==> forall i | 0 <= i < |traits| :: !implements(ty, traits[i])
  {
    if traits != [] {
      CountCons(implements, ty, InvalidImpl([traits[0]]), InvalidPerTrait(traits[1..]));
      AppliesSingle(implements, ty, traits[0]);
      InvalidPerTraitCount(implements, ty, traits[1..]);
      if forall i | 0 <= i < |traits[1..]| :: !implements(ty, traits[1..][i]) {
        forall i | 0 <= i < |traits| && i > 0 ensures !implements(ty, traits[i]) {
          assert traits[i] == traits[1..][i - 1];
        }
      }
    }
  }

  /**
   * `assert_not_impl_all!([label;] ty, traits…)` compiles exactly when the
   * type lacks at least one listed trait; with no trait listed no arm
   * matches.
   */
  function NotImplAll(implements: (string, string) -> bool, args: Args): (ok: bool)
    ensures ok <==> exists i | 0 <= i < |args.traits| :: !implements(args.ty, args.traits[i])
  {
    var cs := AllCandidates(args.traits);
    CountCons(implements, args.ty, UnitImpl, [InvalidImpl(args.traits)]);
    CountCons(implements, args.ty, InvalidImpl(args.traits), []);
    assert cs == [UnitImpl] + [InvalidImpl(args.traits)];
    assert [InvalidImpl(args.traits)] + [] == [InvalidImpl(args.traits)];
    |args.traits| > 0 && Resolves(implements, args.ty, cs)
  }

  /**
   * `assert_not_impl_any!([label;] ty, traits…)` compiles exactly when the
   * type implements none of the listed traits (and at least one is listed).
   */
  function NotImplAny(implements: (string, string) -> bool, args: Args): (ok: bool)
    ensures ok <==> |args.traits| > 0 && forall i | 0 <= i < |args.traits| :: !implements(args.ty, args.traits[i])
  {
    var cs := AnyCandidates(args.traits);
    CountCons(implements, args.ty, UnitImpl, InvalidPerTrait(args.traits));
    InvalidPerTraitCount(implements, args.ty, args.traits);
    |args.traits| > 0 && Resolves(implements, args.ty, cs)
  }

  /** For a single trait both macros give the same verdict. */
  lemma SingleTraitAgrees(implements: (string, string) -> bool, fnLabel: Option<string>, ty: string, t: string)
    ensures NotImplAll(implements, Args(fnLabel, ty, [t])) == NotImplAny(implements, Args(fnLabel, ty, [t]))
    ensures NotImplAll(implements, Args(fnLabel, ty, [t])) <==> !implements(ty, t)
  {
    assert [t][0] == t;
  }

  /** `_any` fails as soon as two listed traits are implemented: three candidates then apply. */
  lemma AnyAmbiguous(implements: (string, string) -> bool, ty: string, t: string, u: string)
    requires implements(ty, t) && implements(ty, u)
    ensures CountApplying(implements, ty, AnyCandidates([t, u])) == 3
  {
    assert [t, u][1..] == [u];
    assert [u][1..] == [];
    assert InvalidPerTrait([u]) == [InvalidImpl([u])] + [];
    assert InvalidPerTrait([t, u]) == [InvalidImpl([t])] + InvalidPerTrait([u]);
    CountCons(implements, ty, InvalidImpl([u]), []);
    CountCons(implements, ty, InvalidImpl([t]), InvalidPerTrait([u]));
    CountCons(implements, ty, UnitImpl, InvalidPerTrait([t, u]));
    AppliesSingle(implements, ty, t);
    AppliesSingle(implements, ty, u);
  }

  /** `Cell<u32>` is `Send` but not `Sync`; `u32` is `Into<u64>` but not `Into<u16>`. */
  predicate DocImpls(ty: string, t: string)
  {
    (ty == "Cell<u32>" && t == "Send") || (ty == "u32" && t == "Into<u64>")
  }

  /** The doc examples: `cell; Cell<u32>, Sync, Send` passes `_all`, `cell; Cell<u32>, Send` fails it, and `u32, Into<u64>, Into<u16>` fails `_any`. */
  lemma DocExamples()
    ensures NotImplAll(DocImpls, Args(Some("cell"), "Cell<u32>", ["Sync", "Send"]))
    ensures !NotImplAll(DocImpls, Args(Some("cell"), "Cell<u32>", ["Send"]))
    ensures !NotImplAny(DocImpls, Args(None, "u32", ["Into<u64>", "Into<u16>"]))
  {
    assert !DocImpls("Cell<u32>", ["Sync", "Send"][0]);
    assert DocImpls("u32", ["Into<u64>", "Into<u16>"][0]);
  }
}
