# static_assertions: a verified model of its decision logic

`static_assertions` is a Rust crate of compile-time assertions. Most of its
macros hand the decision to the Rust compiler. Some of them carry logic of
their own:

- `does_impl!` evaluates a boolean expression over trait names to a
  type-level `True`/`False`.
- The assertion macros expand their argument lists in ways that decide
  which checks the compiler is asked to make.
- The `proc` crate holds a hand-written parser for assertion attributes.

This project models that logic in Dafny and proves what the code promises.

- **Type-level booleans** (`TypeBool`, `TypeLevelBool`). The `True`/`False`
  values of `src/bool.rs` and of its older copy `src/type_level_bool.rs`,
  with `not`/`and`/`or`, `ToBool` for `[(); 0]`/`[(); 1]`, and the
  `bool`-to-type lift.
- **`does_impl!`** (`DoesImpl`). Tokens are identifiers, paths, `!`, `|`,
  `&` and parenthesised groups. `Eval` applies the `@boolexpr` arms in
  source order as a recursive function over token sequences. "The type
  implements this trait" is the parameter `implements`. An input that no
  arm matches is `None`, which stands for a compile error.
- **The assertion macros** (`AssertTrait`, `AssertNotImpl`, `AssertNeType`,
  `ConstAssert`, `AssertOneFeature`). Each is a function from its argument
  list, plus an oracle for the compiler's trait, alias or feature facts, to
  "compiles" or "fails".
- **The attribute parser** (`Parse`, `ParseOp`, `ParseCond`,
  `ParseGeneric`). Parsers return `Ok(value, remainder)` or
  `Err(ParseError)`, as `Parse::parse` does. `List<T>::parse` is a method
  with its loop, proved against a recursive specification function. The
  other parsers are functions.

## Model

| member | source | states |
|---|---|---|
| TypeBool.TBool.Not | src/bool.rs:10-18 | `not` swaps `True` and `False`, so its value is the negation of the receiver's |
| TypeBool.TBool.And | src/bool.rs:11-17 | `True.and(x)` is `x` and `False.and(_)` is `False`, so the value is `&&` |
| TypeBool.TBool.Or | src/bool.rs:12-18 | `True.or(_)` is `True` and `False.or(x)` is `x`, so the value is `\|\|` |
| TypeBool.Lift | src/bool.rs:36-46 | the type-level boolean of `b` has value `b` |
| TypeBool.ArrayToBool | src/bool.rs:26-34 | `ToBool` exists only for arrays of length 0 and 1, and gives `True` exactly for length 1 |
| TypeBool.BoolAsUsize | src/bool.rs:42-43 | `b as usize` is at most 1, and is 1 exactly when `b` holds |
| TypeBool.ToBoolMacro | src/bool.rs:39-46 | `_to_bool!(b)` is `True` exactly when `b` holds |
| TypeBool.NotInvolution | src/bool.rs:10-16 | `not` is an involution without fixed points |
| TypeBool.AlgebraAgreesWithBool | src/bool.rs:10-18 | `and`, `or` and `not` on lifted booleans are the lifts of `&&`, `\|\|` and `!` |
| TypeLevelBool.TBool.Not | src/type_level_bool.rs:10-16 | `not` swaps the two values |
| TypeLevelBool.TBool.And | src/type_level_bool.rs:11-17 | `and` returns the other argument on `True` and `False` on `False` |
| TypeLevelBool.TBool.Or | src/type_level_bool.rs:12-18 | `or` returns `True` on `True` and the other argument on `False` |
| TypeLevelBool.Current | src/type_level_bool.rs:1-18 | the older values correspond one-to-one to those of `src/bool.rs` |
| TypeLevelBool.ArrayValue | src/type_level_bool.rs:26-34 | `ToBool` exists for lengths 0 and 1 only, `True` exactly for 1 |
| TypeLevelBool.ToBoolMacro | src/type_level_bool.rs:37-43 | `to_bool!(b)` is `True` exactly when `b` holds |
| TypeLevelBool.AgreesWithCurrent | src/type_level_bool.rs:10-43 | the older copy agrees with `src/bool.rs` under the correspondence for `not`, `and`, `or` and `to_bool!`, and its `not` is an involution |
| DoesImpl.NotOf | src/does_impl.rs:50-52 | negation of an evaluated sub-expression; a compile error propagates |
| DoesImpl.Combine | src/does_impl.rs:53-62 | `\|` is `or` and `&` is `and` of the two sides; it is defined exactly when both sides are |
| DoesImpl.Base | src/does_impl.rs:37-40 | a leaf is `True` exactly when the type implements the trait; otherwise the `DoesntImpl` fallback gives `False` |
| DoesImpl.Eval | src/does_impl.rs:47-92 | the `@boolexpr` arms in source order; it is defined only on non-empty input, and what each arm gives is stated by the `Eval…` lemmas below and, for every expression, by `EvalSound` |
| DoesImpl.DoesImplMacro | src/does_impl.rs:14-18 | at least one token is required; the result is the plain `bool` of the computed value, `true` exactly for `True` |
| DoesImpl.EvalLeaf | src/does_impl.rs:87-107 | a lone identifier or path goes to `@base`, giving `True` exactly when the trait is implemented |
| DoesImpl.EvalParen | src/does_impl.rs:47-52 | `(E)` evaluates as `E`, and `!(E)` to `not` of `E` |
| DoesImpl.EvalGroupOp | src/does_impl.rs:53-62 | `(L) \| R` is `eval(L).or(eval(R))` and `(L) & R` is `eval(L).and(eval(R))`, where `R` is every token after the operator |
| DoesImpl.EvalIdentOp | src/does_impl.rs:75-80 | `ident op R` is rewritten to `(ident) op R` |
| DoesImpl.EvalNotIdentOp | src/does_impl.rs:69-74 | `!ident op R` becomes `(!(ident)) op R`: the `!` reaches only the identifier |
| DoesImpl.EvalNotGroupOp | src/does_impl.rs:63-68 | `!(L) op R` becomes `(!(L)) op R`: the `!` reaches only the group |
| DoesImpl.EvalNotAtom | src/does_impl.rs:81-86 | a lone `!ident` or `!path` is the negated leaf |
| DoesImpl.EvalRejects | src/does_impl.rs:47-92 | no arm matches empty input, empty parentheses, an operator with nothing after it, or a multi-token path followed by more tokens |
| DoesImpl.RightAssociative | src/does_impl.rs:58-80 | `A & B \| R` evaluates as `A & (B \| R)` |
| DoesImpl.GroupingMatters | src/does_impl.rs:53-80 | concrete cases where the right association and the short reach of `!` change the result |
| DoesImpl.Render | src/does_impl.rs:47-92 | every boolean expression over traits can be written as a non-empty token sequence |
| DoesImpl.EvalSound | src/does_impl.rs:47-107 | for every expression, the rendered tokens evaluate to `True` exactly when the expression holds for the type |
| DoesImpl.DocExample | src/does_impl.rs:9-11 | `does_impl!(u32: From<u8>)` is `true` when `u32: From<u8>` |
| AssertTrait.Truth.Not | src/assert_trait.rs:67-74 | the local `Not` swaps `True` and `False` |
| AssertTrait.Truth.And | src/assert_trait.rs:76-83 | the local `And` is `True` exactly when both sides are |
| AssertTrait.Truth.Or | src/assert_trait.rs:84-91 | the local `Or` is `True` exactly when either side is |
| AssertTrait.LocalAlgebraAgrees | src/assert_trait.rs:67-91 | the local algebra agrees with `src/bool.rs` |
| AssertTrait.Check | src/assert_trait.rs:93-131 | the per-trait check is `True` exactly when `sub` implies the listed trait; otherwise the `Deref` fallback reaches `Base`, giving `False` |
| AssertTrait.FoldAnd | src/assert_trait.rs:108-134 | folding `and` gives `True` exactly when the start value is `True` and every listed trait is implied |
| AssertTrait.FoldOr | src/assert_trait.rs:297-323 | folding `or` gives `True` exactly when the start value is `True` or some listed trait is implied |
| AssertTrait.SubAll | src/assert_trait.rs:108-134 | `assert_trait_sub_all!` passes exactly when at least one trait is listed and all are implied |
| AssertTrait.SubAny | src/assert_trait.rs:297-323 | `assert_trait_sub_any!` passes exactly when some listed trait is implied |
| AssertTrait.SuperAll | src/assert_trait.rs:185-188 | `assert_trait_super_all!` passes exactly when every listed type implies the super trait |
| AssertTrait.DocExamples | src/assert_trait.rs:10-218 | the documented `sub_all` examples (lines 10-29) and `sub_any` examples (lines 200-218) pass or fail as documented |
| AssertTrait.SuperAllDocExample | src/assert_trait.rs:185-188 | with two implementors and one non-implementor, only the list without the non-implementor passes |
| AssertNotImpl.InvalidPerTrait | src/assert_not_impl.rs:194-208 | `_any` builds one `Invalid` candidate per listed trait, the `i`-th bounded by exactly the `i`-th trait |
| AssertNotImpl.InvalidPerTraitCount | src/assert_not_impl.rs:194-208 | the `Invalid` candidates that apply are as many as the listed entries the type implements, so none applies exactly when no listed trait is implemented |
| AssertNotImpl.AppliesSingle | src/assert_not_impl.rs:194-208 | a one-trait `Invalid` candidate applies exactly when the type implements that trait |
| AssertNotImpl.AllCandidatesCount | src/assert_not_impl.rs:152-163 | of `_all`'s two impls (`AllCandidates`), the `()` one always applies and the `Invalid` one exactly when every listed trait is implemented |
| AssertNotImpl.AnyCandidatesCount | src/assert_not_impl.rs:194-207 | of `_any`'s impls (`AnyCandidates`), the `()` one always applies, plus one `Invalid` impl per listed trait the type implements |
| AssertNotImpl.NotImplAll | src/assert_not_impl.rs:152-168 | `assert_not_impl_all!` passes exactly when some listed trait is missing |
| AssertNotImpl.NotImplAny | src/assert_not_impl.rs:194-212 | `assert_not_impl_any!` passes exactly when at least one trait is listed and none is implemented |
| AssertNotImpl.SingleTraitAgrees | src/assert_not_impl.rs:80-83 | for a single trait both macros give the same verdict: pass exactly when it is not implemented |
| AssertNotImpl.AnyAmbiguous | src/assert_not_impl.rs:194-208 | two implemented traits make three candidates apply, so the item is ambiguous |
| AssertNotImpl.DocExamples | src/assert_not_impl.rs:48-120 | `Cell<u32>: Sync, Send` passes `_all`, `Cell<u32>: Send` fails it, and `u32: Into<u64>, Into<u16>` fails `_any` |
| AssertNeType.Pairs | src/assert_ne_type.rs:63-73 | the compared pairs are exactly `(t_i, t_last)` for every earlier `t_i` |
| AssertNeType.SplitAgainstLast | src/assert_ne_type.rs:70-73 | the two recursive calls of the longer arm, together, compare every earlier type with the last type and make no other comparison |
| AssertNeType.NeType | src/assert_ne_type.rs:63-77 | passes exactly when at least two types are listed and every earlier type differs from the last after alias resolution |
| AssertNeType.ThreeTypesExpansion | tests/ne_type.rs:10 | `u8, u16, u32` compares only `(u8, u32)` and `(u16, u32)` |
| AssertNeType.DocExampleFirstLinePasses | src/assert_ne_type.rs:29-32 | the first line of the failing doc block passes by itself |
| AssertNeType.DocExampleLaterLinesFail | src/assert_ne_type.rs:29-35 | the failure of the doc block comes from its second and third lines |
| AssertNeType.TestExample | tests/ne_type.rs:10 | `assert_ne_type!(int; u8, u16, u32)` passes |
| ConstAssert.UsizeSub | src/const_assert.rs:92-96 | `usize` subtraction is defined exactly when it does not underflow |
| ConstAssert.Conj | src/const_assert.rs:92-96 | the `&&` chain holds exactly when every condition does |
| ConstAssert.ArrayLength | src/const_assert.rs:92-96 | the array length is defined exactly when every condition holds, and is then 0 |
| ConstAssert.FailureIsUnderflow | src/const_assert.rs:85-96 | one false condition makes the length `0 - 1`, an underflow |
| ConstAssert.ConstAssertMacro | src/const_assert.rs:85-100 | `const_assert!` passes exactly when there is at least one condition and all hold |
| ConstAssert.EqConds | src/const_assert.rs:131-137 | the eq form compares the first argument with each of the rest |
| ConstAssert.NeConds | src/const_assert.rs:167-173 | the ne form compares the first argument with each of the rest |
| ConstAssert.ConstAssertEq | src/const_assert.rs:131-137 | `const_assert_eq!` passes exactly when every other argument equals the first |
| ConstAssert.ConstAssertNe | src/const_assert.rs:167-173 | `const_assert_ne!` passes exactly when every other argument differs from the first |
| ConstAssert.NeComparesFirstOnly | src/const_assert.rs:167-173 | `const_assert_ne!(1, 2, 2)` passes: the later arguments are not compared with each other |
| ConstAssert.Examples | src/const_assert.rs:113-164 | the documented eq/ne examples, and those of tests/const.rs, pass or fail as documented |
| AssertOneFeature.AnyEnabled | src/assert_one_feature.rs:28-31 | `any(feature = …)` holds exactly when some listed feature is enabled |
| AssertOneFeature.EnabledCount | src/assert_one_feature.rs:32-37 | the number of emitted definitions never exceeds the number of listed entries |
| AssertOneFeature.NoneEnabled | src/assert_one_feature.rs:28-37 | no definition is emitted exactly when the `compile_error!` guard fires |
| AssertOneFeature.Expand | src/assert_one_feature.rs:26-37 | after `cfg` evaluation, the `compile_error!` is emitted exactly for a non-empty list with no enabled entry, and there is one constant definition per enabled entry |
| AssertOneFeature.AssertOneFeature | src/assert_one_feature.rs:25-38 | it compiles exactly when the list is empty or exactly one listed entry is enabled |
| AssertOneFeature.RepeatedFeatureFails | src/assert_one_feature.rs:32-37 | an enabled feature listed twice fails by a duplicate definition |
| AssertOneFeature.DocExamples | src/assert_one_feature.rs:3-23 | both features set fails, none set fails, and exactly one set passes |
| Parse.FromIntError | proc/src/parse/mod.rs:94-99 | an integer error becomes `Int(Some(e))`, keeping the error it was given |
| Parse.ParseIdent | proc/src/parse/mod.rs:103-111 | it fails with the given error exactly when no pattern is a prefix; otherwise the first matching pattern gives its value, and input = pattern ++ remainder |
| Parse.ParseIdentFirst | proc/src/parse/mod.rs:103-111 | the first pattern that matches decides the result |
| Parse.ParseUnit | proc/src/parse/mod.rs:113-118 | `()` parses every input and consumes nothing |
| Parse.ParseMemProp | proc/src/parse/mod.rs:150-158 | on success, input = keyword ++ remainder; it fails with `MemProp` exactly when neither `size` nor `align` is a prefix |
| Parse.MemPropRoundTrip | proc/src/parse/mod.rs:150-158 | every keyword followed by any text parses back to its property with that text as remainder |
| Parse.MemPropTestSize | proc/src/parse/mod.rs:243-258 | the test inputs `size` and `size ` give `Size` with remainders `""` and `" "` |
| Parse.MemPropTestAlign | proc/src/parse/mod.rs:243-258 | the test inputs `align` and `align ` give `Align` with remainders `""` and `" "` |
| Parse.MemPropPrefixOnly | proc/src/parse/mod.rs:150-158 | no word boundary is needed (`sizeable` gives `Size` and `able`), and leading whitespace is not skipped |
| Parse.ParseBool | proc/src/parse/mod.rs:185-193 | on success, input = literal ++ remainder; it fails with `Bool` exactly when neither `true` nor `false` is a prefix |
| Parse.BoolRoundTrip | proc/src/parse/mod.rs:185-193 | every literal followed by any text parses back |
| Parse.FirstNonDigit | proc/src/parse/mod.rs:197-204 | finds the first byte that is not an ASCII digit; everything before it is digits, and there is none exactly when the whole input is digits |
| Parse.ToDecimalValue | proc/src/parse/mod.rs:205-208 | the decimal text of `n` is all digits and reads back as `n` |
| Parse.ParseUsize | proc/src/parse/mod.rs:195-210 | `Int(None)` exactly when the input has no non-digit byte; a leading non-digit is `Int(Some(Empty))`; on success the value is that of the leading digits, at most `max`, and the remainder starts at the first non-digit |
| Parse.UsizeDigitsThenRest | proc/src/parse/mod.rs:195-210 | digits followed by a non-digit give their value and the remainder, or `Int(Some(PosOverflow))` above `max` |
| Parse.UsizeRoundTrip | proc/src/parse/mod.rs:195-210 | any `n <= max` written in decimal and followed by a non-digit parses back to `n` |
| Parse.UsizeRejectsBareNumber | proc/src/parse/mod.rs:200-204 | a number with nothing after its digits is rejected with `Int(None)` |
| Parse.ParseUsizeToEnd | proc/src/parse/mod.rs:226-241 | the corrected parser: on success the value is that of the leading digits and the remainder is empty or starts with a non-digit |
| Parse.UsizeToEndRoundTrip | proc/src/parse/mod.rs:226-241 | the corrected parser reads back every `n <= max`, including at the end of the input |
| Parse.TrimStart | proc/src/parse/generic.rs:51-56 | `trim_start` drops a leading run of whitespace and nothing else |
| Parse.TrimStartWhitespace | proc/src/parse/generic.rs:51-56 | in front of text that does not start with whitespace, exactly the whitespace is dropped |
| ParseOp.AsStr | proc/src/parse/op.rs:79-88 | every operator's text is one or two characters |
| ParseOp.AsStrInjective | proc/src/parse/op.rs:79-88 | no two operators have the same text |
| ParseOp.FromStr | proc/src/parse/op.rs:43-53 | it accepts exactly the six operator texts, returning the operator so written, and `Err(())` otherwise |
| ParseOp.FromStrAsStr | proc/src/parse/op.rs:43-88 | `from_str(as_str(op)) == Ok(op)` for every operator |
| ParseOp.ParseCmpOp | proc/src/parse/op.rs:56-76 | on success, input = text ++ remainder, and the result is never `<=` or `>=`; it fails with `CmpOp` exactly when none of `==`, `!=`, `<`, `>` is a prefix |
| ParseOp.TwoCharOpsShadowed | proc/src/parse/op.rs:67-74 | `<=x` gives `(Lt, "=x")`, and `>=x` gives `(Gt, "=x")` |
| ParseOp.ParseCmpOpLongest | proc/src/parse/op.rs:67-74 | the corrected parser: input = text ++ remainder, and `<`/`>` are returned only when no `=` follows |
| ParseOp.LongestRoundTrip | proc/src/parse/op.rs:67-88 | the corrected parser reads back every operator when the remainder does not start with `=` |
| ParseOp.ParseBinOp | proc/src/parse/op.rs:10-15 | it succeeds exactly when `CmpOp::parse` does, wrapping the operator it read and keeping its remainder (so `<=x` gives `Lt` and `=x`); on failure it keeps `CmpOp::parse`'s error |
| ParseOp.ParseBinOpLongest | proc/src/parse/op.rs:10-15 | the intended `BinOp::parse`: it gives exactly the operator and remainder of the longest-match operator parser, fails exactly when that parser does (with `CmpOp`), and returns `<` or `>` only when no `=` follows |
| ParseOp.BinOpLongestRoundTrip | proc/src/parse/op.rs:10-15 | through the intended parser every operator, `<=` and `>=` included, is read back as a `BinOp` when the remainder does not start with `=` |
| ParseCond.ParseCondition | proc/src/parse/mod.rs:212-220 | it returns a result exactly when the input starts with a boolean literal, and that result is `Cond::Bool` with the literal's remainder; otherwise it panics |
| ParseCond.ConditionRoundTrip | proc/src/parse/mod.rs:212-220 | every boolean literal followed by any text parses back |
| ParseCond.ConditionUnimplemented | proc/src/parse/mod.rs:212-220 | a parenthesis, a negation or a comparison reaches the panic |
| ParseGeneric.ListFrom | proc/src/parse/generic.rs:15-33 | the list's specification: success means a non-empty list, extending the items already read, with remainder `""`; `Empty` is returned only when no item was read |
| ParseGeneric.ParseList | proc/src/parse/generic.rs:15-33 | the loop computes `ListFrom` from the input with no items read, so success is a non-empty list with remainder `""` |
| ParseGeneric.ListOfChain | proc/src/parse/generic.rs:17-29 | the items are those read one after another, each from the previous remainder with no separator consumed; a final `Empty` after at least one item gives the list, and any other error is returned unchanged, discarding the items |
| ParseGeneric.UnitChainStays | proc/src/parse/generic.rs:18-31 | a chain of `()` parses never moves and never meets an error, so the loop would not end |
| ParseGeneric.UnitMakesNoProgress | proc/src/parse/mod.rs:114-119 | `()::parse` succeeds without consuming input |
| ParseGeneric.NeverEmptyFails | proc/src/parse/generic.rs:24-29 | an item parser that never reports `Empty` makes every list fail with its own error |
| ParseGeneric.BoolMakesProgress | proc/src/parse/mod.rs:185-193 | a successful `bool::parse` always consumes input |
| ParseGeneric.BoolListFails | proc/src/parse/generic.rs:15-33 | `List<bool>` never parses |
| ParseGeneric.ParseParen | proc/src/parse/generic.rs:45-66 | fails with `Paren` without a leading `(`; passes inner errors through unchanged; on success the inner item was parsed after `(` and whitespace, and `)` follows it after whitespace, with the untrimmed text after `)` as remainder; once the inner item parses, the whole succeeds exactly when `)` follows it after whitespace |
| ParseGeneric.ParenMakesProgress | proc/src/parse/generic.rs:45-66 | around any parser that does not grow its input, `Paren` always consumes input |
| ParseGeneric.ParenRoundTrip | proc/src/parse/generic.rs:45-66 | `(`, whitespace, an item, whitespace, `)` and any text give the item and that text |
| ParseGeneric.ParenBoolRoundTrip | proc/src/parse/generic.rs:45-66 | a parenthesised boolean literal with any inner whitespace parses back |

## Left out

- src/impls.rs is not part of this model. It repeats the evaluator with `^` and operator impls whose definitions are not in the sources, and two of its arms are malformed.
- The checks the compiler makes by itself are not modelled: sizes, alignment, field offsets, FFI safety, variance, object safety, field patterns, type equality, trait bounds and `cfg`. Where they occur, the compiler's answers are the oracle parameters `implements`, `entails`, `resolve` and `enabled`.
- Rust trait resolution is not modelled: inherent-over-trait priority, the `Deref` fallback and inference ambiguity. The model states only the verdicts they lead to.
- proc/src/lib.rs is not part of this model. Its attribute ignores its input.
- The nightly expansions are not modelled. They wrap the check in `const _`, and `_assert_not_impl_all!`, `_assert_not_impl_any!`, `_assert_ne_type!` and `_const_assert!` have no labelled arm there (src/assert_not_impl.rs:134-150, src/assert_not_impl.rs:174-192, src/assert_ne_type.rs:45-59, src/const_assert.rs:82-90), so with the `nightly` feature a labelled invocation does not compile.
- AssertNotImpl.NotImplAll, AssertNotImpl.NotImplAny, AssertNeType.NeType, ConstAssert.ConstAssertMacro: the position of an invocation is not modelled. Their verdicts are those of the stable expansions. A labelled invocation wraps the check in a function, so its verdict holds anywhere items are allowed. An unlabelled one expands to a statement (a block, or `let _ = …;` for `const_assert!`), so its verdict holds only inside a function body; at module scope it fails whatever its arguments (src/const_assert.rs:43-52, src/assert_not_impl.rs:12-22, src/assert_ne_type.rs:5-13). With the `nightly` feature a labelled invocation fails whatever its arguments.
- Diagnostic text is not modelled.
- `Path` tokens stand for whole multi-token paths. Generic arguments and lifetimes are not tokenised.
- The definition of `.value()` called by `does_impl!` is not in the sources; it is modelled as `True` to `true` and `False` to `false`.
- DoesImpl.Eval: its own `ensures` says only that it needs input; the result of each arm is stated by the `Eval…` lemmas and `EvalSound`, so that the recursion's termination argument stays separate from its meaning.
- ParseGeneric.ParseList: requires an item parser that consumes input whenever it succeeds, which makes the loop end on every input. The source's loop runs forever exactly when the chain of remainders reaches an input on which the item parser succeeds without consuming anything, as `()` does on every input (`UnitChainStays`); on inputs where the chain never gets there the source's loop ends, but the model does not cover those parsers.
- The commas in `List`'s grammar comment are not consumed by its loop. The model follows the loop (`BoolListFails`).
- `CmpOp::from_str`'s `Err(())` is `None`.
- The `unimplemented!()` panic of `Cond::parse` is `None`.
- The `&&`/`||` binary operators of the grammar comment have no parser in the source.
- `Assert`, `Attr` and `Trait` are declared in proc/src/parse/mod.rs but never parsed there, so they are not modelled.
- `usize` has no fixed width: its maximum is the parameter `max`. Whitespace is Unicode `White_Space`, which is what `char::is_whitespace` tests.
- `usize::parse` receives a `&str`, read byte by byte. The model reads characters. Digits are ASCII, so both find the first non-digit at the same position.

## Findings

| source | as written | input that shows it | evidently intended | confidence | as-written member | corrected member |
|---|---|---|---|---|---|---|
| proc/src/parse/op.rs:67-74 | `"<"` is tried before `"<="`, and `">"` before `">="`, so `LtEq` and `GtEq` are unreachable | `"<=5"` gives `(Lt, "=5")` | the longest operator first: `"<=5"` gives `(LtEq, "5")` | high; not executed | ParseOp.TwoCharOpsShadowed | ParseOp.LongestRoundTrip |
| proc/src/parse/mod.rs:197-208 | the digits are split off only at a non-digit byte, so input that ends in digits fails with `Int(None)` | `"42"` gives `Err(Int(None))` | a number at the end of the input is read, with an empty remainder; the test at proc/src/parse/mod.rs:232-236 lists `format!("{}", value)` among its inputs | medium (that test's body is empty); not executed | Parse.UsizeRejectsBareNumber | Parse.UsizeToEndRoundTrip |
