/**
 * src/assert_one_feature.rs: `assert_one_feature!`.
 *
 * For a non-empty list it emits `compile_error!` under
 * `cfg(not(any(feature = …)))`, and, inside one `const _: () = { … }`
 * block, one `const ASSERT_ONE_FEATURE: () = ();` under each
 * `cfg(feature = f)`. Two or more enabled entries define the constant
 * twice in the same block. `enabled(f)` is whether Cargo enabled the
 * feature.
 */
module AssertOneFeature {

  /** What an invocation expands to, after `cfg` evaluation. */
  datatype Expansion = Expansion(compileError: bool, definitions: nat)

  /** `any(feature = f1, …)`. */
  function AnyEnabled(enabled: string -> bool, fs: seq<string>): (r: bool)
    ensures r <==> exists i | 0 <= i < |fs| :: enabled(fs[i])
  {
    if fs == [] then false
    else
      assert forall i | 0 < i < |fs| :: fs[i] == fs[1..][i - 1];
      enabled(fs[0]) || AnyEnabled(enabled, fs[1..])
  }

  /** How many listed entries are enabled, counting a repeated entry each time. */
  function EnabledCount(enabled: string -> bool, fs: seq<string>): (n: nat)
    ensures n <= |fs|
  {
    if fs == [] then 0
    else (if enabled(fs[0]) then 1 else 0) + EnabledCount(enabled, fs[1..])
  }

  /** The `compile_error!` fires exactly when no listed entry is counted. */
  lemma {:induction false} NoneEnabled(enabled: string -> bool, fs: seq<string>)
    ensures EnabledCount(enabled, fs) == 0 <==> !AnyEnabled(enabled, fs)
  {
    if fs != [] {
      NoneEnabled(enabled, fs[1..]);
    }
  }

  /**
   * The expansion after `cfg` evaluation: the error fires exactly for a
   * non-empty list with no enabled entry, and every enabled entry adds a
   * definition.
   */
  function Expand(enabled: string -> bool, fs: seq<string>): (e: Expansion)
    ensures e.compileError <==> fs != [] && forall i | 0 <= i < |fs| :: !enabled(fs[i])
    ensures e.definitions == EnabledCount(enabled, fs)
  {
    if fs == [] then Expansion(false, 0)   // `() => {}`
    else Expansion(!AnyEnabled(enabled, fs), EnabledCount(enabled, fs))
  }

  /** An expansion compiles without the error and with at most one definition. */
  predicate Compiles(e: Expansion)
  {
    !e.compileError && e.definitions <= 1
  }

  /**
   * `assert_one_feature!(fs…)` compiles exactly when the list is empty or
   * exactly one listed entry is enabled.
   */
  function AssertOneFeature(enabled: string -> bool, fs: seq<string>): (ok: bool)
    ensures ok <==> fs == [] || EnabledCount(enabled, fs) == 1
  {
    NoneEnabled(enabled, fs);
    Compiles(Expand(enabled, fs))
  }

  /** A feature listed twice counts twice. */
  lemma RepeatedFeatureFails(enabled: string -> bool, f: string)
    requires enabled(f)
    ensures !AssertOneFeature(enabled, [f, f])
  {
    assert [f, f][1..] == [f];
    assert [f][1..] == [];
    assert EnabledCount(enabled, [f]) == 1;
    assert EnabledCount(enabled, [f, f]) == 2;
  }

  /** The features enabled in the doc examples. */
  predicate DocFeatures(f: string)
  {
    f == "feature-1" || f == "feature-2"
  }

  /** The doc examples, with `feature-1` and `feature-2` enabled. */
  lemma DocExamples()
    ensures !AssertOneFeature(DocFeatures, ["feature-1", "foo", "bar", "feature-2"])
    ensures !AssertOneFeature(DocFeatures, ["foo", "bar", "baz"])
    ensures AssertOneFeature(DocFeatures, ["foo", "bar", "baz", "qup", "feature-1"])
    ensures AssertOneFeature(DocFeatures, ["foo", "bar", "baz", "qup", "feature-2"])
  {
    var a := ["feature-1", "foo", "bar", "feature-2"];
    assert a[1..] == ["foo", "bar", "feature-2"];
    assert a[1..][1..] == ["bar", "feature-2"];
    assert a[1..][1..][1..] == ["feature-2"];
    assert a[1..][1..][1..][1..] == [];
    assert EnabledCount(DocFeatures, ["feature-2"]) == 1;
    assert EnabledCount(DocFeatures, ["bar", "feature-2"]) == 1;
    assert EnabledCount(DocFeatures, ["foo", "bar", "feature-2"]) == 1;
    var b := ["foo", "bar", "baz"];
    assert b[1..] == ["bar", "baz"];
    assert b[1..][1..] == ["baz"];
    assert b[1..][1..][1..] == [];
    OneAtTheEnd("feature-1");
    OneAtTheEnd("feature-2");
  }

  lemma OneAtTheEnd(last: string)
    requires DocFeatures(last)
    ensures EnabledCount(DocFeatures, ["foo", "bar", "baz", "qup", last]) == 1
  {
    var c := ["foo", "bar", "baz", "qup", last];
    assert c[1..] == ["bar", "baz", "qup", last];
    assert c[1..][1..] == ["baz", "qup", last];
    assert c[1..][1..][1..] == ["qup", last];
    assert c[1..][1..][1..][1..] == [last];
    assert c[1..][1..][1..][1..][1..] == [];
    assert EnabledCount(DocFeatures, [last]) == 1;
    assert EnabledCount(DocFeatures, ["qup", last]) == 1;
    assert EnabledCount(DocFeatures, ["baz", "qup", last]) == 1;
    assert EnabledCount(DocFeatures, ["bar", "baz", "qup", last]) == 1;
  }
}
