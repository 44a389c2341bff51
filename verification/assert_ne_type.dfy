/**
 * src/assert_ne_type.rs: `assert_ne_type!` (stable expansion).
 *
 * Two types `x, y` become a block declaring `trait MutuallyExclusive` and
 * implementing it for both; the two impls overlap, and compilation fails,
 * exactly when the types are the same type. A longer list `x, y, z…`
 * expands to `_assert_ne_type!(x, z…)` and `_assert_ne_type!(y, z…)`.
 * Types are compared after alias resolution: `resolve` maps a written
 * type to the type it names (`c_uchar` to `u8`).
 */
module AssertNeType {
  import opened Common

  /** The arguments `[label;] types…`. A label wraps the check in `fn label()`, so that it may stand at module scope; where an invocation stands is not modelled. */
  datatype Args = Args(fnLabel: Option<string>, types: seq<string>)

  /** `ps` pairs every type but the last with the last type, and holds no other pair. */
  predicate AgainstLast(ts: seq<string>, ps: seq<(string, string)>)
    requires |ts| >= 2
  {
    && (forall k | 0 <= k < |ps| :: ps[k].1 == ts[|ts| - 1] && ps[k].0 in ts[..|ts| - 1])
    && (forall i | 0 <= i < |ts| - 1 :: (ts[i], ts[|ts| - 1]) in ps)
  }

  /**
   * The pairs that receive a `MutuallyExclusive` block, in expansion order.
   * The list has at least two types (with fewer no arm matches).
   */
  function Pairs(ts: seq<string>): (ps: seq<(string, string)>)
    requires |ts| >= 2
    ensures AgainstLast(ts, ps)
    decreases |ts|
  {
    if |ts| == 2 then [(ts[0], ts[1])]
    else
      var xs := [ts[0]] + ts[2..];
      var ys := [ts[1]] + ts[2..];
      var px := Pairs(xs);
      var py := Pairs(ys);
      SplitAgainstLast(ts, xs, ys, px, py);
      px + py
  }

  /** The two recursive expansions together compare every earlier type with the last one. */
  lemma SplitAgainstLast(ts: seq<string>, xs: seq<string>, ys: seq<string>, px: seq<(string, string)>, py: seq<(string, string)>)
    requires |ts| >= 3
    requires xs == [ts[0]] + ts[2..] && ys == [ts[1]] + ts[2..]
    requires AgainstLast(xs, px) && AgainstLast(ys, py)
    ensures AgainstLast(ts, px + py)
  {
    var ps := px + py;
    assert xs[|xs| - 1] == ts[|ts| - 1] && ys[|ys| - 1] == ts[|ts| - 1];
    forall k | 0 <= k < |ps|
      ensures ps[k].1 == ts[|ts| - 1] && ps[k].0 in ts[..|ts| - 1]
    {
      if k < |px| {
        var j :| 0 <= j < |xs| - 1 && xs[j] == ps[k].0;
        assert j == 0 || xs[j] == ts[j + 1];
      } else {
        assert ps[k] == py[k - |px|];
        var j :| 0 <= j < |ys| - 1 && ys[j] == ps[k].0;
        assert j == 0 || ys[j] == ts[j + 1];
      }
    }
    forall i | 0 <= i < |ts| - 1
      ensures (ts[i], ts[|ts| - 1]) in ps
    {
      if i == 0 {
        assert (xs[0], xs[|xs| - 1]) in px;
      } else if i == 1 {
        assert (ys[0], ys[|ys| - 1]) in py;
      } else {
        assert xs[i - 1] == ts[i];
        assert (xs[i - 1], xs[|xs| - 1]) in px;
      }
    }
  }

  /** One `MutuallyExclusive` block compiles when its two types are different types. */
  predicate Exclusive(resolve: string -> string, p: (string, string))
  {
    resolve(p.0) != resolve(p.1)
  }

  /**
   * `assert_ne_type!([label;] types…)` compiles exactly when every type
   * before the last differs from the last one: only those pairs are
   * compared, never two earlier types with each other.
   */
  function NeType(resolve: string -> string, args: Args): (ok: bool)
    ensures ok <==> (
      && |args.types| >= 2
      && forall i | 0 <= i < |args.types| - 1 :: resolve(args.types[i]) != resolve(args.types[|args.types| - 1]))
  {
    var ts := args.types;
    if |ts| < 2 then false
    else
      var ps := Pairs(ts);
      var ok := forall k | 0 <= k < |ps| :: Exclusive(resolve, ps[k]);
      assert ok ==> forall i | 0 <= i < |ts| - 1 :: resolve(ts[i]) != resolve(ts[|ts| - 1]) by {
        if ok {
          forall i | 0 <= i < |ts| - 1 ensures resolve(ts[i]) != resolve(ts[|ts| - 1]) {
            var k :| 0 <= k < |ps| && ps[k] == (ts[i], ts[|ts| - 1]);
            assert Exclusive(resolve, ps[k]);
          }
        }
      }
      assert (forall i | 0 <= i < |ts| - 1 :: resolve(ts[i]) != resolve(ts[|ts| - 1])) ==> ok by {
        if forall i | 0 <= i < |ts| - 1 :: resolve(ts[i]) != resolve(ts[|ts| - 1]) {
          forall k | 0 <= k < |ps| ensures Exclusive(resolve, ps[k]) {
            var j :| 0 <= j < |ts| - 1 && ts[j] == ps[k].0;
          }
        }
      }
      ok
  }

  /** `u8, u16, u32` compares exactly `(u8, u32)` and `(u16, u32)`. */
  lemma ThreeTypesExpansion()
    ensures Pairs(["u8", "u16", "u32"]) == [("u8", "u32"), ("u16", "u32")]
  {
    var ts := ["u8", "u16", "u32"];
    assert [ts[0]] + ts[2..] == ["u8", "u32"];
    assert [ts[1]] + ts[2..] == ["u16", "u32"];
  }

  /** Resolves the alias `std::os::raw::c_uchar` to `u8`. */
  function RawAliases(t: string): string
  {
    if t == "std::os::raw::c_uchar" then "u8" else t
  }

  /**
   * The failing doc block: its first line compares only `(c_uchar, u32)`
   * and `(u8, u32)` and compiles; the second and third compare `c_uchar`
   * with `u8` and fail.
   */
  lemma DocExampleFirstLinePasses()
    ensures NeType(RawAliases, Args(None, ["std::os::raw::c_uchar", "u8", "u32"]))
  {
    var ts := ["std::os::raw::c_uchar", "u8", "u32"];
    assert RawAliases(ts[0]) == "u8" && RawAliases(ts[1]) == "u8" && RawAliases(ts[2]) == "u32";
    assert forall i | 0 <= i < 2 :: RawAliases(ts[i]) != RawAliases(ts[2]);
  }

  lemma DocExampleLaterLinesFail()
    ensures !NeType(RawAliases, Args(None, ["std::os::raw::c_uchar", "u32", "u8"]))
    ensures !NeType(RawAliases, Args(None, ["u32", "std::os::raw::c_uchar", "u8"]))
  {
    var ts := ["std::os::raw::c_uchar", "u32", "u8"];
    assert RawAliases(ts[0]) == RawAliases(ts[2]);
    var us := ["u32", "std::os::raw::c_uchar", "u8"];
    assert RawAliases(us[1]) == RawAliases(us[2]);
  }

  /** The test `assert_ne_type!(int; u8, u16, u32)` compiles. */
  lemma TestExample()
    ensures NeType(RawAliases, Args(Some("int"), ["u8", "u16", "u32"]))
  {
    var ts := ["u8", "u16", "u32"];
    assert RawAliases(ts[0]) == "u8" && RawAliases(ts[1]) == "u16" && RawAliases(ts[2]) == "u32";
    assert forall i | 0 <= i < 2 :: RawAliases(ts[i]) != RawAliases(ts[2]);
  }
}
