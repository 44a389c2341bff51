/**
 * src/does_impl.rs: `_does_impl!` rewrites a token stream over trait names
 * into a `True`/`False` value, and `does_impl!` reads the plain `bool` of
 * that value.
 *
 * The arms of the `@boolexpr` matcher are tried in source order. A leaf
 * asks whether the type under test implements the trait: the inherent
 * constant `Wrapper::<T>::DOES_IMPL = True` exists only when `T: Trait`,
 * and otherwise the blanket `DoesntImpl::DOES_IMPL = False` is found. That
 * question is the parameter `implements`, keyed by the trait as written.
 */
module DoesImpl {
  import opened Common
  import opened TypeBool

  /**
   * One token tree of the input. `Ident` is a single identifier; `Path`
   * stands for a whole multi-token path fragment (generic arguments,
   * lifetimes, `::` segments), which only the `$expr:path` arms can match;
   * `Group` is a parenthesised group.
   */
  datatype Tok =
    | Ident(name: string)
    | Path(text: string)
    | Bang
    | Bar
    | Amp
    | Group(inner: seq<Tok>)

  predicate IsOp(t: Tok) {
    t == Bar || t == Amp
  }

  predicate IsAtom(t: Tok) {
    t.Ident? || t.Path?
  }

  /** The trait a leaf token names. */
  function TraitOf(t: Tok): string
    requires IsAtom(t)
  {
    if t.Ident? then t.name else t.text
  }

  /** Number of non-parenthesis tokens: the rewriting arms only add parentheses. */
  function Weight(ts: seq<Tok>): nat
  {
    if ts == [] then 0 else TokWeight(ts[0]) + Weight(ts[1..])
  }

  function TokWeight(t: Tok): nat
  {
    match t
    case Group(inner) => Weight(inner)
    case _ => 1
  }

  lemma WeightOne(t: Tok)
    ensures Weight([t]) == TokWeight(t)
  {
    assert [t][1..] == [];
  }

  lemma {:induction false} WeightAppend(a: seq<Tok>, b: seq<Tok>)
    ensures Weight(a + b) == Weight(a) + Weight(b)
  {
    if a == [] {
      assert a + b == b;
    } else {
      assert (a + b)[1..] == a[1..] + b;
      WeightAppend(a[1..], b);
    }
  }

  lemma WeightPair(a: Tok, b: Tok)
    ensures Weight([a, b]) == TokWeight(a) + TokWeight(b)
  {
    assert [a, b] == [a] + [b];
    WeightAppend([a], [b]);
    WeightOne(a);
    WeightOne(b);
  }

  lemma {:induction false} WeightSplit(ts: seq<Tok>, k: nat)
    requires k <= |ts|
    ensures Weight(ts) == Weight(ts[..k]) + Weight(ts[k..])
  {
    assert ts == ts[..k] + ts[k..];
    WeightAppend(ts[..k], ts[k..]);
  }

  /**
   * Orders the rewriting arms: every rewrite keeps the Weight and lowers
   * the Rank, and stripping the outer parentheses of a lone group lowers it
   * too.
   */
  function Rank(ts: seq<Tok>): nat
  {
    if |ts| == 1 && ts[0].Group? then 4 + Rank(ts[0].inner)
    else if |ts| >= 2 && ts[0] == Bang && IsAtom(ts[1]) then 3
    else if |ts| >= 2 && ts[0] == Bang && ts[1].Group? then 2
    else if |ts| >= 1 && ts[0].Ident? then 1
    else 0
  }

  /** Lifts `not` through the macro's failure: an expansion error stays an error. */
  function NotOf(x: Option<TBool>): (r: Option<TBool>)
    ensures r.Some? <==> x.Some?
    ensures r.Some? ==> r.value == x.value.Not()
  {
    match x
    case Some(v) => Some(v.Not())
    case None => None
  }

  /** `left.or(right)` for `|`, `left.and(right)` for `&`; both sides are expanded, so either error fails the whole. */
  function Combine(op: Tok, left: Option<TBool>, right: Option<TBool>): (r: Option<TBool>)
    requires IsOp(op)
    ensures r.Some? <==> left.Some? && right.Some?
    ensures r.Some? ==> (r.value.Value() <==>
      if op == Bar then left.value.Value() || right.value.Value()
      else left.value.Value() && right.value.Value())
  {
    if left.None? || right.None? then None
    else if op == Bar then Some(left.value.Or(right.value))
    else Some(left.value.And(right.value))
  }

  /** The `@base` arm: `True` when the type implements the trait, otherwise the blanket `DoesntImpl` constant `False`. */
  function Base(implements: string -> bool, leaf: Tok): (r: TBool)
    requires IsAtom(leaf)
    ensures r.Value() <==> implements(TraitOf(leaf))
  {
    if implements(TraitOf(leaf)) then True else False
  }

  /**
   * The `@boolexpr` arms, in source order; `None` is "no rules expected
   * this token", a compile error. The `|` and `&` arm of each pair are
   * merged: they differ only in the operator token at a fixed position.
   */
  function Eval(implements: string -> bool, ts: seq<Tok>): (r: Option<TBool>)
    ensures r.Some? ==> |ts| > 0
    decreases Weight(ts), Rank(ts)
  {
    if |ts| == 1 && ts[0].Group? then
      // `($($expr)*)`
      assert Weight(ts) == Weight(ts[0].inner) by { assert ts == [ts[0]]; WeightOne(ts[0]); }
      Eval(implements, ts[0].inner)
    else if |ts| == 2 && ts[0] == Bang && ts[1].Group? then
      // `!($($expr)*)`
      assert Weight(ts) == 1 + Weight(ts[1].inner) by { assert ts == [ts[0], ts[1]]; WeightPair(ts[0], ts[1]); }
      NotOf(Eval(implements, ts[1].inner))
    else if |ts| >= 2 && ts[0].Group? && IsOp(ts[1]) then
      // `($($left)*) | $($right)*` and `($($left)*) & $($right)*`
      assert Weight(ts) == Weight(ts[0].inner) + 1 + Weight(ts[2..]) by {
        WeightSplit(ts, 2);
        assert ts[..2] == [ts[0], ts[1]];
        WeightPair(ts[0], ts[1]);
      }
      Combine(ts[1], Eval(implements, ts[0].inner), Eval(implements, ts[2..]))
    else if |ts| >= 3 && ts[0] == Bang && ts[1].Group? && IsOp(ts[2]) then
      // `!($($left)*) op $($right)*` becomes `(!($($left)*)) op $($right)*`
      var next := [Group(ts[..2])] + ts[2..];
      assert Weight(next) == Weight(ts) by {
        WeightAppend([Group(ts[..2])], ts[2..]);
        WeightOne(Group(ts[..2]));
        WeightSplit(ts, 2);
      }
      Eval(implements, next)
    else if |ts| >= 3 && ts[0] == Bang && ts[1].Ident? && IsOp(ts[2]) then
      // `!$left:ident op $($right)*` becomes `!($left) op $($right)*`
      var next := [Bang, Group([ts[1]])] + ts[2..];
      assert Weight(next) == Weight(ts) by {
        WeightAppend([Bang, Group([ts[1]])], ts[2..]);
        WeightPair(Bang, Group([ts[1]]));
        WeightOne(ts[1]);
        WeightSplit(ts, 2);
        assert ts[..2] == [ts[0], ts[1]];
        WeightPair(ts[0], ts[1]);
      }
      Eval(implements, next)
    else if |ts| >= 2 && ts[0].Ident? && IsOp(ts[1]) then
      // `$left:ident op $($right)*` becomes `($left) op $($right)*`
      var next := [Group([ts[0]])] + ts[1..];
      assert Weight(next) == Weight(ts) by {
        WeightAppend([Group([ts[0]])], ts[1..]);
        WeightOne(Group([ts[0]]));
        WeightOne(ts[0]);
        WeightSplit(ts, 1);
        assert ts[..1] == [ts[0]];
      }
      Eval(implements, next)
    else if |ts| == 2 && ts[0] == Bang && IsAtom(ts[1]) then
      // `!$expr:ident` and `!$expr:path` become `!($expr)`
      var next := [Bang, Group([ts[1]])];
      assert Weight(next) == Weight(ts) by {
        WeightPair(Bang, Group([ts[1]]));
        WeightOne(ts[1]);
        assert ts == [ts[0], ts[1]];
        WeightPair(ts[0], ts[1]);
      }
      Eval(implements, next)
    else if |ts| == 1 && IsAtom(ts[0]) then
      // `$expr:ident` and `$expr:path` go to `@base`
      Some(Base(implements, ts[0]))
    else
      None
  }

  /**
   * `does_impl!($ty: $($trait_expr)+)`: at least one token is required;
   * the `True`/`False` computed by `_does_impl!` is read as a plain `bool`
   * (the `.value()` call).
   */
  function DoesImplMacro(implements: string -> bool, ts: seq<Tok>): (r: Option<bool>)
    ensures ts == [] ==> r == None
    ensures r.Some? <==> Eval(implements, ts).Some?
    ensures r.Some? ==> (r.value <==> Eval(implements, ts) == Some(True))
  {
    if ts == [] then None
    else
      match Eval(implements, ts)
      case Some(v) => Some(v.Value())
      case None => None
  }

  // ---------------------------------------------------------------------
  // The arms, one lemma each

  /** A single trait leaf, plain identifier or path, is `True` exactly when the type implements the trait. */
  lemma EvalLeaf(implements: string -> bool, leaf: Tok)
    requires IsAtom(leaf)
    ensures Eval(implements, [leaf]) == Some(Lift(implements(TraitOf(leaf))))
  {
  }

  /** `(E)` evaluates as `E`; `!(E)` evaluates to `not` of `E`. */
  lemma EvalParen(implements: string -> bool, e: seq<Tok>)
    ensures Eval(implements, [Group(e)]) == Eval(implements, e)
    ensures Eval(implements, [Bang, Group(e)]) == NotOf(Eval(implements, e))
  {
  }

  /** `(L) | R` is `eval(L).or(eval(R))` and `(L) & R` is `eval(L).and(eval(R))`, where `R` is everything after the operator. */
  lemma EvalGroupOp(implements: string -> bool, left: seq<Tok>, op: Tok, right: seq<Tok>)
    requires IsOp(op)
    ensures Eval(implements, [Group(left), op] + right)
         == Combine(op, Eval(implements, left), Eval(implements, right))
  {
    var ts := [Group(left), op] + right;
    assert ts[2..] == right;
  }

  /** `ident op R` is rewritten to `(ident) op R`: the leaf is combined with all of `R`. */
  lemma EvalIdentOp(implements: string -> bool, name: string, op: Tok, right: seq<Tok>)
    requires IsOp(op)
    ensures Eval(implements, [Ident(name), op] + right)
         == Combine(op, Some(Lift(implements(name))), Eval(implements, right))
  {
    var ts := [Ident(name), op] + right;
    assert [Group([ts[0]])] + ts[1..] == [Group([Ident(name)]), op] + right;
    EvalGroupOp(implements, [Ident(name)], op, right);
  }

  /** `!ident op R` is rewritten to `(!(ident)) op R`: the `!` reaches only the identifier. */
  lemma EvalNotIdentOp(implements: string -> bool, name: string, op: Tok, right: seq<Tok>)
    requires IsOp(op)
    ensures Eval(implements, [Bang, Ident(name), op] + right)
         == Combine(op, Some(Lift(!implements(name))), Eval(implements, right))
  {
    var ts := [Bang, Ident(name), op] + right;
    assert ts[2..] == [op] + right;
    assert [Bang, Group([ts[1]])] + ts[2..] == [Bang, Group([Ident(name)]), op] + right;
    EvalNotGroupOp(implements, [Ident(name)], op, right);
  }

  /** `!(L) op R` is rewritten to `(!(L)) op R`: the `!` reaches only the group. */
  lemma EvalNotGroupOp(implements: string -> bool, left: seq<Tok>, op: Tok, right: seq<Tok>)
    requires IsOp(op)
    ensures Eval(implements, [Bang, Group(left), op] + right)
         == Combine(op, NotOf(Eval(implements, left)), Eval(implements, right))
  {
    var ts := [Bang, Group(left), op] + right;
    assert ts[..2] == [Bang, Group(left)];
    assert [Group(ts[..2])] + ts[2..] == [Group([Bang, Group(left)]), op] + right;
    EvalGroupOp(implements, [Bang, Group(left)], op, right);
    EvalParen(implements, left);
  }

  /** A lone `!ident` or `!path` becomes `!(…)`, the negated leaf. */
  lemma EvalNotAtom(implements: string -> bool, leaf: Tok)
    requires IsAtom(leaf)
    ensures Eval(implements, [Bang, leaf]) == Some(Lift(!implements(TraitOf(leaf))))
  {
    EvalParen(implements, [leaf]);
  }

  /**
   * Inputs no arm matches: the empty input, empty parentheses, an operator
   * with nothing after it, and a multi-token path (negated or not) that is
   * followed by more tokens.
   */
  lemma EvalRejects(implements: string -> bool, left: seq<Tok>, op: Tok, path: string, more: seq<Tok>)
    requires IsOp(op)
    requires more != []
    ensures Eval(implements, []) == None
    ensures Eval(implements, [Group([])]) == None
    ensures Eval(implements, [Group(left), op]) == None
    ensures Eval(implements, [Path(path)] + more) == None
    ensures Eval(implements, [Bang, Path(path)] + more) == None
  {
    EvalGroupOp(implements, left, op, []);
    assert [Group(left), op] + [] == [Group(left), op];
  }

  // ---------------------------------------------------------------------
  // Associativity and the reach of `!`

  /** `A & B | R` evaluates as `A & (B | R)`: chains associate to the right. */
  lemma RightAssociative(implements: string -> bool, a: string, b: string, right: seq<Tok>)
    ensures Eval(implements, [Ident(a), Amp, Ident(b), Bar] + right)
         == Eval(implements, [Ident(a), Amp, Group([Ident(b), Bar] + right)])
    ensures Eval(implements, [Ident(a), Amp, Ident(b), Bar] + right)
         == Combine(Amp, Some(Lift(implements(a))),
                    Combine(Bar, Some(Lift(implements(b))), Eval(implements, right)))
  {
    assert [Ident(a), Amp, Ident(b), Bar] + right == [Ident(a), Amp] + ([Ident(b), Bar] + right);
    EvalIdentOp(implements, a, Amp, [Ident(b), Bar] + right);
    EvalIdentOp(implements, b, Bar, right);
    assert [Ident(a), Amp, Group([Ident(b), Bar] + right)] == [Ident(a), Amp] + [Group([Ident(b), Bar] + right)];
    EvalIdentOp(implements, a, Amp, [Group([Ident(b), Bar] + right)]);
    EvalParen(implements, [Ident(b), Bar] + right);
  }

  /**
   * The right association is observable: for a type that implements only
   * `C`, `A & B | C` is `False` while `(A & B) | C` is `True`; for a type
   * that implements both `A` and `B`, `!A | B` is `(!A) | B`, `True`, not
   * `!(A | B)`, `False`; and for a type that implements neither, `!A & B`
   * is `False` while `!(A & B)` is `True`.
   */
  lemma GroupingMatters()
    ensures var onlyC := (t: string) => t == "C";
      && Eval(onlyC, [Ident("A"), Amp, Ident("B"), Bar, Ident("C")]) == Some(False)
      && Eval(onlyC, [Group([Ident("A"), Amp, Ident("B")]), Bar, Ident("C")]) == Some(True)
    ensures var both := (t: string) => true;
      && Eval(both, [Bang, Ident("A"), Bar, Ident("B")]) == Some(True)
      && Eval(both, [Bang, Group([Ident("A"), Bar, Ident("B")])]) == Some(False)
    ensures var none := (t: string) => false;
      && Eval(none, [Bang, Ident("A"), Amp, Ident("B")]) == Some(False)
      && Eval(none, [Bang, Group([Ident("A"), Amp, Ident("B")])]) == Some(True)
  {
    var onlyC := (t: string) => t == "C";
    RightAssociative(onlyC, "A", "B", [Ident("C")]);
    assert [Ident("A"), Amp, Ident("B"), Bar, Ident("C")] == [Ident("A"), Amp, Ident("B"), Bar] + [Ident("C")];
    assert [Group([Ident("A"), Amp, Ident("B")]), Bar, Ident("C")] == [Group([Ident("A"), Amp, Ident("B")]), Bar] + [Ident("C")];
    EvalGroupOp(onlyC, [Ident("A"), Amp, Ident("B")], Bar, [Ident("C")]);
    assert [Ident("A"), Amp, Ident("B")] == [Ident("A"), Amp] + [Ident("B")];
    EvalIdentOp(onlyC, "A", Amp, [Ident("B")]);

    var both := (t: string) => true;
    assert [Bang, Ident("A"), Bar, Ident("B")] == [Bang, Ident("A"), Bar] + [Ident("B")];
    EvalNotIdentOp(both, "A", Bar, [Ident("B")]);
    assert [Ident("A"), Bar, Ident("B")] == [Ident("A"), Bar] + [Ident("B")];
    EvalIdentOp(both, "A", Bar, [Ident("B")]);
    EvalParen(both, [Ident("A"), Bar, Ident("B")]);

    var none := (t: string) => false;
    assert [Bang, Ident("A"), Amp, Ident("B")] == [Bang, Ident("A"), Amp] + [Ident("B")];
    EvalNotIdentOp(none, "A", Amp, [Ident("B")]);
    assert [Ident("A"), Amp, Ident("B")] == [Ident("A"), Amp] + [Ident("B")];
    EvalIdentOp(none, "A", Amp, [Ident("B")]);
    EvalParen(none, [Ident("A"), Amp, Ident("B")]);
  }

  // ---------------------------------------------------------------------
  // Boolean soundness

  /** A trait-boolean expression as a tree. */
  datatype Expr =
    | Atom(name: string)
    | Neg(operand: Expr)
    | Conj(left: Expr, right: Expr)
    | Disj(left: Expr, right: Expr)

  /** The ordinary Boolean meaning of an expression for one type. */
  function Holds(implements: string -> bool, e: Expr): bool
  {
    match e
    case Atom(n) => implements(n)
    case Neg(x) => !Holds(implements, x)
    case Conj(l, r) => Holds(implements, l) && Holds(implements, r)
    case Disj(l, r) => Holds(implements, l) || Holds(implements, r)
  }

  /**
   * Writes an expression as macro input: every left operand and every
   * negated operand in parentheses, right operands bare.
   */
  function Render(e: Expr): (ts: seq<Tok>)
    ensures ts != []
  {
    match e
    case Atom(n) => [Ident(n)]
    case Neg(x) => [Bang, Group(Render(x))]
    case Conj(l, r) => [Group(Render(l)), Amp] + Render(r)
    case Disj(l, r) => [Group(Render(l)), Bar] + Render(r)
  }

  /** Soundness: the evaluator computes the Boolean meaning of every expression it is given in this form. */
  lemma {:induction false} EvalSound(implements: string -> bool, e: Expr)
    ensures Eval(implements, Render(e)) == Some(Lift(Holds(implements, e)))
  {
    match e
    case Atom(n) =>
      EvalLeaf(implements, Ident(n));
    case Neg(x) =>
      EvalSound(implements, x);
      EvalParen(implements, Render(x));
    case Conj(l, r) =>
      EvalSound(implements, l);
      EvalSound(implements, r);
      EvalGroupOp(implements, Render(l), Amp, Render(r));
    case Disj(l, r) =>
      EvalSound(implements, l);
      EvalSound(implements, r);
      EvalGroupOp(implements, Render(l), Bar, Render(r));
  }

  /** The doc example `does_impl!(u32: From<u8>)` is `true`, `u32` implementing `From<u8>`. */
  lemma DocExample(implementsForU32: string -> bool)
    requires implementsForU32("From<u8>")
    ensures DoesImplMacro(implementsForU32, [Path("From<u8>")]) == Some(true)
  {
    EvalLeaf(implementsForU32, Path("From<u8>"));
  }
}
