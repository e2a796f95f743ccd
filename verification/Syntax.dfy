/** The expression language of dev/os/user/calculator.c: the trees it denotes, the texts
    that spell them (with free spacing and parentheses), and the tree each text means. */
module Syntax {

  /** The arithmetic of the target, left uninterpreted: the results hold for any. */
  datatype Algebra<!V> = Algebra(
    add: (V, V) -> V, sub: (V, V) -> V, mul: (V, V) -> V, div: (V, V) -> V,
    sqrt: V -> V, neg: V -> V, atof: string -> V, isZero: V -> bool, zero: V)

  datatype BinOp = Plus | Minus | Times | Over

  datatype Tree =
    | Literal(lit: string)
    | Binary(op: BinOp, left: Tree, right: Tree)
    | Root(arg: Tree)
    | Negated(arg: Tree)

  /** The value of a tree. Dividing by zero gives zero, as the calculator reports it. */
  function Value<V>(a: Algebra<V>, t: Tree): V {
    match t
    case Literal(s) => a.atof(s)
    case Root(t) => a.sqrt(Value(a, t))
    case Negated(t) => a.neg(Value(a, t))
    case Binary(op, l, r) =>
      var x, y := Value(a, l), Value(a, r);
      match op
      case Plus => a.add(x, y)
      case Minus => a.sub(x, y)
      case Times => a.mul(x, y)
      case Over => if a.isZero(y) then a.zero else a.div(x, y)
  }

  // ---------------------------------------------------------------------------
  // Concrete syntax. Every `ws` field is a possibly empty run of spaces and tabs.
  // ---------------------------------------------------------------------------

  datatype Expr = Expr(first: Term, rest: seq<AddTail>)
  datatype AddTail = AddTail(ws: string, add: bool, term: Term)
  datatype Term = Term(first: Factor, rest: seq<MulTail>)
  datatype MulTail = MulTail(ws: string, mul: bool, factor: Factor)
  datatype Factor =
    | Number(ws: string, num: Numeral)
    | Paren(ws: string, inner: Expr, close: string)
    | SqrtCall(ws: string, gap: string, inner: Expr, close: string)
    | NegCall(ws: string, gap: string, inner: Expr, close: string)
    | UnaryMinus(ws: string, factor: Factor)
  datatype Numeral = Numeral(plus: bool, whole: string, dot: bool, frac: string)

  predicate IsSpace(c: char) {
    c == ' ' || c == '\t'
  }

  predicate IsDigit(c: char) {
    '0' <= c <= '9'
  }

  ghost predicate Spaces(s: string) {
    forall i :: 0 <= i < |s| ==> IsSpace(s[i])
  }

  ghost predicate Digits(s: string) {
    forall i :: 0 <= i < |s| ==> IsDigit(s[i])
  }

  function NumeralText(n: Numeral): string {
    (if n.plus then "+" else "") + n.whole + (if n.dot then "." + n.frac else "")
  }

  ghost predicate NumeralOk(n: Numeral) {
    Digits(n.whole) && Digits(n.frac) && NumeralText(n) != ""
  }

  function AddOp(add: bool): char { if add then '+' else '-' }
  function MulOp(mul: bool): char { if mul then '*' else '/' }

  function ExprText(e: Expr): string
    decreases e
  {
    TermText(e.first) + AddTailsText(e.rest)
  }

  function AddTailsText(rest: seq<AddTail>): string
    decreases rest
  {
    if rest == [] then ""
    else rest[0].ws + ([AddOp(rest[0].add)] + (TermText(rest[0].term) + AddTailsText(rest[1..])))
  }

  function TermText(t: Term): string
    decreases t
  {
    FactorText(t.first) + MulTailsText(t.rest)
  }

  function MulTailsText(rest: seq<MulTail>): string
    decreases rest
  {
    if rest == [] then ""
    else rest[0].ws + ([MulOp(rest[0].mul)] + (FactorText(rest[0].factor) + MulTailsText(rest[1..])))
  }

  function FactorText(f: Factor): string
    decreases f
  {
    match f
    case Number(ws, n) => ws + NumeralText(n)
    case Paren(ws, e, close) => ws + ("(" + (ExprText(e) + (close + ")")))
    case SqrtCall(ws, gap, e, close) => ws + ("sqrt" + (gap + ("(" + (ExprText(e) + (close + ")")))))
    case NegCall(ws, gap, e, close) => ws + ("neg" + (gap + ("(" + (ExprText(e) + (close + ")")))))
    case UnaryMinus(ws, f) => ws + ("-" + FactorText(f))
  }

  /** Well-formed spacing and numerals throughout. */
  ghost predicate ExprOk(e: Expr)
    decreases e
  {
    TermOk(e.first) && forall i :: 0 <= i < |e.rest| ==> Spaces(e.rest[i].ws) && TermOk(e.rest[i].term)
  }

  ghost predicate TermOk(t: Term)
    decreases t
  {
    FactorOk(t.first) && forall i :: 0 <= i < |t.rest| ==> Spaces(t.rest[i].ws) && FactorOk(t.rest[i].factor)
  }

  ghost predicate FactorOk(f: Factor)
    decreases f
  {
    Spaces(f.ws) &&
    match f
    case Number(_, n) => NumeralOk(n)
    case Paren(_, e, close) => ExprOk(e) && Spaces(close)
    case SqrtCall(_, gap, e, close) => Spaces(gap) && ExprOk(e) && Spaces(close)
    case NegCall(_, gap, e, close) => Spaces(gap) && ExprOk(e) && Spaces(close)
    case UnaryMinus(_, f) => FactorOk(f)
  }

  // ---------------------------------------------------------------------------
  // The tree a text means: operators associate to the left, * and / bind tighter
  // ---------------------------------------------------------------------------

  function ExprTree(e: Expr): Tree
    decreases e
  {
    AddFold(TermTree(e.first), e.rest)
  }

  function AddFold(acc: Tree, rest: seq<AddTail>): Tree
    decreases rest
  {
    if rest == [] then acc
    else AddFold(Binary(if rest[0].add then Plus else Minus, acc, TermTree(rest[0].term)), rest[1..])
  }

  function TermTree(t: Term): Tree
    decreases t
  {
    MulFold(FactorTree(t.first), t.rest)
  }

  function MulFold(acc: Tree, rest: seq<MulTail>): Tree
    decreases rest
  {
    if rest == [] then acc
    else MulFold(Binary(if rest[0].mul then Times else Over, acc, FactorTree(rest[0].factor)), rest[1..])
  }

  function FactorTree(f: Factor): Tree
    decreases f
  {
    match f
    case Number(_, n) => Literal(NumeralText(n))
    case Paren(_, e, _) => ExprTree(e)
    case SqrtCall(_, _, e, _) => Root(ExprTree(e))
    case NegCall(_, _, e, _) => Negated(ExprTree(e))
    case UnaryMinus(_, f) => Negated(FactorTree(f))
  }

  // ---------------------------------------------------------------------------
  // Division by zero
  // ---------------------------------------------------------------------------

  ghost predicate ZeroDivisor<V(!new)>(a: Algebra<V>, m: MulTail) {
    !m.mul && a.isZero(Value(a, FactorTree(m.factor)))
  }

  /** The first operand of `rest` that is a zero divisor, or |rest|. */
  ghost function FirstZero<V(!new)>(a: Algebra<V>, rest: seq<MulTail>): (k: nat)
    ensures k <= |rest|
    ensures k < |rest| ==> ZeroDivisor(a, rest[k])
    ensures forall i :: 0 <= i < k ==> !ZeroDivisor(a, rest[i])
  {
    if rest == [] || ZeroDivisor(a, rest[0]) then 0 else 1 + FirstZero(a, rest[1..])
  }

  /** The text divides by zero nowhere, except perhaps as the last step of a term. */
  ghost predicate ExprClean<V(!new)>(a: Algebra<V>, e: Expr)
    decreases e
  {
    TermClean(a, e.first) && forall i :: 0 <= i < |e.rest| ==> TermClean(a, e.rest[i].term)
  }

  ghost predicate TermClean<V(!new)>(a: Algebra<V>, t: Term)
    decreases t, 1
  {
    FactorsClean(a, t) && FirstZero(a, t.rest) + 1 >= |t.rest|
  }

  /** The same of the text inside the factors of a term. */
  ghost predicate FactorsClean<V(!new)>(a: Algebra<V>, t: Term)
    decreases t, 0
  {
    FactorClean(a, t.first) && forall i :: 0 <= i < |t.rest| ==> FactorClean(a, t.rest[i].factor)
  }

  ghost predicate FactorClean<V(!new)>(a: Algebra<V>, f: Factor)
    decreases f
  {
    match f
    case Number(_, _) => true
    case Paren(_, e, _) => ExprClean(a, e)
    case SqrtCall(_, _, e, _) => ExprClean(a, e)
    case NegCall(_, _, e, _) => ExprClean(a, e)
    case UnaryMinus(_, f) => FactorClean(a, f)
  }

  // ---------------------------------------------------------------------------
  // Every tree has a text: the one with the fewest parentheses
  // ---------------------------------------------------------------------------

  /** A tree the language can spell: its literals are numerals, given by `spell`. */
  ghost predicate Spellable(t: Tree, spell: string -> Numeral) {
    match t
    case Literal(s) => NumeralOk(spell(s)) && NumeralText(spell(s)) == s
    case Binary(_, l, r) => Spellable(l, spell) && Spellable(r, spell)
    case Root(t) => Spellable(t, spell)
    case Negated(t) => Spellable(t, spell)
  }

  predicate IsSum(t: Tree) { t.Binary? && (t.op == Plus || t.op == Minus) }
  predicate IsProduct(t: Tree) { t.Binary? && (t.op == Times || t.op == Over) }

  function SpellExpr(t: Tree, spell: string -> Numeral): Expr
    decreases t, if IsSum(t) then 0 else if IsProduct(t) then 1 else 2
  {
    if IsSum(t) then
      var l := SpellExpr(t.left, spell);
      Expr(l.first, l.rest + [AddTail("", t.op == Plus, SpellTerm(t.right, spell))])
    else Expr(SpellTerm(t, spell), [])
  }

  function SpellTerm(t: Tree, spell: string -> Numeral): Term
    decreases t, if IsSum(t) then 2 else if IsProduct(t) then 0 else 1
  {
    if IsProduct(t) then
      var l := SpellTerm(t.left, spell);
      Term(l.first, l.rest + [MulTail("", t.op == Times, SpellFactor(t.right, spell))])
    else Term(SpellFactor(t, spell), [])
  }

  function SpellFactor(t: Tree, spell: string -> Numeral): Factor
    decreases t, if IsSum(t) then 1 else if IsProduct(t) then 2 else 0
  {
    match t
    case Literal(s) => Number("", spell(s))
    case Root(t) => SqrtCall("", "", SpellExpr(t, spell), "")
    case Negated(t) => UnaryMinus("", SpellFactor(t, spell))
    case Binary(_, _, _) => Paren("", SpellExpr(t, spell), "")
  }

  lemma {:induction false} AddFoldSnoc(acc: Tree, rest: seq<AddTail>, last: AddTail)
    ensures AddFold(acc, rest + [last])
         == Binary(if last.add then Plus else Minus, AddFold(acc, rest), TermTree(last.term))
    decreases rest
  {
    if rest == [] {
      assert (rest + [last])[1..] == [];
    } else {
      assert (rest + [last])[1..] == rest[1..] + [last];
      AddFoldSnoc(Binary(if rest[0].add then Plus else Minus, acc, TermTree(rest[0].term)), rest[1..], last);
    }
  }

  lemma {:induction false} MulFoldSnoc(acc: Tree, rest: seq<MulTail>, last: MulTail)
    ensures MulFold(acc, rest + [last])
         == Binary(if last.mul then Times else Over, MulFold(acc, rest), FactorTree(last.factor))
    decreases rest
  {
    if rest == [] {
      assert (rest + [last])[1..] == [];
    } else {
      assert (rest + [last])[1..] == rest[1..] + [last];
      MulFoldSnoc(Binary(if rest[0].mul then Times else Over, acc, FactorTree(rest[0].factor)), rest[1..], last);
    }
  }

  /** Every tree has a text that means it: precedence and left association lose nothing. */
  lemma {:induction false} SpelledExprMeans(t: Tree, spell: string -> Numeral)
    requires Spellable(t, spell)
    ensures ExprTree(SpellExpr(t, spell)) == t && ExprOk(SpellExpr(t, spell))
    decreases t, if IsSum(t) then 0 else if IsProduct(t) then 1 else 2
  {
    if IsSum(t) {
      SpelledExprMeans(t.left, spell);
      SpelledTermMeans(t.right, spell);
      var l := SpellExpr(t.left, spell);
      AddFoldSnoc(TermTree(l.first), l.rest, AddTail("", t.op == Plus, SpellTerm(t.right, spell)));
    } else {
      SpelledTermMeans(t, spell);
    }
  }

  lemma {:induction false} SpelledTermMeans(t: Tree, spell: string -> Numeral)
    requires Spellable(t, spell)
    ensures TermTree(SpellTerm(t, spell)) == t && TermOk(SpellTerm(t, spell))
    decreases t, if IsSum(t) then 2 else if IsProduct(t) then 0 else 1
  {
    if IsProduct(t) {
      SpelledTermMeans(t.left, spell);
      SpelledFactorMeans(t.right, spell);
      var l := SpellTerm(t.left, spell);
      MulFoldSnoc(FactorTree(l.first), l.rest, MulTail("", t.op == Times, SpellFactor(t.right, spell)));
    } else {
      SpelledFactorMeans(t, spell);
    }
  }

  lemma {:induction false} SpelledFactorMeans(t: Tree, spell: string -> Numeral)
    requires Spellable(t, spell)
    ensures FactorTree(SpellFactor(t, spell)) == t && FactorOk(SpellFactor(t, spell))
    decreases t, if IsSum(t) then 1 else if IsProduct(t) then 2 else 0
  {
    match t
    case Literal(s) =>
    case Root(u) => SpelledExprMeans(u, spell);
    case Negated(u) => SpelledFactorMeans(u, spell);
    case Binary(_, _, _) => SpelledExprMeans(t, spell);
  }

  // ---------------------------------------------------------------------------
  // No text of the tree has fewer parentheses
  // ---------------------------------------------------------------------------

  /** Pairs of parentheses, those of calls included. */
  function ExprParens(e: Expr): nat
    decreases e
  {
    TermParens(e.first) + AddParens(e.rest)
  }

  function AddParens(rest: seq<AddTail>): nat
    decreases rest
  {
    if rest == [] then 0 else AddParens(rest[..|rest| - 1]) + TermParens(rest[|rest| - 1].term)
  }

  function TermParens(t: Term): nat
    decreases t
  {
    FactorParens(t.first) + MulParens(t.rest)
  }

  function MulParens(rest: seq<MulTail>): nat
    decreases rest
  {
    if rest == [] then 0 else MulParens(rest[..|rest| - 1]) + FactorParens(rest[|rest| - 1].factor)
  }

  function FactorParens(f: Factor): nat
    decreases f
  {
    match f
    case Number(_, _) => 0
    case Paren(_, e, _) => 1 + ExprParens(e)
    case SqrtCall(_, _, e, _) => 1 + ExprParens(e)
    case NegCall(_, _, e, _) => 1 + ExprParens(e)
    case UnaryMinus(_, f) => FactorParens(f)
  }

  /** The parentheses of the three spellings of a tree differ by at most one pair. */
  lemma {:induction false} SpellingsParens(t: Tree, spell: string -> Numeral)
    ensures ExprParens(SpellExpr(t, spell)) <= TermParens(SpellTerm(t, spell)) <= FactorParens(SpellFactor(t, spell))
    ensures FactorParens(SpellFactor(t, spell)) <= 1 + ExprParens(SpellExpr(t, spell))
  {
    if IsSum(t) {
    } else if IsProduct(t) {
    } else {
    }
  }

  lemma SpelledSumParens(t: Tree, spell: string -> Numeral)
    requires IsSum(t)
    ensures ExprParens(SpellExpr(t, spell)) == ExprParens(SpellExpr(t.left, spell)) + TermParens(SpellTerm(t.right, spell))
  {
    hide SpellTerm;
    var l, last := SpellExpr(t.left, spell), AddTail("", t.op == Plus, SpellTerm(t.right, spell));
    assert (l.rest + [last])[..|l.rest|] == l.rest;
  }

  lemma SpelledProductParens(t: Tree, spell: string -> Numeral)
    requires IsProduct(t)
    ensures TermParens(SpellTerm(t, spell)) == TermParens(SpellTerm(t.left, spell)) + FactorParens(SpellFactor(t.right, spell))
  {
    hide SpellFactor;
    var l, last := SpellTerm(t.left, spell), MulTail("", t.op == Times, SpellFactor(t.right, spell));
    assert (l.rest + [last])[..|l.rest|] == l.rest;
  }

  /** No text that means a tree has fewer parentheses than the one SpellExpr gives it. */
  lemma {:induction false} SpelledHasFewestParens(e: Expr, spell: string -> Numeral)
    ensures ExprParens(SpellExpr(ExprTree(e), spell)) <= ExprParens(e)
    decreases ExprTree(e), e
  {
    hide TermParens, SpellExpr, SpellTerm;
    var t := ExprTree(e);
    if e.rest == [] {
      assert t == AddFold(TermTree(e.first), []) == TermTree(e.first);
      SpelledTermFewest(e.first, spell);
      SpellingsParens(t, spell);
    } else {
      var n := |e.rest| - 1;
      var shorter, last := Expr(e.first, e.rest[..n]), e.rest[n];
      assert e.rest == e.rest[..n] + [last];
      AddFoldSnoc(TermTree(e.first), e.rest[..n], last);
      SpelledHasFewestParens(shorter, spell);
      SpelledTermFewest(last.term, spell);
      SpelledSumParens(t, spell);
    }
  }

  lemma {:induction false} SpelledTermFewest(u: Term, spell: string -> Numeral)
    ensures TermParens(SpellTerm(TermTree(u), spell)) <= TermParens(u)
    decreases TermTree(u), u
  {
    hide FactorParens, SpellTerm, SpellFactor;
    var t := TermTree(u);
    if u.rest == [] {
      assert t == MulFold(FactorTree(u.first), []) == FactorTree(u.first);
      SpelledFactorFewest(u.first, spell);
      SpellingsParens(t, spell);
    } else {
      var n := |u.rest| - 1;
      var shorter, last := Term(u.first, u.rest[..n]), u.rest[n];
      assert u.rest == u.rest[..n] + [last];
      MulFoldSnoc(FactorTree(u.first), u.rest[..n], last);
      SpelledTermFewest(shorter, spell);
      SpelledFactorFewest(last.factor, spell);
      SpelledProductParens(t, spell);
    }
  }

  lemma {:induction false} SpelledFactorFewest(f: Factor, spell: string -> Numeral)
    ensures FactorParens(SpellFactor(FactorTree(f), spell)) <= FactorParens(f)
    decreases FactorTree(f), f
  {
    hide ExprParens, SpellExpr;
    match f
    case Number(_, _) =>
    case Paren(_, e, _) =>
      SpelledHasFewestParens(e, spell);
      SpellingsParens(ExprTree(e), spell);
    case SqrtCall(_, _, e, _) => SpelledHasFewestParens(e, spell);
    case NegCall(_, _, e, _) =>
      SpelledHasFewestParens(e, spell);
      SpellingsParens(ExprTree(e), spell);
    case UnaryMinus(_, g) => SpelledFactorFewest(g, spell);
  }
}
