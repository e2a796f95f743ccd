/** What the calculator answers to texts written out character by character: numerals joined
    by + - * /, signs, parentheses and calls (dev/os/user/calculator.c:67-215), and what is
    typed at its prompt (dev/os/user/calculator.c:283-305). The results speak of characters
    and of the algebra alone, not of the trees of Syntax. EvalStr answers what its text
    means (Calculator.Means); Worth says that this is one value and which. */
module CalculatorLaws {
  import opened Wrappers
  import S = Syntax
  import C = Calculator
  import K = CalculatorLine
  import L = LineEditor
  import N = NumberText
  import D = Numerals
  import U = Unambiguous

  /** Operand, operator, operand. */
  ghost function Apply<V>(a: S.Algebra<V>, op: char, x: V, y: V): V {
    if op == '+' then a.add(x, y)
    else if op == '-' then a.sub(x, y)
    else if op == '*' then a.mul(x, y)
    else a.div(x, y)
  }

  predicate Binds(op: char) {
    op == '*' || op == '/'
  }

  predicate IsOp(op: char) {
    op == '+' || op == '-' || op == '*' || op == '/'
  }

  /** Digits with at most one point, after an optional plus. */
  ghost predicate IsNumeral(x: string) {
    && x != ""
    && (forall k :: 0 <= k < |x| ==> '0' <= x[k] <= '9' || x[k] == '.' || (k == 0 && x[k] == '+'))
    && (forall j, k :: 0 <= j < k < |x| ==> x[j] != '.' || x[k] != '.')
  }

  // ---------------------------------------------------------------------------
  // Texts and what they are worth
  // ---------------------------------------------------------------------------

  ghost predicate ExprIs<V(!new)>(a: S.Algebra<V>, e: S.Expr, text: string, v: V) {
    S.ExprText(e) == text && '\0' !in text && S.ExprOk(e) && S.ExprClean(a, e) && S.Value(a, S.ExprTree(e)) == v
  }

  /** A term without zero divisors. */
  ghost predicate TermIs<V(!new)>(a: S.Algebra<V>, t: S.Term, text: string, v: V) {
    && S.TermText(t) == text && '\0' !in text && S.TermOk(t) && S.FactorsClean(a, t) && S.Value(a, S.TermTree(t)) == v
    && forall i :: 0 <= i < |t.rest| ==> !S.ZeroDivisor(a, t.rest[i])
  }

  ghost predicate FactorIs<V(!new)>(a: S.Algebra<V>, f: S.Factor, text: string, v: V) {
    S.FactorText(f) == text && '\0' !in text && S.FactorOk(f) && S.FactorClean(a, f) && S.Value(a, S.FactorTree(f)) == v
  }

  lemma FactorAlone<V(!new)>(a: S.Algebra<V>, f: S.Factor, text: string, v: V) returns (t: S.Term)
    requires FactorIs(a, f, text, v)
    ensures TermIs(a, t, text, v)
  {
    hide S.FactorText, S.FactorOk, S.FactorClean, S.FactorTree, S.Value;
    t := S.Term(f, []);
    assert S.TermTree(t) == S.MulFold(S.FactorTree(f), []) == S.FactorTree(f);
    assert S.TermText(t) == text + "" == text;
  }

  lemma NoZeros<V(!new)>(a: S.Algebra<V>, t: S.Term)
    requires S.FactorsClean(a, t) && forall i :: 0 <= i < |t.rest| ==> !S.ZeroDivisor(a, t.rest[i])
    ensures S.TermClean(a, t)
  {
    hide S.ZeroDivisor, S.FactorsClean;
    assert S.FirstZero(a, t.rest) == |t.rest|;
  }

  lemma TermAlone<V(!new)>(a: S.Algebra<V>, t: S.Term, text: string, v: V) returns (e: S.Expr)
    requires TermIs(a, t, text, v)
    ensures ExprIs(a, e, text, v)
  {
    hide S.TermText, S.TermOk, S.FactorsClean, S.TermTree, S.Value, S.ZeroDivisor;
    e := S.Expr(t, []);
    NoZeros(a, t);
    assert S.ExprTree(e) == S.AddFold(S.TermTree(t), []) == S.TermTree(t);
    assert S.ExprText(e) == text + "" == text;
  }

  lemma NoNul(x: string, ws: string, op: char, y: string)
    requires '\0' !in x && S.Spaces(ws) && op != '\0' && '\0' !in y
    ensures '\0' !in ws && '\0' !in x + ws + [op] + y
  {
  }

  lemma {:induction false} AddTailsSnoc(rest: seq<S.AddTail>, last: S.AddTail)
    ensures S.AddTailsText(rest + [last]) == S.AddTailsText(rest) + (last.ws + ([S.AddOp(last.add)] + S.TermText(last.term)))
  {
    hide S.TermText;
    if rest == [] {
      assert [last][1..] == [] && S.TermText(last.term) + "" == S.TermText(last.term);
      assert rest + [last] == [last];
    } else {
      assert (rest + [last])[1..] == rest[1..] + [last];
      AddTailsSnoc(rest[1..], last);
      C.TailSplits(rest[0].ws, [S.AddOp(rest[0].add)], S.TermText(rest[0].term), S.AddTailsText(rest[1..]),
                   last.ws + ([S.AddOp(last.add)] + S.TermText(last.term)));
    }
  }

  lemma {:induction false} MulTailsSnoc(rest: seq<S.MulTail>, last: S.MulTail)
    ensures S.MulTailsText(rest + [last]) == S.MulTailsText(rest) + (last.ws + ([S.MulOp(last.mul)] + S.FactorText(last.factor)))
  {
    hide S.FactorText;
    if rest == [] {
      assert [last][1..] == [] && S.FactorText(last.factor) + "" == S.FactorText(last.factor);
      assert rest + [last] == [last];
    } else {
      assert (rest + [last])[1..] == rest[1..] + [last];
      MulTailsSnoc(rest[1..], last);
      C.TailSplits(rest[0].ws, [S.MulOp(rest[0].mul)], S.FactorText(rest[0].factor), S.MulTailsText(rest[1..]),
                   last.ws + ([S.MulOp(last.mul)] + S.FactorText(last.factor)));
    }
  }

  /** One more term. */
  lemma AddOne<V(!new)>(a: S.Algebra<V>, e: S.Expr, x: string, u: V, ws: string, op: char, t: S.Term, y: string, v: V)
    returns (e': S.Expr)
    requires ExprIs(a, e, x, u) && TermIs(a, t, y, v) && S.Spaces(ws) && op in {'+', '-'}
    ensures ExprIs(a, e', x + ws + [op] + y, Apply(a, op, u, v))
  {
    hide S.TermText, S.TermOk, S.FactorsClean, S.TermClean, S.TermTree, S.ZeroDivisor, S.AddTailsText, S.Spaces;
    NoZeros(a, t);
    NoNul(x, ws, op, y);
    var last := S.AddTail(ws, op == '+', t);
    e' := S.Expr(e.first, e.rest + [last]);
    AddTailsSnoc(e.rest, last);
    S.AddFoldSnoc(S.TermTree(e.first), e.rest, last);
    assert S.ExprText(e') == (S.TermText(e.first) + S.AddTailsText(e.rest)) + (ws + ([op] + y)) == x + ws + [op] + y;
  }

  /** One more factor. */
  lemma MulOne<V(!new)>(a: S.Algebra<V>, t: S.Term, x: string, u: V, ws: string, op: char, f: S.Factor, y: string, v: V)
    returns (t': S.Term)
    requires TermIs(a, t, x, u) && FactorIs(a, f, y, v) && S.Spaces(ws) && Binds(op) && (op == '/' ==> !a.isZero(v))
    ensures TermIs(a, t', x + ws + [op] + y, Apply(a, op, u, v))
  {
    hide S.FactorText, S.FactorOk, S.FactorClean, S.FactorTree, S.MulTailsText, S.Spaces;
    NoNul(x, ws, op, y);
    var last := S.MulTail(ws, op == '*', f);
    t' := S.Term(t.first, t.rest + [last]);
    MulTailsSnoc(t.rest, last);
    S.MulFoldSnoc(S.FactorTree(t.first), t.rest, last);
    assert S.TermText(t') == (S.FactorText(t.first) + S.MulTailsText(t.rest)) + (ws + ([op] + y)) == x + ws + [op] + y;
  }

  /** A term divided by zero. */
  lemma DivideByZero<V(!new)>(a: S.Algebra<V>, t: S.Term, x: string, u: V, ws: string, f: S.Factor, y: string, v: V)
    returns (e: S.Expr)
    requires TermIs(a, t, x, u) && FactorIs(a, f, y, v) && S.Spaces(ws) && a.isZero(v)
    ensures ExprIs(a, e, x + ws + "/" + y, a.zero)
  {
    hide S.FactorText, S.FactorOk, S.FactorClean, S.FactorTree, S.MulTailsText, S.Spaces;
    NoNul(x, ws, '/', y);
    var last := S.MulTail(ws, false, f);
    var t' := S.Term(t.first, t.rest + [last]);
    MulTailsSnoc(t.rest, last);
    S.MulFoldSnoc(S.FactorTree(t.first), t.rest, last);
    assert S.FirstZero(a, t'.rest) >= |t.rest|;
    e := S.Expr(t', []);
    assert S.ExprTree(e) == S.AddFold(S.TermTree(t'), []) == S.TermTree(t');
    var text := x + ws + "/" + y;
    assert x + ws + ['/'] + y == text;
    assert S.TermText(t') == (S.FactorText(t.first) + S.MulTailsText(t.rest)) + (ws + ("/" + y)) == text;
    assert S.ExprText(e) == text + "" == text;
    assert S.TermOk(t');
    assert S.FactorsClean(a, t');
    assert S.TermClean(a, t');
    assert S.TermTree(t') == S.Binary(S.Over, S.TermTree(t), S.FactorTree(f));
    assert S.Value(a, S.TermTree(t')) == a.zero;
  }

  lemma NumeralIs<V(!new)>(a: S.Algebra<V>, ws: string, x: string) returns (f: S.Factor)
    requires IsNumeral(x) && S.Spaces(ws)
    ensures FactorIs(a, f, ws + x, a.atof(x))
  {
    hide IsNumeral, S.NumeralText, S.NumeralOk;
    var n := AsNumeral(x);
    f := S.Number(ws, n);
    C.NumeralHasNoNul(n);
    NoNul("", ws, ' ', "");
  }

  lemma AsNumeral(x: string) returns (n: S.Numeral)
    requires IsNumeral(x)
    ensures S.NumeralOk(n) && S.NumeralText(n) == x
  {
    var plus := x[0] == '+';
    var y := if plus then x[1..] else x;
    assert x == (if plus then "+" else "") + y;
    var whole, dot, frac := SplitAtDot(y);
    n := S.Numeral(plus, whole, dot, frac);
    C.Regroup3(if plus then "+" else "", whole, if dot then "." + frac else "");
  }

  lemma SplitAtDot(y: string) returns (whole: string, dot: bool, frac: string)
    requires forall k :: 0 <= k < |y| ==> '0' <= y[k] <= '9' || y[k] == '.'
    requires forall j, k :: 0 <= j < k < |y| ==> y[j] != '.' || y[k] != '.'
    ensures S.Digits(whole) && S.Digits(frac) && y == whole + if dot then "." + frac else ""
  {
    if i :| 0 <= i < |y| && y[i] == '.' {
      whole, dot, frac := y[..i], true, y[i + 1..];
      assert y == y[..i] + [y[i]] + y[i + 1..];
    } else {
      whole, dot, frac := y, false, "";
    }
  }

  // ---------------------------------------------------------------------------
  // Chains of numerals and operators
  // ---------------------------------------------------------------------------

  /** x0 op0 x1 op1 x2 ... up to operand k. */
  function ChainText(xs: seq<string>, ops: string, k: nat): string
    requires k <= |ops| < |xs|
  {
    if k == 0 then xs[0] else ChainText(xs, ops, k - 1) + [ops[k - 1]] + xs[k]
  }

  /** What has been read: a product, alone or to be added to or subtracted from a sum. */
  datatype Sum<V> = Alone(product: V) | After(base: V, sign: char, product: V)

  ghost function Total<V>(a: S.Algebra<V>, s: Sum<V>): V {
    match s
    case Alone(p) => p
    case After(b, sign, p) => Apply(a, sign, b, p)
  }

  /** * and / work on the last product, + and - on everything before. */
  ghost function Read<V>(a: S.Algebra<V>, s: Sum<V>, op: char, v: V): Sum<V> {
    if Binds(op) then s.(product := Apply(a, op, s.product, v)) else After(Total(a, s), op, v)
  }

  ghost function Chain<V>(a: S.Algebra<V>, xs: seq<string>, ops: string, k: nat): Sum<V>
    requires k <= |ops| < |xs|
  {
    if k == 0 then Alone(a.atof(xs[0]))
    else Read(a, Chain(a, xs, ops, k - 1), ops[k - 1], a.atof(xs[k]))
  }

  ghost predicate ChainOk<V>(a: S.Algebra<V>, xs: seq<string>, ops: string) {
    && |xs| == |ops| + 1 && (forall k :: 0 <= k < |xs| ==> IsNumeral(xs[k]))
    && (forall k :: 0 <= k < |ops| ==> IsOp(ops[k]))
    && (forall k :: 0 <= k < |ops| && ops[k] == '/' ==> !a.isZero(a.atof(xs[k + 1])))
  }

  /** The expression and the term that have been read. */
  ghost predicate Parsed<V(!new)>(a: S.Algebra<V>, s: Sum<V>, text: string, e: Option<S.Expr>, x: string, t: S.Term, y: string) {
    match s
    case Alone(p) => e == None && text == y && TermIs(a, t, y, p)
    case After(b, sign, p) =>
      e.Some? && sign in {'+', '-'} && text == x + [sign] + y && ExprIs(a, e.value, x, b) && TermIs(a, t, y, p)
  }

  lemma Whole<V(!new)>(a: S.Algebra<V>, s: Sum<V>, text: string, e: Option<S.Expr>, x: string, t: S.Term, y: string)
    returns (all: S.Expr)
    requires Parsed(a, s, text, e, x, t, y)
    ensures ExprIs(a, all, text, Total(a, s))
  {
    hide ExprIs, TermIs;
    match s
    case Alone(p) => all := TermAlone(a, t, y, p);
    case After(b, sign, p) =>
      all := AddOne(a, e.value, x, b, "", sign, t, y, p);
      assert x + "" + [sign] + y == text;
  }

  lemma {:induction false} ChainParsed<V(!new)>(a: S.Algebra<V>, xs: seq<string>, ops: string, k: nat)
    returns (e: Option<S.Expr>, x: string, t: S.Term, y: string)
    requires ChainOk(a, xs, ops) && k <= |ops|
    ensures Parsed(a, Chain(a, xs, ops, k), ChainText(xs, ops, k), e, x, t, y)
  {
    hide ExprIs, TermIs, FactorIs, IsNumeral, Apply;
    var f := NumeralIs(a, "", xs[k]);
    assert "" + xs[k] == xs[k];
    var v := a.atof(xs[k]);
    if k == 0 {
      y := xs[0];
      e, x := None, "";
      t := FactorAlone(a, f, y, v);
    } else {
      e, x, t, y := ChainParsed(a, xs, ops, k - 1);
      e, x, t, y := ParsedNext(a, Chain(a, xs, ops, k - 1), ChainText(xs, ops, k - 1), e, x, t, y, ops[k - 1], f, xs[k], v);
    }
  }

  lemma ParsedNext<V(!new)>(a: S.Algebra<V>, s: Sum<V>, text: string, e: Option<S.Expr>, x: string, t: S.Term, y: string,
                            op: char, f: S.Factor, z: string, v: V)
    returns (e': Option<S.Expr>, x': string, t': S.Term, y': string)
    requires Parsed(a, s, text, e, x, t, y) && FactorIs(a, f, z, v) && IsOp(op) && (op == '/' ==> !a.isZero(v))
    ensures Parsed(a, Read(a, s, op, v), text + [op] + z, e', x', t', y')
  {
    hide ExprIs, TermIs, FactorIs, Apply;
    e', x', y' := e, x, z;
    if Binds(op) {
      t' := MulOne(a, t, y, s.product, "", op, f, z, v);
      y' := y + [op] + z;
      assert y + "" + [op] + z == y';
      if s.After? {
        assert x + [s.sign] + y' == text + [op] + z;
      }
    } else {
      var whole := Whole(a, s, text, e, x, t, y);
      e', x' := Some(whole), text;
      t' := FactorAlone(a, f, z, v);
    }
  }

  /** The value the text means, and the only one. */
  ghost predicate Worth<V(!new)>(a: S.Algebra<V>, text: string, x: V) {
    forall v :: C.Means(a, text, v) <==> v == x
  }

  lemma IsWorth<V(!new)>(a: S.Algebra<V>, e: S.Expr, text: string, v: V)
    requires ExprIs(a, e, text, v)
    ensures Worth(a, text, v)
  {
    hide S.ExprText, S.ExprOk, S.ExprClean, S.Value, S.ExprTree;
    assert C.Spells(a, text, e, "") by {
      assert text + "" == text;
    }
    hide C.Spells;
    assert C.Means(a, text, v);
    forall w | C.Means(a, text, w)
      ensures w == v
    {
      U.OneValue(a, text, v, w);
    }
  }

  /** Any number of numerals joined by operators: * and / first, then from left to right. */
  lemma ChainWorth<V(!new)>(a: S.Algebra<V>, xs: seq<string>, ops: string)
    requires ChainOk(a, xs, ops)
    ensures Worth(a, ChainText(xs, ops, |ops|), Total(a, Chain(a, xs, ops, |ops|)))
  {
    hide ChainText, Chain, Total, Worth, Parsed, ExprIs;
    var e, x, t, y := ChainParsed(a, xs, ops, |ops|);
    var all := Whole(a, Chain(a, xs, ops, |ops|), ChainText(xs, ops, |ops|), e, x, t, y);
    IsWorth(a, all, ChainText(xs, ops, |ops|), Total(a, Chain(a, xs, ops, |ops|)));
  }

  // ---------------------------------------------------------------------------
  // Two and three operands
  // ---------------------------------------------------------------------------

  /** Two numerals, with any spaces around the operator. */
  lemma TwoWorth<V(!new)>(a: S.Algebra<V>, x: string, before: string, after: string, y: string)
    requires IsNumeral(x) && IsNumeral(y) && forall c :: c in before + after ==> c == ' ' || c == '\t'
    ensures Worth(a, x + before + "+" + after + y, a.add(a.atof(x), a.atof(y)))
    ensures Worth(a, x + before + "-" + after + y, a.sub(a.atof(x), a.atof(y)))
    ensures Worth(a, x + before + "*" + after + y, a.mul(a.atof(x), a.atof(y)))
    ensures Worth(a, x + before + "/" + after + y, if a.isZero(a.atof(y)) then a.zero else a.div(a.atof(x), a.atof(y)))
  {
    hide Worth, ExprIs, IsNumeral;
    forall op: char | IsOp(op)
      ensures Worth(a, x + before + [op] + after + y,
                    if op == '/' && a.isZero(a.atof(y)) then a.zero else Apply(a, op, a.atof(x), a.atof(y)))
    {
      var e, v := Two(a, x, before, op, after, y);
      IsWorth(a, e, x + before + [op] + after + y, v);
    }
    assert IsOp('+') && IsOp('-') && IsOp('*') && IsOp('/');
  }

  lemma Two<V(!new)>(a: S.Algebra<V>, x: string, before: string, op: char, after: string, y: string) returns (e: S.Expr, v: V)
    requires IsNumeral(x) && IsNumeral(y) && IsOp(op)
    requires forall c :: c in before + after ==> c == ' ' || c == '\t'
    ensures ExprIs(a, e, x + before + [op] + after + y, v)
    ensures v == if op == '/' && a.isZero(a.atof(y)) then a.zero else Apply(a, op, a.atof(x), a.atof(y))
  {
    hide ExprIs, TermIs, FactorIs, IsNumeral, Apply;
    var u, w := a.atof(x), a.atof(y);
    var text := x + before + [op] + after + y;
    SpacesAre(before, after);
    var f := NumeralIs(a, "", x);
    var g := NumeralIs(a, after, y);
    assert "" + x == x && x + before + [op] + (after + y) == text;
    var t := FactorAlone(a, f, x, u);
    if op == '/' && a.isZero(w) {
      v := a.zero;
      e := DivideByZero(a, t, x, u, before, g, after + y, w);
    } else {
      v := Apply(a, op, u, w);
      if Binds(op) {
        t := MulOne(a, t, x, u, before, op, g, after + y, w);
        e := TermAlone(a, t, text, v);
      } else {
        e := TermAlone(a, t, x, u);
        t := FactorAlone(a, g, after + y, w);
        e := AddOne(a, e, x, u, before, op, t, after + y, w);
      }
    }
  }

  lemma SpacesAre(before: string, after: string)
    requires forall c :: c in before + after ==> c == ' ' || c == '\t'
    ensures S.Spaces(before) && S.Spaces(after) && S.Spaces("")
  {
    assert forall i :: 0 <= i < |before| ==> before[i] in before + after;
    assert forall i :: 0 <= i < |after| ==> after[i] in before + after;
  }

  /** x op y op z: the second operation goes first exactly when it binds and the first does not. */
  lemma ThreeWorth<V(!new)>(a: S.Algebra<V>, x: string, op: char, y: string, op': char, z: string)
    requires IsNumeral(x) && IsNumeral(y) && IsNumeral(z) && IsOp(op) && IsOp(op')
    requires (op == '/' ==> !a.isZero(a.atof(y))) && (op' == '/' ==> !a.isZero(a.atof(z)))
    ensures Worth(a, x + [op] + y + [op'] + z,
                  if op' in {'*', '/'} && op in {'+', '-'} then Apply(a, op, a.atof(x), Apply(a, op', a.atof(y), a.atof(z)))
                  else Apply(a, op', Apply(a, op, a.atof(x), a.atof(y)), a.atof(z)))
  {
    hide Worth, IsNumeral, Apply;
    var xs, ops := [x, y, z], [op, op'];
    ThreeSteps(a, xs, ops);
    ChainWorth(a, xs, ops);
  }

  lemma ThreeSteps<V>(a: S.Algebra<V>, xs: seq<string>, ops: string)
    requires |xs| == 3 && |ops| == 2
    ensures ChainText(xs, ops, 2) == xs[0] + [ops[0]] + xs[1] + [ops[1]] + xs[2]
    ensures Chain(a, xs, ops, 2) == Read(a, Read(a, Alone(a.atof(xs[0])), ops[0], a.atof(xs[1])), ops[1], a.atof(xs[2]))
  {
    hide Read;
    assert ChainText(xs, ops, 1) == ChainText(xs, ops, 0) + [ops[0]] + xs[1];
    assert Chain(a, xs, ops, 1) == Read(a, Chain(a, xs, ops, 0), ops[0], a.atof(xs[1]));
  }

  /** Subtraction and division go from left to right; a product goes before a sum. */
  lemma OrderOfOperations<V(!new)>(a: S.Algebra<V>, x: string, y: string, z: string)
    requires IsNumeral(x) && IsNumeral(y) && IsNumeral(z)
    ensures Worth(a, x + "-" + y + "-" + z, a.sub(a.sub(a.atof(x), a.atof(y)), a.atof(z)))
    ensures Worth(a, x + "+" + y + "*" + z, a.add(a.atof(x), a.mul(a.atof(y), a.atof(z))))
    ensures Worth(a, x + "*" + y + "+" + z, a.add(a.mul(a.atof(x), a.atof(y)), a.atof(z)))
    ensures !a.isZero(a.atof(y)) && !a.isZero(a.atof(z)) ==>
              Worth(a, x + "/" + y + "/" + z, a.div(a.div(a.atof(x), a.atof(y)), a.atof(z)))
  {
    hide Worth, IsNumeral;
    ThreeWorth(a, x, '-', y, '-', z);
    ThreeWorth(a, x, '+', y, '*', z);
    ThreeWorth(a, x, '*', y, '+', z);
    if !a.isZero(a.atof(y)) && !a.isZero(a.atof(z)) {
      ThreeWorth(a, x, '/', y, '/', z);
    }
  }

  // ---------------------------------------------------------------------------
  // Signs, calls, parentheses
  // ---------------------------------------------------------------------------

  lemma FactorWorth<V(!new)>(a: S.Algebra<V>, f: S.Factor, text: string, v: V)
    requires FactorIs(a, f, text, v)
    ensures Worth(a, text, v)
  {
    hide FactorIs, ExprIs, TermIs, Worth;
    var t := FactorAlone(a, f, text, v);
    var e := TermAlone(a, t, text, v);
    IsWorth(a, e, text, v);
  }

  /** An expression in parentheses, or called with, or negated, is a factor. */
  lemma Enclosed<V(!new)>(a: S.Algebra<V>, e: S.Expr, text: string, v: V) returns (p: S.Factor, r: S.Factor, n: S.Factor)
    requires ExprIs(a, e, text, v)
    ensures FactorIs(a, p, "(" + text + ")", v)
    ensures FactorIs(a, r, "sqrt(" + text + ")", a.sqrt(v))
    ensures FactorIs(a, n, "neg(" + text + ")", a.neg(v))
  {
    hide S.ExprText, S.ExprOk, S.ExprClean, S.ExprTree;
    p, r, n := S.Paren("", e, ""), S.SqrtCall("", "", e, ""), S.NegCall("", "", e, "");
    var inner := "(" + (text + ("" + ")"));
    assert inner == "(" + text + ")" && "" + inner == inner;
    assert "" + ("sqrt" + ("" + inner)) == "sqrt(" + text + ")";
    assert "" + ("neg" + ("" + inner)) == "neg(" + text + ")";
  }

  /** A numeral alone, in parentheses, with a minus, in a call. */
  lemma SignsAndCalls<V(!new)>(a: S.Algebra<V>, x: string)
    requires IsNumeral(x)
    ensures Worth(a, x, a.atof(x)) && Worth(a, "(" + x + ")", a.atof(x))
    ensures Worth(a, "-" + x, a.neg(a.atof(x))) && Worth(a, "neg(" + x + ")", a.neg(a.atof(x)))
    ensures Worth(a, "sqrt(" + x + ")", a.sqrt(a.atof(x)))
  {
    hide Worth, IsNumeral, ExprIs, TermIs;
    var v := a.atof(x);
    var f := NumeralIs(a, "", x);
    assert "" + x == x;
    FactorWorth(a, f, x, v);
    assert "" + ("-" + x) == "-" + x;
    FactorWorth(a, S.UnaryMinus("", f), "-" + x, a.neg(v));
    var t := FactorAlone(a, f, x, v);
    var e := TermAlone(a, t, x, v);
    var p, r, n := Enclosed(a, e, x, v);
    FactorWorth(a, p, "(" + x + ")", v);
    FactorWorth(a, r, "sqrt(" + x + ")", a.sqrt(v));
    FactorWorth(a, n, "neg(" + x + ")", a.neg(v));
  }

  /** Parentheses override: ( x op y ) op' z, and x op ( y op' z ). */
  lemma GroupedWorth<V(!new)>(a: S.Algebra<V>, x: string, op: char, y: string, op': char, z: string)
    requires IsNumeral(x) && IsNumeral(y) && IsNumeral(z) && IsOp(op) && IsOp(op')
    ensures var p, q, r := a.atof(x), a.atof(y), a.atof(z);
            && ((op == '/' ==> !a.isZero(q)) && (op' == '/' ==> !a.isZero(r)) ==>
                  Worth(a, "(" + (x + [op] + y) + ")" + [op'] + z, Apply(a, op', Apply(a, op, p, q), r)))
            && ((op' == '/' ==> !a.isZero(r)) && (op == '/' ==> !a.isZero(Apply(a, op', q, r))) ==>
                  Worth(a, x + [op] + ("(" + (y + [op'] + z) + ")"), Apply(a, op, p, Apply(a, op', q, r))))
  {
    hide Worth, IsNumeral, ExprIs, FactorIs, Apply;
    var p, q, r := a.atof(x), a.atof(y), a.atof(z);
    assert "" + x == x && "" + y == y && "" + z == z;
    var f := NumeralIs(a, "", x);
    var g := NumeralIs(a, "", y);
    var h := NumeralIs(a, "", z);
    if (op == '/' ==> !a.isZero(q)) && (op' == '/' ==> !a.isZero(r)) {
      var e := Joined(a, f, x, p, op, g, y, q);
      var k, _, _ := Enclosed(a, e, x + [op] + y, Apply(a, op, p, q));
      var all := Joined(a, k, "(" + (x + [op] + y) + ")", Apply(a, op, p, q), op', h, z, r);
      IsWorth(a, all, "(" + (x + [op] + y) + ")" + [op'] + z, Apply(a, op', Apply(a, op, p, q), r));
    }
    if (op' == '/' ==> !a.isZero(r)) && (op == '/' ==> !a.isZero(Apply(a, op', q, r))) {
      var e := Joined(a, g, y, q, op', h, z, r);
      var k, _, _ := Enclosed(a, e, y + [op'] + z, Apply(a, op', q, r));
      var all := Joined(a, f, x, p, op, k, "(" + (y + [op'] + z) + ")", Apply(a, op', q, r));
      IsWorth(a, all, x + [op] + ("(" + (y + [op'] + z) + ")"), Apply(a, op, p, Apply(a, op', q, r)));
    }
  }

  /** Two factors and an operator. */
  lemma Joined<V(!new)>(a: S.Algebra<V>, f: S.Factor, x: string, u: V, op: char, g: S.Factor, y: string, v: V)
    returns (e: S.Expr)
    requires FactorIs(a, f, x, u) && FactorIs(a, g, y, v) && IsOp(op) && (op == '/' ==> !a.isZero(v))
    ensures ExprIs(a, e, x + [op] + y, Apply(a, op, u, v))
  {
    hide ExprIs, TermIs, FactorIs, Apply;
    var t := FactorAlone(a, f, x, u);
    assert x + "" + [op] + y == x + [op] + y;
    if Binds(op) {
      t := MulOne(a, t, x, u, "", op, g, y, v);
      e := TermAlone(a, t, x + [op] + y, Apply(a, op, u, v));
    } else {
      e := TermAlone(a, t, x, u);
      t := FactorAlone(a, g, y, v);
      e := AddOne(a, e, x, u, "", op, t, y, v);
    }
  }

  // ---------------------------------------------------------------------------
  // Typed at the prompt
  // ---------------------------------------------------------------------------

  /** The line a user types for a sum, difference or product of two whole numbers. */
  function Line(m: nat, op: char, n: nat): string {
    D.Decimal(m) + [op] + D.Decimal(n)
  }

  /** A whole number with six decimals. */
  function SixDecimals(v: int): string {
    (if v < 0 then "-" + D.Decimal(-v) else D.Decimal(v)) + ".000000"
  }

  lemma DecimalIsNumeral(m: nat)
    ensures IsNumeral(D.Decimal(m)) && N.NumberOf(D.Decimal(m)) == m as real
  {
    hide N.NumberOf, D.ValueOf;
    N.DecimalIsDigits(m);
    D.DecimalReadsBack(m);
    N.OnePlace();
    N.ReadsShape(false, D.Decimal(m), false, "");
    assert "" + D.Decimal(m) + "" == D.Decimal(m);
  }

  lemma SumIsReal(sqrt: real -> real, m: nat, n: nat)
    ensures var a := K.Reals(sqrt);
            && a.atof(D.Decimal(m)) == m as real && a.atof(D.Decimal(n)) == n as real
            && a.add(m as real, n as real) == (m + n) as real
            && a.sub(m as real, n as real) == (m - n) as real
            && a.mul(m as real, n as real) == (m * n) as real
  {
    hide N.NumberOf, D.Decimal, IsNumeral;
    DecimalIsNumeral(m);
    DecimalIsNumeral(n);
    N.CastMul(m, n);
  }

  lemma LineWorth(sqrt: real -> real, m: nat, op: char, n: nat)
    requires op in {'+', '-', '*'}
    ensures Worth(K.Reals(sqrt), Line(m, op, n), (if op == '+' then m + n else if op == '-' then m - n else m * n) as real)
  {
    hide Worth, IsNumeral, K.Reals, D.Decimal;
    DecimalIsNumeral(m);
    DecimalIsNumeral(n);
    SumIsReal(sqrt, m, n);
    TwoWorth(K.Reals(sqrt), D.Decimal(m), "", "", D.Decimal(n));
    var x, y := D.Decimal(m), D.Decimal(n);
    assert x + "" + "+" + "" + y == x + "+" + y && x + "" + "-" + "" + y == x + "-" + y && x + "" + "*" + "" + y == x + "*" + y;
  }

  lemma WholeText(v: int)
    ensures N.FloatText(v as real, 6) == SixDecimals(v)
  {
    hide D.Decimal, N.FracDigits;
    ZeroDecimals();
    assert "" + D.Decimal(N.Abs(v as real).Floor) == D.Decimal(N.Abs(v as real).Floor);
  }

  lemma ZeroDecimals()
    ensures N.FracDigits(0.0, 6) == "000000"
  {
    assert N.FracDigits(0.0, 1) == "0" && N.FracDigits(0.0, 2) == "00" && N.FracDigits(0.0, 3) == "000";
    assert N.FracDigits(0.0, 4) == "0000" && N.FracDigits(0.0, 5) == "00000";
  }

  /** Keys without erasures or ends are the line. */
  lemma {:induction false} TypedAsIs(keys: string)
    requires forall k :: 0 <= k < |keys| ==> L.IsPrintable(keys[k])
    ensures L.Typed(keys) == keys && L.NoEnd(keys) && L.Plain(keys)
  {
    if keys != "" {
      TypedAsIs(keys[..|keys| - 1]);
    }
  }

  lemma LineIsTyped(m: nat, op: char, n: nat, end: char)
    requires op in {'+', '-', '*'} && end in {'\r', '\n'} && |Line(m, op, n)| < C.INPUT_MAX - 1
    ensures var body := Line(m, op, n);
            L.Typed(body) == body && L.Plain(body) && K.OneLine(body, end) && body !in {"", "exit"}
  {
    hide D.Decimal, L.Typed, L.Plain, L.NoEnd;
    var body := Line(m, op, n);
    N.DecimalIsDigits(m);
    N.DecimalIsDigits(n);
    forall k | 0 <= k < |body|
      ensures L.IsPrintable(body[k])
    {
      if k > |D.Decimal(m)| {
        assert body[k] == D.Decimal(n)[k - |D.Decimal(m)| - 1];
      }
    }
    TypedAsIs(body);
    assert N.IsDigit(body[0]);
    forall i | 0 <= i < |body| + 1
      ensures |L.Typed((body + [end])[..i])| < C.INPUT_MAX - 1
    {
      assert (body + [end])[..i] == body[..i];
      TypedAsIs(body[..i]);
    }
  }

  /** "2+3" and Enter: the line is answered by the sum, difference or product, exactly. */
  method TypeLine(ev: C.Evaluator<real>, m: nat, op: char, n: nat, end: char, ghost sqrt: real -> real,
                  ghost screen: L.Screen, ghost col: nat)
    returns (r: K.Reply, out: string)
    requires ev.alg == K.Reals(sqrt) && ev.inputBuf.Length == C.INPUT_MAX && L.Displays(screen, col, "")
    requires op in {'+', '-', '*'} && end in {'\r', '\n'} && |Line(m, op, n)| < C.INPUT_MAX - 1
    requires -10_000_000 < (if op == '+' then m + n else if op == '-' then m - n else m * n) < 100_000_000
    modifies ev`inputPos, ev.inputBuf
    ensures op == '+' ==> r == K.Answers("= " + SixDecimals(m + n) + "\n")
    ensures op == '-' ==> r == K.Answers("= " + SixDecimals(m - n) + "\n")
    ensures op == '*' ==> r == K.Answers("= " + SixDecimals(m * n) + "\n")
  {
    hide Worth, C.Means, L.Typed, L.Plain, K.OneLine, L.Displays, D.Decimal, N.FloatText, K.Reals;
    ghost var v := if op == '+' then m + n else if op == '-' then m - n else m * n;
    LineWorth(sqrt, m, op, n);
    LineIsTyped(m, op, n, end);
    WholeText(v);
    WorthMeans(ev.alg, Line(m, op, n), v as real);
    ghost var echo;
    r, out, echo := K.Turn(ev, Line(m, op, n), end, sqrt, v as real, screen, col);
  }

  lemma WorthMeans<V(!new)>(a: S.Algebra<V>, text: string, x: V)
    requires Worth(a, text, x)
    ensures C.Means(a, text, x)
  {
  }
}
