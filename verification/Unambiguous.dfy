/** Every text means at most one tree: two expressions of the grammar with the same text,
    whatever the spacing is taken to belong to, have the same tree
    (dev/os/user/calculator.c:67-72). */
module Unambiguous {
  import opened Syntax
  import opened Calculator

  /** A run of characters of one kind ends at the first of another. */
  lemma RunOnce(kind: char -> bool, a: string, x: string, b: string, y: string)
    requires (forall i :: 0 <= i < |a| ==> kind(a[i])) && (forall i :: 0 <= i < |b| ==> kind(b[i])) && a + x == b + y
    requires x != "" && !kind(x[0]) && y != "" && !kind(y[0])
    ensures a == b && x == y
  {
    var s := a + x;
    assert forall k :: 0 <= k < |a| ==> s[k] == a[k];
    assert s[|a|] == x[0] && s[|b|] == (b + y)[|b|] == y[0];
    assert forall k :: 0 <= k < |b| ==> (b + y)[k] == b[k];
    assert |a| == |b|;
    assert s[..|a|] == a && (b + y)[..|b|] == b && s[|a|..] == x && (b + y)[|b|..] == y;
  }

  lemma SpacesOnce(a: string, x: string, b: string, y: string)
    requires Spaces(a) && Spaces(b) && a + x == b + y
    requires x != "" && !IsSpace(x[0]) && y != "" && !IsSpace(y[0])
    ensures a == b && x == y
  {
    RunOnce(IsSpace, a, x, b, y);
  }

  lemma DigitsOnce(a: string, x: string, b: string, y: string)
    requires Digits(a) && Digits(b) && a + x == b + y
    requires x != "" && !IsDigit(x[0]) && y != "" && !IsDigit(y[0])
    ensures a == b && x == y
  {
    RunOnce(IsDigit, a, x, b, y);
  }

  lemma SamePrefix(c: string, x: string, y: string)
    requires c + x == c + y
    ensures x == y
  {
    assert (c + x)[|c|..] == x && (c + y)[|c|..] == y;
  }

  lemma NumeralOnce(m: Numeral, r: string, n: Numeral, q: string)
    requires NumeralOk(m) && NumeralOk(n) && EndsFactor(r) && EndsFactor(q)
    requires NumeralText(m) + r == NumeralText(n) + q
    ensures NumeralText(m) == NumeralText(n) && r == q
  {
    hide NumeralOk, Digits;
    var s, t := (if m.dot then "." + m.frac else "") + r, (if n.dot then "." + n.frac else "") + q;
    NumeralSplits(m, r);
    NumeralSplits(n, q);
    PlusOnce(m.plus, m.whole + s, n.plus, n.whole + t);
    DigitsOnce(m.whole, s, n.whole, t);
    assert m.dot == n.dot;
    if m.dot {
      SamePrefix(".", m.frac + r, n.frac + q);
      DigitsOnce(m.frac, r, n.frac, q);
    } else {
      assert s == r && t == q;
    }
  }

  lemma PlusOnce(p: bool, x: string, o: bool, y: string)
    requires (if p then "+" else "") + x == (if o then "+" else "") + y
    requires x != "" && y != "" && (!p ==> x[0] != '+') && (!o ==> y[0] != '+')
    ensures p == o && x == y
  {
    assert "" + x == x && "" + y == y && ("+" + x)[0] == '+' && ("+" + y)[0] == '+';
    if p && o {
      SamePrefix("+", x, y);
    }
  }

  // ---------------------------------------------------------------------------
  // Factors, terms, expressions
  // ---------------------------------------------------------------------------

  lemma {:induction false} InsideOnce(e: Expr, close: string, r: string, f: Expr, stop: string, q: string)
    requires ExprOk(e) && ExprOk(f) && Spaces(close) && Spaces(stop)
    requires Inside(e, close, r) == Inside(f, stop, q)
    ensures ExprTree(e) == ExprTree(f) && r == q
    decreases e, 1
  {
    hide ExprText, ExprOk, ExprTree, EndsExpr;
    ClosingParen(r);
    ClosingParen(q);
    ExprOnce(e, close, ")" + r, f, stop, ")" + q);
    SamePrefix(")", r, q);
  }

  lemma CallOnce(word: string, gap: string, e: Expr, close: string, r: string,
                 gap': string, e': Expr, close': string, q: string)
    requires Spaces(gap) && Spaces(gap')
    requires (word + (gap + ("(" + (ExprText(e) + (close + ")"))))) + r == (word + (gap' + ("(" + (ExprText(e') + (close' + ")"))))) + q
    ensures Inside(e, close, r) == Inside(e', close', q)
  {
    hide ExprText, Inside;
    CallSplits(word, gap, e, close, r);
    CallSplits(word, gap', e', close', q);
    var x, y := "(" + Inside(e, close, r), "(" + Inside(e', close', q);
    assert x[0] == '(' == y[0];
    SpacesOnce(gap, x, gap', y);
    SamePrefix("(", Inside(e, close, r), Inside(e', close', q));
  }

  lemma SameKind(f: Factor, g: Factor, c: char)
    requires Starts(f, c) && Starts(g, c)
    ensures f.Number? == g.Number? && f.Paren? == g.Paren? && f.SqrtCall? == g.SqrtCall? && f.NegCall? == g.NegCall?
  {
  }

  lemma {:induction false} FactorOnce(f: Factor, r: string, g: Factor, q: string)
    requires FactorOk(f) && FactorOk(g) && EndsFactor(r) && EndsFactor(q)
    requires FactorText(f) + r == FactorText(g) + q
    ensures FactorTree(f) == FactorTree(g) && r == q
    decreases f
  {
    hide ExprText, NumeralText, FactorText, ExprOk, NumeralOk, ExprTree, EndsFactor, Inside;
    FactorHead(f, r);
    FactorHead(g, q);
    SpacesOnce(f.ws, FactorBody(f) + r, g.ws, FactorBody(g) + q);
    SameKind(f, g, (FactorBody(f) + r)[0]);
    match f
    case Number(_, n) => NumeralOnce(n, r, g.num, q);
    case Paren(_, e, close) =>
      ParenSplits(e, close, r);
      ParenSplits(g.inner, g.close, q);
      InsideOnce(e, close, r, g.inner, g.close, q);
    case SqrtCall(_, gap, e, close) =>
      CallBody("sqrt", gap, e, close);
      CallBody("sqrt", g.gap, g.inner, g.close);
      CallOnce("sqrt", gap, e, close, r, g.gap, g.inner, g.close, q);
      InsideOnce(e, close, r, g.inner, g.close, q);
    case NegCall(_, gap, e, close) =>
      CallBody("neg", gap, e, close);
      CallBody("neg", g.gap, g.inner, g.close);
      CallOnce("neg", gap, e, close, r, g.gap, g.inner, g.close, q);
      InsideOnce(e, close, r, g.inner, g.close, q);
    case UnaryMinus(_, h) =>
      Regroup3("-", FactorText(h), r);
      Regroup3("-", FactorText(g.factor), q);
      SamePrefix("-", FactorText(h) + r, FactorText(g.factor) + q);
      FactorOnce(h, r, g.factor, q);
  }

  lemma CallBody(word: string, gap: string, e: Expr, close: string)
    ensures word + gap + "(" + (ExprText(e) + (close + ")")) == word + (gap + ("(" + (ExprText(e) + (close + ")"))))
  {
    hide ExprText;
  }

  lemma {:induction false} MulOnce(acc: Tree, rest: seq<MulTail>, ws: string, r: string, rest': seq<MulTail>, ws': string, q: string)
    requires Spaces(ws) && Spaces(ws') && EndsTerm(r) && EndsTerm(q)
    requires forall i :: 0 <= i < |rest| ==> Spaces(rest[i].ws) && FactorOk(rest[i].factor)
    requires forall i :: 0 <= i < |rest'| ==> Spaces(rest'[i].ws) && FactorOk(rest'[i].factor)
    requires MulTailsText(rest) + (ws + r) == MulTailsText(rest') + (ws' + q)
    ensures MulFold(acc, rest) == MulFold(acc, rest') && r == q
    decreases rest
  {
    hide FactorText, MulTailsText, MulBody, MulWs, EndsTerm, EndsFactor, FactorOk, FactorTree, Spaces;
    MulSplits(rest, ws, r);
    MulSplits(rest', ws', q);
    SpacesOnce(MulWs(rest, ws), MulBody(rest, ws, r), MulWs(rest', ws'), MulBody(rest', ws', q));
    if rest != [] && rest' != [] {
      MulSplits(rest[1..], ws, r);
      MulSplits(rest'[1..], ws', q);
      assert rest[0].mul == rest'[0].mul;
      FactorOnce(rest[0].factor, MulTailsText(rest[1..]) + (ws + r), rest'[0].factor, MulTailsText(rest'[1..]) + (ws' + q));
      MulOnce(Binary(if rest[0].mul then Times else Over, acc, FactorTree(rest[0].factor)), rest[1..], ws, r, rest'[1..], ws', q);
    }
  }

  lemma {:induction false} TermOnce(t: Term, ws: string, r: string, t': Term, ws': string, q: string)
    requires TermOk(t) && TermOk(t') && Spaces(ws) && Spaces(ws') && EndsTerm(r) && EndsTerm(q)
    requires TermText(t) + (ws + r) == TermText(t') + (ws' + q)
    ensures TermTree(t) == TermTree(t') && r == q
    decreases t
  {
    hide FactorText, MulTailsText, EndsTerm, EndsFactor, FactorOk, FactorTree, Spaces, MulFold;
    TermSplits(t, ws + r);
    TermSplits(t', ws' + q);
    MulSplits(t.rest, ws, r);
    MulSplits(t'.rest, ws', q);
    FactorOnce(t.first, MulTailsText(t.rest) + (ws + r), t'.first, MulTailsText(t'.rest) + (ws' + q));
    MulOnce(FactorTree(t.first), t.rest, ws, r, t'.rest, ws', q);
  }

  lemma {:induction false} AddOnce(acc: Tree, rest: seq<AddTail>, ws: string, r: string, rest': seq<AddTail>, ws': string, q: string)
    requires Spaces(ws) && Spaces(ws') && EndsExpr(r) && EndsExpr(q)
    requires forall i :: 0 <= i < |rest| ==> Spaces(rest[i].ws) && TermOk(rest[i].term)
    requires forall i :: 0 <= i < |rest'| ==> Spaces(rest'[i].ws) && TermOk(rest'[i].term)
    requires AddBody(rest, ws, r) == AddBody(rest', ws', q)
    ensures AddFold(acc, rest) == AddFold(acc, rest') && r == q
    decreases rest
  {
    hide TermText, AddTailsText, AddBody, AddWs, EndsTerm, EndsExpr, TermOk, TermTree, Spaces;
    AddSplits(rest, ws, r);
    AddSplits(rest', ws', q);
    if rest != [] && rest' != [] {
      AddSplits(rest[1..], ws, r);
      AddSplits(rest'[1..], ws', q);
      assert rest[0].add == rest'[0].add;
      var w, b := AddWs(rest[1..], ws), AddBody(rest[1..], ws, r);
      var w', b' := AddWs(rest'[1..], ws'), AddBody(rest'[1..], ws', q);
      TermOnce(rest[0].term, w, b, rest'[0].term, w', b');
      AddOnce(Binary(if rest[0].add then Plus else Minus, acc, TermTree(rest[0].term)), rest[1..], ws, r, rest'[1..], ws', q);
    }
  }

  lemma {:induction false} ExprOnce(e: Expr, ws: string, r: string, e': Expr, ws': string, q: string)
    requires ExprOk(e) && ExprOk(e') && Spaces(ws) && Spaces(ws') && EndsExpr(r) && EndsExpr(q)
    requires ExprText(e) + (ws + r) == ExprText(e') + (ws' + q)
    ensures ExprTree(e) == ExprTree(e') && r == q
    decreases e, 0
  {
    hide TermText, AddTailsText, AddBody, AddWs, EndsTerm, EndsExpr, TermOk, TermTree, Spaces, AddFold;
    ExprSplits(e, ws + r);
    ExprSplits(e', ws' + q);
    AddSplits(e.rest, ws, r);
    AddSplits(e'.rest, ws', q);
    TermOnce(e.first, AddWs(e.rest, ws), AddBody(e.rest, ws, r), e'.first, AddWs(e'.rest, ws'), AddBody(e'.rest, ws', q));
    AddOnce(TermTree(e.first), e.rest, ws, r, e'.rest, ws', q);
  }

  /** A text has at most one tree. */
  lemma OneTree(e: Expr, ws: string, e': Expr, ws': string)
    requires ExprOk(e) && ExprOk(e') && Spaces(ws) && Spaces(ws') && ExprText(e) + ws == ExprText(e') + ws'
    ensures ExprTree(e) == ExprTree(e')
  {
    hide ExprText, ExprOk, ExprTree, Spaces;
    Regroup3(ExprText(e), ws, "\0");
    Regroup3(ExprText(e'), ws', "\0");
    ExprOnce(e, ws, "\0", e', ws', "\0");
  }

  /** So it has at most one value. */
  lemma OneValue<V(!new)>(a: Algebra<V>, text: string, v: V, w: V)
    requires Means(a, text, v) && Means(a, text, w)
    ensures v == w
  {
    hide Value, ExprTree;
    var e, ws :| Spells(a, text, e, ws) && Value(a, ExprTree(e)) == v;
    var e', ws' :| Spells(a, text, e', ws') && Value(a, ExprTree(e')) == w;
    OneTree(e, ws, e', ws');
  }
}
