/** The recursive-descent evaluator of dev/os/user/calculator.c:48-215, over its mutable
    input buffer and cursor. The ghost parameters name the text under the cursor; a line
    the grammar does not produce is outside the contract. */
module Calculator {
  import opened Syntax

  const INPUT_MAX := 80

  /** The C string at position i: the characters up to the first NUL. */
  function CString(s: string, i: nat): string
    decreases |s| - i
  {
    if i >= |s| || s[i] == '\0' then "" else [s[i]] + CString(s, i + 1)
  }

  lemma {:induction false} CStringIs(s: string, i: nat, text: string)
    requires i + |text| < |s| && s[i..i + |text|] == text && s[i + |text|] == '\0'
    requires '\0' !in text
    ensures CString(s, i) == text
    decreases |text|
  {
    if text != "" {
      assert s[i] == text[0] != '\0';
      assert s[i + 1..i + |text|] == text[1..];
      CStringIs(s, i + 1, text[1..]);
    }
  }

  lemma Head(a: string, b: string)
    requires b != ""
    ensures (a + b)[0] == (if a == "" then b else a)[0]
  {
  }

  /** What may follow a factor: nothing a numeral could swallow. */
  ghost predicate EndsFactor(after: string) {
    after != "" && !IsDigit(after[0]) && after[0] != '.'
  }

  /** What may follow a term and the spaces after it. */
  ghost predicate EndsTerm(after: string) {
    EndsFactor(after) && !IsSpace(after[0]) && after[0] != '*' && after[0] != '/'
  }

  /** What may follow an expression and the spaces after it: the end or a parenthesis. */
  ghost predicate EndsExpr(after: string) {
    EndsTerm(after) && after[0] != '+' && after[0] != '-'
  }

  lemma SpacesEndFactor(ws: string, after: string)
    requires Spaces(ws) && EndsFactor(after)
    ensures EndsFactor(ws + after)
  {
    assert ws != "" ==> (ws + after)[0] == ws[0];
  }

  lemma NumeralHasNoNul(n: Numeral)
    requires NumeralOk(n)
    ensures '\0' !in NumeralText(n)
    ensures var c := NumeralText(n)[0]; c in {'+', '.'} || IsDigit(c)
  {
  }

  /** The text is that of e and trailing spaces, and divides by zero nowhere too early. */
  ghost predicate Spells<V(!new)>(a: Algebra<V>, text: string, e: Expr, ws: string) {
    text == ExprText(e) + ws && ExprOk(e) && Spaces(ws) && ExprClean(a, e)
  }

  /** The text spells an expression of this value. */
  ghost predicate Means<V(!new)>(a: Algebra<V>, text: string, v: V) {
    exists e, ws :: Spells(a, text, e, ws) && Value(a, ExprTree(e)) == v
  }

  class Evaluator<V(!new)> {
    const alg: Algebra<V>
    const inputBuf: array<char>
    var inputPos: nat

    constructor (alg: Algebra<V>)
      ensures this.alg == alg && inputBuf.Length == INPUT_MAX && fresh(inputBuf)
    {
      this.alg := alg;
      inputBuf := new char[INPUT_MAX](_ => '\0');
      inputPos := 0;
    }

    /** The text from the cursor to the end of the buffer. */
    ghost function Rest(): string
      reads this, inputBuf
    {
      if inputPos <= inputBuf.Length then inputBuf[inputPos..] else ""
    }

    /** The character under the cursor. */
    lemma Current(text: string)
      requires Rest() == text && text != ""
      ensures inputPos < inputBuf.Length && inputBuf[inputPos] == text[0]
    {
    }

    /** input_pos++ over a character that is there. */
    method Bump(ghost text: string)
      requires Rest() == text && text != ""
      modifies this`inputPos
      ensures Rest() == text[1..] && inputPos == old(inputPos) + 1
    {
      assert inputBuf[inputPos + 1..] == inputBuf[inputPos..][1..];
      inputPos := inputPos + 1;
    }

    method SkipSpaces(ghost ws: string, ghost after: string)
      requires Spaces(ws) && after != "" && !IsSpace(after[0])
      requires Rest() == ws + after
      modifies this`inputPos
      ensures Rest() == after && inputPos == old(inputPos) + |ws|
    {
      ghost var k := 0;
      while inputBuf[inputPos] == ' ' || inputBuf[inputPos] == '\t'
        invariant k <= |ws| && inputPos == old(inputPos) + k
        invariant Rest() == ws[k..] + after
        decreases |ws| - k
      {
        Head(ws[k..], after);
        assert inputBuf[inputPos + 1..] == Rest()[1..];
        inputPos := inputPos + 1;
        k := k + 1;
      }
      Head(ws[k..], after);
    }

    method Peek(ghost ws: string, ghost after: string) returns (c: char)
      requires Spaces(ws) && after != "" && !IsSpace(after[0])
      requires Rest() == ws + after
      modifies this`inputPos
      ensures Rest() == after && inputPos == old(inputPos) + |ws| && c == after[0]
    {
      SkipSpaces(ws, after);
      c := inputBuf[inputPos];
    }

    method Advance(ghost ws: string, ghost after: string)
      requires Spaces(ws) && after != "" && !IsSpace(after[0])
      requires Rest() == ws + after
      modifies this`inputPos
      ensures Rest() == after[1..] && inputPos == old(inputPos) + |ws| + 1
    {
      SkipSpaces(ws, after);
      assert inputBuf[inputPos + 1..] == Rest()[1..];
      inputPos := inputPos + 1;
    }

    /** Step over a run of digits. */
    method SkipDigits(ghost digits: string, ghost after: string)
      requires Digits(digits) && after != "" && !IsDigit(after[0])
      requires Rest() == digits + after
      modifies this`inputPos
      ensures Rest() == after && inputPos == old(inputPos) + |digits|
    {
      ghost var k := 0;
      while '0' <= inputBuf[inputPos] <= '9'
        invariant k <= |digits| && inputPos == old(inputPos) + k
        invariant Rest() == digits[k..] + after
        decreases |digits| - k
      {
        Head(digits[k..], after);
        assert inputBuf[inputPos + 1..] == Rest()[1..];
        inputPos := inputPos + 1;
        k := k + 1;
      }
      Head(digits[k..], after);
    }

    /** The three loops of parse_number: sign, whole part, fraction. */
    method ScanNumeral(ghost n: Numeral, ghost after: string)
      requires NumeralOk(n) && EndsFactor(after)
      requires Rest() == NumeralText(n) + after
      modifies this`inputPos
      ensures Rest() == after && inputPos == old(inputPos) + |NumeralText(n)|
    {
      hide NumeralText, NumeralOk, EndsFactor, Rest;
      ghost var tail := (if n.dot then "." + n.frac else "") + after;
      NumeralSplits(n, after);
      Current(NumeralText(n) + after);
      if inputBuf[inputPos] == '-' || inputBuf[inputPos] == '+' {
        Bump(NumeralText(n) + after);
      }
      SkipDigits(n.whole, tail);
      Current(tail);
      if inputBuf[inputPos] == '.' {
        Bump(tail);
        SkipDigits(n.frac, after);
      }
    }

    /** parse_number: scan a numeral, end it with a temporary NUL for atof, put the
        character back. */
    method ParseNumber(ghost n: Numeral, ghost after: string) returns (val: V)
      requires NumeralOk(n) && EndsFactor(after)
      requires Rest() == NumeralText(n) + after
      modifies this`inputPos, inputBuf
      ensures val == alg.atof(NumeralText(n))
      ensures Rest() == after && inputPos == old(inputPos) + |NumeralText(n)|
      ensures inputBuf[..] == old(inputBuf[..])
    {
      hide NumeralText, NumeralOk, CString;
      var start := inputPos;
      ghost var buf0 := inputBuf[..];
      ScanNumeral(n, after);
      var saved := inputBuf[inputPos];
      inputBuf[inputPos] := '\0';
      NumeralHasNoNul(n);
      TextEndsHere(buf0, start, NumeralText(n), after, inputBuf[..]);
      val := alg.atof(CString(inputBuf[..], start));
      inputBuf[inputPos] := saved;
      assert inputBuf[..] == buf0;
    }

    /** parse_factor. */
    method ParseFactor(ghost f: Factor, ghost after: string) returns (val: V)
      requires FactorOk(f) && FactorClean(alg, f) && EndsFactor(after)
      requires Rest() == FactorText(f) + after
      modifies this`inputPos, inputBuf
      ensures val == Value(alg, FactorTree(f))
      ensures Rest() == after && inputBuf[..] == old(inputBuf[..])
      decreases f
    {
      hide Rest, ExprText, NumeralText, FactorText, FactorBody, Spaces, NumeralOk, EndsFactor, FactorOk, FactorClean,
           ExprOk, ExprClean, IsSpace, ExprTree, FactorTree, Value;
      ghost var body := FactorBody(f);
      FactorHead(f, after);
      ClosingParen(after);
      var c := Peek(f.ws, body + after);

      if c == '(' {
        ParenFactor(alg, f, after);
        Advance("", body + after);
        val := ParseExpr(f.inner, f.close, ")" + after);
        Advance("", ")" + after);
        return;
      }
      if c == 's' {
        SqrtFactor(alg, f, after);
        Reads(body + after, "sqrt");
        assert inputBuf[inputPos + 1] == "sqrt"[1] && inputBuf[inputPos + 2] == "sqrt"[2] && inputBuf[inputPos + 3] == "sqrt"[3];
        if inputBuf[inputPos] == 's' && inputBuf[inputPos + 1] == 'q'
           && inputBuf[inputPos + 2] == 'r' && inputBuf[inputPos + 3] == 't' {
          Skip(4, body + after);
          ParenSplits(f.inner, f.close, after);
          Advance(f.gap, "(" + Inside(f.inner, f.close, after));
          val := ParseExpr(f.inner, f.close, ")" + after);
          Advance("", ")" + after);
          val := alg.sqrt(val);
          return;
        }
      }
      if c == 'n' {
        NegFactor(alg, f, after);
        Reads(body + after, "neg");
        assert inputBuf[inputPos + 1] == "neg"[1] && inputBuf[inputPos + 2] == "neg"[2];
        if inputBuf[inputPos] == 'n' && inputBuf[inputPos + 1] == 'e' && inputBuf[inputPos + 2] == 'g' {
          Skip(3, body + after);
          ParenSplits(f.inner, f.close, after);
          Advance(f.gap, "(" + Inside(f.inner, f.close, after));
          val := ParseExpr(f.inner, f.close, ")" + after);
          Advance("", ")" + after);
          val := alg.neg(val);
          return;
        }
      }
      if c == '-' {
        MinusFactor(alg, f, after);
        Advance("", body + after);
        val := ParseFactor(f.factor, after);
        val := alg.neg(val);
        return;
      }
      NumberFactor(alg, f);
      val := ParseNumber(f.num, after);
    }

    /** Several characters under and after the cursor. */
    lemma Reads(text: string, word: string)
      requires Rest() == text && 0 < |word| <= |text| && text[..|word|] == word
      ensures inputPos + |word| <= inputBuf.Length
      ensures forall k :: 0 <= k < |word| ==> inputBuf[inputPos + k] == word[k]
    {
      forall k | 0 <= k < |word|
        ensures inputPos + |word| <= inputBuf.Length && inputBuf[inputPos + k] == word[k]
      {
        assert Rest()[k] == text[..|word|][k];
      }
    }

    /** input_pos += n. */
    method Skip(n: nat, ghost text: string)
      requires Rest() == text && n < |text|
      modifies this`inputPos
      ensures Rest() == text[n..]
    {
      assert inputBuf[inputPos + n..] == inputBuf[inputPos..][n..];
      inputPos := inputPos + n;
    }

    /** parse_term. A zero divisor ends the term at once with value zero, leaving the rest
        of the term unread; without one the whole term and the spaces after it are consumed. */
    method ParseTerm(ghost t: Term, ghost ws: string, ghost after: string) returns (val: V)
      requires TermOk(t) && FactorsClean(alg, t) && Spaces(ws) && EndsTerm(after)
      requires Rest() == TermText(t) + (ws + after)
      modifies this`inputPos, inputBuf
      ensures inputBuf[..] == old(inputBuf[..])
      ensures var k := FirstZero(alg, t.rest);
              if k < |t.rest| then val == alg.zero && Rest() == MulTailsText(t.rest[k + 1..]) + (ws + after)
              else val == Value(alg, TermTree(t)) && Rest() == after
      decreases t, 0
    {
      hide Rest, TermText, TermTree, FactorText, MulTailsText, MulWs, MulBody, Spaces, EndsTerm, EndsFactor, FactorOk,
           FactorClean, IsSpace, FactorTree, FirstZero, MulFold, Value;
      ghost var i, acc := 0, FactorTree(t.first);
      MulSplits(t.rest, ws, after);
      TermSplits(t, ws + after);
      val := ParseFactor(t.first, MulTailsText(t.rest) + (ws + after));
      assert t.rest[0..] == t.rest;
      while true
        invariant 0 <= i <= |t.rest| && inputBuf[..] == old(inputBuf[..])
        invariant forall j :: 0 <= j < i ==> !ZeroDivisor(alg, t.rest[j])
        invariant val == Value(alg, acc) && MulFold(acc, t.rest[i..]) == TermTree(t)
        invariant Rest() == MulTailsText(t.rest[i..]) + (ws + after)
        decreases |t.rest| - i
      {
        ghost var rest := t.rest[i..];
        ghost var body := MulBody(rest, ws, after);
        MulSplits(rest, ws, after);
        var c := Peek(MulWs(rest, ws), body);
        if c == '*' {
          Advance("", body);
          MulSplits(rest[1..], ws, after);
          var x := ParseFactor(rest[0].factor, MulTailsText(rest[1..]) + (ws + after));
          val := alg.mul(val, x);
        } else if c == '/' {
          Advance("", body);
          MulSplits(rest[1..], ws, after);
          var divisor := ParseFactor(rest[0].factor, MulTailsText(rest[1..]) + (ws + after));
          if alg.isZero(divisor) {
            assert ZeroDivisor(alg, t.rest[i]) && t.rest[i + 1..] == rest[1..];
            val := alg.zero;
            return;
          }
          val := alg.div(val, divisor);
        } else {
          FoldsEnd(acc);
          break;
        }
        MulStep(alg, acc, rest);
        acc := Binary(if rest[0].mul then Times else Over, acc, FactorTree(rest[0].factor));
        assert t.rest[i + 1..] == rest[1..];
        i := i + 1;
      }
    }

    /** parse_term on a clean term of an expression, up to the next operator of the
        expression or the spaces before it. */
    method ParseCleanTerm(ghost t: Term, ghost rest: seq<AddTail>, ghost ws: string, ghost after: string)
      returns (val: V, ghost w: string)
      requires TermOk(t) && TermClean(alg, t) && Spaces(ws) && EndsExpr(after)
      requires forall i :: 0 <= i < |rest| ==> Spaces(rest[i].ws)
      requires Rest() == TermText(t) + (AddTailsText(rest) + (ws + after))
      modifies this`inputPos, inputBuf
      ensures val == Value(alg, TermTree(t)) && inputBuf[..] == old(inputBuf[..])
      ensures Spaces(w) && Rest() == w + AddBody(rest, ws, after)
      decreases t, 1
    {
      hide Rest, TermText, TermTree, AddTailsText, MulTailsText, AddWs, AddBody, Spaces, EndsTerm, EndsExpr,
           TermOk, FactorsClean, FirstZero, Value;
      AddSplits(rest, ws, after);
      CleanTerm(alg, t);
      w := AddWs(rest, ws);
      val := ParseTerm(t, w, AddBody(rest, ws, after));
      if FirstZero(alg, t.rest) == |t.rest| {
        w := "";
      }
    }

    /** parse_expr. */
    method ParseExpr(ghost e: Expr, ghost ws: string, ghost after: string) returns (val: V)
      requires ExprOk(e) && ExprClean(alg, e) && Spaces(ws) && EndsExpr(after)
      requires Rest() == ExprText(e) + (ws + after)
      modifies this`inputPos, inputBuf
      ensures val == Value(alg, ExprTree(e))
      ensures Rest() == after && inputBuf[..] == old(inputBuf[..])
      decreases e
    {
      hide Rest, TermText, AddTailsText, AddBody, Spaces, EndsTerm, EndsExpr, TermOk, TermClean, IsSpace,
           TermTree, AddFold, Value;
      ghost var i, acc, w := 0, TermTree(e.first), "";
      ExprSplits(e, ws + after);
      val, w := ParseCleanTerm(e.first, e.rest, ws, after);
      assert e.rest[0..] == e.rest;
      while true
        invariant 0 <= i <= |e.rest| && inputBuf[..] == old(inputBuf[..])
        invariant val == Value(alg, acc) && AddFold(acc, e.rest[i..]) == ExprTree(e)
        invariant Spaces(w) && Rest() == w + AddBody(e.rest[i..], ws, after)
        decreases |e.rest| - i
      {
        ghost var rest := e.rest[i..];
        ghost var body := AddBody(rest, ws, after);
        AddSplits(rest, ws, after);
        var c := Peek(w, body);
        if c == '+' {
          Advance("", body);
          var x;
          x, w := ParseCleanTerm(rest[0].term, rest[1..], ws, after);
          val := alg.add(val, x);
        } else if c == '-' {
          Advance("", body);
          var x;
          x, w := ParseCleanTerm(rest[0].term, rest[1..], ws, after);
          val := alg.sub(val, x);
        } else {
          FoldsEnd(acc);
          break;
        }
        AddStep(alg, acc, rest);
        acc := Binary(if rest[0].add then Plus else Minus, acc, TermTree(rest[0].term));
        assert e.rest[i + 1..] == rest[1..];
        i := i + 1;
      }
    }

    /** eval_str: load at most INPUT_MAX - 1 characters of a C string and evaluate them. */
    method EvalStr(s: string) returns (val: V)
      requires inputBuf.Length == INPUT_MAX && '\0' !in s
      requires exists v :: Means(alg, Loaded(s), v)
      modifies this`inputPos, inputBuf
      ensures Means(alg, Loaded(s), val)
      ensures inputPos == |Loaded(s)| && inputBuf[..inputPos] == Loaded(s) && inputBuf[inputPos] == '\0'
    {
      hide ExprText, ExprOk, ExprClean, ExprTree, Value;
      ghost var e, ws :| Spells(alg, Loaded(s), e, ws);
      var i := 0;
      while i < |s| && i < INPUT_MAX - 1
        invariant i <= |s| && i <= INPUT_MAX - 1 && inputBuf[..i] == s[..i]
      {
        inputBuf[i] := s[i];
        assert inputBuf[..i + 1] == inputBuf[..i] + [s[i]];
        i := i + 1;
      }
      inputBuf[i] := '\0';
      ghost var after := inputBuf[i..];
      assert inputBuf[..i] == Loaded(s);
      assert inputBuf[..] == Loaded(s) + after;
      inputPos := 0;
      Regroup3(ExprText(e), ws, after);
      assert inputBuf[0..] == inputBuf[..];
      val := ParseExpr(e, ws, after);
      assert |Rest()| == |after|;
      assert Spells(alg, Loaded(s), e, ws);
    }
  }

  /** What fits into the input buffer with its NUL. */
  function Loaded(s: string): string {
    if |s| < INPUT_MAX then s else s[..INPUT_MAX - 1]
  }

  // ---------------------------------------------------------------------------
  // How texts split at the cursor
  // ---------------------------------------------------------------------------

  /** The spaces before the next operator of an expression, or before what follows it. */
  ghost function AddWs(rest: seq<AddTail>, ws: string): string {
    if rest == [] then ws else rest[0].ws
  }

  /** The text from that operator on. */
  ghost function AddBody(rest: seq<AddTail>, ws: string, after: string): string {
    if rest == [] then after
    else [AddOp(rest[0].add)] + (TermText(rest[0].term) + (AddTailsText(rest[1..]) + (ws + after)))
  }

  ghost function MulWs(rest: seq<MulTail>, ws: string): string {
    if rest == [] then ws else rest[0].ws
  }

  ghost function MulBody(rest: seq<MulTail>, ws: string, after: string): string {
    if rest == [] then after
    else [MulOp(rest[0].mul)] + (FactorText(rest[0].factor) + (MulTailsText(rest[1..]) + (ws + after)))
  }

  lemma Regroup3(a: string, b: string, c: string)
    ensures (a + b) + c == a + (b + c)
  {
  }

  lemma TailSplits(w: string, op: string, x: string, r: string, after: string)
    ensures (w + (op + (x + r))) + after == w + (op + (x + (r + after)))
  {
    Regroup3(w, op + (x + r), after);
    Regroup3(op, x + r, after);
    Regroup3(x, r, after);
  }

  lemma HeadAndTail(c: char, s: string)
    ensures ([c] + s)[0] == c && ([c] + s)[1..] == s
  {
  }

  lemma ExprSplits(e: Expr, after: string)
    ensures ExprText(e) + after == TermText(e.first) + (AddTailsText(e.rest) + after)
    ensures ExprTree(e) == AddFold(TermTree(e.first), e.rest)
  {
    hide TermText, AddTailsText;
    Regroup3(TermText(e.first), AddTailsText(e.rest), after);
  }

  lemma TermSplits(t: Term, after: string)
    ensures TermText(t) + after == FactorText(t.first) + (MulTailsText(t.rest) + after)
    ensures TermTree(t) == MulFold(FactorTree(t.first), t.rest)
  {
    hide FactorText, MulTailsText;
    Regroup3(FactorText(t.first), MulTailsText(t.rest), after);
  }

  lemma AddTextSplits(rest: seq<AddTail>, ws: string, after: string)
    ensures AddTailsText(rest) + (ws + after) == AddWs(rest, ws) + AddBody(rest, ws, after)
  {
    hide TermText;
    if rest == [] {
      assert "" + (ws + after) == ws + after;
    } else {
      TailSplits(rest[0].ws, [AddOp(rest[0].add)], TermText(rest[0].term), AddTailsText(rest[1..]), ws + after);
    }
  }

  lemma AddBodyHead(rest: seq<AddTail>, ws: string, after: string)
    requires EndsExpr(after)
    ensures var b := AddBody(rest, ws, after);
            && EndsTerm(b) && b != "" && !IsSpace(b[0])
            && (if rest == [] then b == after && b[0] != '+' && b[0] != '-' else
                b[0] == AddOp(rest[0].add) && b[1..] == TermText(rest[0].term) + (AddTailsText(rest[1..]) + (ws + after)))
  {
    hide TermText, AddTailsText;
    if rest != [] {
      HeadAndTail(AddOp(rest[0].add), TermText(rest[0].term) + (AddTailsText(rest[1..]) + (ws + after)));
    }
  }

  lemma AddSplits(rest: seq<AddTail>, ws: string, after: string)
    requires Spaces(ws) && EndsExpr(after)
    requires forall i :: 0 <= i < |rest| ==> Spaces(rest[i].ws)
    ensures AddTailsText(rest) + (ws + after) == AddWs(rest, ws) + AddBody(rest, ws, after)
    ensures Spaces("") && Spaces(AddWs(rest, ws))
    ensures var b := AddBody(rest, ws, after);
            && EndsTerm(b) && b != "" && !IsSpace(b[0])
            && (if rest == [] then b == after && b[0] != '+' && b[0] != '-' else
                b[0] == AddOp(rest[0].add) && b[1..] == TermText(rest[0].term) + (AddTailsText(rest[1..]) + (ws + after)))
  {
    hide TermText, AddTailsText, AddBody, EndsTerm, EndsExpr;
    AddTextSplits(rest, ws, after);
    AddBodyHead(rest, ws, after);
  }

  lemma MulTextSplits(rest: seq<MulTail>, ws: string, after: string)
    ensures MulTailsText(rest) + (ws + after) == MulWs(rest, ws) + MulBody(rest, ws, after)
  {
    hide FactorText;
    if rest == [] {
      assert "" + (ws + after) == ws + after;
    } else {
      TailSplits(rest[0].ws, [MulOp(rest[0].mul)], FactorText(rest[0].factor), MulTailsText(rest[1..]), ws + after);
    }
  }

  lemma MulBodyHead(rest: seq<MulTail>, ws: string, after: string)
    requires EndsTerm(after)
    ensures var b := MulBody(rest, ws, after);
            && EndsFactor(b) && b != "" && !IsSpace(b[0])
            && (if rest == [] then b == after && b[0] != '*' && b[0] != '/' else
                b[0] == MulOp(rest[0].mul) && b[1..] == FactorText(rest[0].factor) + (MulTailsText(rest[1..]) + (ws + after)))
  {
    hide FactorText, MulTailsText;
    if rest != [] {
      HeadAndTail(MulOp(rest[0].mul), FactorText(rest[0].factor) + (MulTailsText(rest[1..]) + (ws + after)));
    }
  }

  lemma MulSplits(rest: seq<MulTail>, ws: string, after: string)
    requires Spaces(ws) && EndsTerm(after)
    requires forall i :: 0 <= i < |rest| ==> Spaces(rest[i].ws)
    ensures MulTailsText(rest) + (ws + after) == MulWs(rest, ws) + MulBody(rest, ws, after)
    ensures Spaces("") && Spaces(MulWs(rest, ws)) && EndsFactor(MulTailsText(rest) + (ws + after))
    ensures var b := MulBody(rest, ws, after);
            && b != "" && !IsSpace(b[0])
            && (if rest == [] then b == after && b[0] != '*' && b[0] != '/' else
                b[0] == MulOp(rest[0].mul) && b[1..] == FactorText(rest[0].factor) + (MulTailsText(rest[1..]) + (ws + after)))
  {
    hide FactorText, MulTailsText, MulBody, EndsTerm, EndsFactor;
    MulTextSplits(rest, ws, after);
    MulBodyHead(rest, ws, after);
    SpacesEndFactor(MulWs(rest, ws), MulBody(rest, ws, after));
  }

  /** One turn of the loop folds one more operand into the value. */
  lemma AddStep<V>(a: Algebra<V>, acc: Tree, rest: seq<AddTail>)
    requires rest != []
    ensures var x, y := Value(a, acc), Value(a, TermTree(rest[0].term));
            Value(a, Binary(if rest[0].add then Plus else Minus, acc, TermTree(rest[0].term))) == (
            if rest[0].add then a.add(x, y) else a.sub(x, y))
    ensures AddFold(acc, rest) == AddFold(Binary(if rest[0].add then Plus else Minus, acc, TermTree(rest[0].term)), rest[1..])
  {
    hide TermTree;
  }

  lemma MulStep<V>(a: Algebra<V>, acc: Tree, rest: seq<MulTail>)
    requires rest != []
    ensures var x, y := Value(a, acc), Value(a, FactorTree(rest[0].factor));
            Value(a, Binary(if rest[0].mul then Times else Over, acc, FactorTree(rest[0].factor))) == (
            if rest[0].mul then a.mul(x, y) else if a.isZero(y) then a.zero else a.div(x, y))
    ensures MulFold(acc, rest) == MulFold(Binary(if rest[0].mul then Times else Over, acc, FactorTree(rest[0].factor)), rest[1..])
  {
    hide FactorTree;
  }

  lemma FoldsEnd(acc: Tree)
    ensures AddFold(acc, []) == acc && MulFold(acc, []) == acc
  {
  }

  /** A clean term's value is its tree's, also when it stops at a final zero divisor. */
  lemma CleanTerm<V(!new)>(a: Algebra<V>, t: Term)
    requires TermClean(a, t)
    ensures FactorsClean(a, t)
    ensures var k := FirstZero(a, t.rest);
            k < |t.rest| ==> a.zero == Value(a, TermTree(t)) && MulTailsText(t.rest[k + 1..]) == ""
  {
    hide FactorTree;
    var k := FirstZero(a, t.rest);
    if k < |t.rest| {
      assert t.rest == t.rest[..k] + [t.rest[k]];
      MulFoldSnoc(FactorTree(t.first), t.rest[..k], t.rest[k]);
    }
  }

  /** A factor's text without the spaces before it. */
  ghost function FactorBody(f: Factor): string {
    match f
    case Number(_, n) => NumeralText(n)
    case Paren(_, e, close) => "(" + (ExprText(e) + (close + ")"))
    case SqrtCall(_, gap, e, close) => "sqrt" + gap + "(" + (ExprText(e) + (close + ")"))
    case NegCall(_, gap, e, close) => "neg" + gap + "(" + (ExprText(e) + (close + ")"))
    case UnaryMinus(_, f) => "-" + FactorText(f)
  }

  /** A parenthesised body: what is left to read after its opening parenthesis. */
  ghost function Inside(e: Expr, close: string, after: string): string {
    ExprText(e) + (close + (")" + after))
  }

  lemma ParenSplits(e: Expr, close: string, after: string)
    ensures "(" + (ExprText(e) + (close + ")")) + after == "(" + Inside(e, close, after)
    ensures ("(" + Inside(e, close, after))[0] == '(' && ("(" + Inside(e, close, after))[1..] == Inside(e, close, after)
  {
    hide ExprText;
    Regroup3("(", ExprText(e) + (close + ")"), after);
    Regroup3(ExprText(e), close + ")", after);
    Regroup3(close, ")", after);
    HeadAndTail('(', Inside(e, close, after));
  }

  lemma CallSplits(word: string, gap: string, e: Expr, close: string, after: string)
    ensures var b := (word + (gap + ("(" + (ExprText(e) + (close + ")"))))) + after;
            |b| > |word| && b[..|word|] == word && b[|word|..] == gap + ("(" + Inside(e, close, after))
  {
    hide Inside, ExprText;
    ParenSplits(e, close, after);
    Regroup3(word, gap + ("(" + (ExprText(e) + (close + ")"))), after);
    Regroup3(gap, "(" + (ExprText(e) + (close + ")")), after);
  }

  lemma FactorHead(f: Factor, after: string)
    requires FactorOk(f) && EndsFactor(after)
    ensures var b := FactorBody(f) + after; b != "" && !IsSpace(b[0]) && Starts(f, b[0])
    ensures FactorText(f) + after == f.ws + (FactorBody(f) + after) && Spaces(f.ws)
  {
    hide ExprText, NumeralText, ExprOk, NumeralOk;
    Regroup3(f.ws, FactorBody(f), after);
    match f
    case Number(_, n) => NumeralStart(n, after);
    case _ =>
  }

  lemma ClosingParen(after: string)
    ensures EndsExpr(")" + after) && (")" + after)[0] == ')' && (")" + after)[1..] == after && !IsSpace(')') && !IsSpace('(')
    ensures Spaces("")
  {
    HeadAndTail(')', after);
  }

  // What each kind of factor looks like from its first character on, and what it holds.

  lemma ParenFactor<V(!new)>(a: Algebra<V>, f: Factor, after: string)
    requires f.Paren? && FactorOk(f) && FactorClean(a, f)
    ensures (FactorBody(f) + after)[1..] == Inside(f.inner, f.close, after)
    ensures ExprOk(f.inner) && Spaces(f.close) && ExprClean(a, f.inner)
    ensures FactorTree(f) == ExprTree(f.inner)
  {
    hide ExprText, ExprOk, ExprClean, ExprTree, Inside;
    ParenSplits(f.inner, f.close, after);
  }

  lemma SqrtFactor<V(!new)>(a: Algebra<V>, f: Factor, after: string)
    requires f.SqrtCall? && FactorOk(f) && FactorClean(a, f)
    ensures var b := FactorBody(f) + after;
            |b| > 4 && b[..4] == "sqrt" && b[4..] == f.gap + ("(" + Inside(f.inner, f.close, after))
    ensures Spaces(f.gap) && ExprOk(f.inner) && Spaces(f.close) && ExprClean(a, f.inner)
    ensures Value(a, FactorTree(f)) == a.sqrt(Value(a, ExprTree(f.inner)))
  {
    hide ExprText, ExprOk, ExprClean, ExprTree, Inside;
    CallSplits("sqrt", f.gap, f.inner, f.close, after);
  }

  lemma NegFactor<V(!new)>(a: Algebra<V>, f: Factor, after: string)
    requires f.NegCall? && FactorOk(f) && FactorClean(a, f)
    ensures var b := FactorBody(f) + after;
            |b| > 3 && b[..3] == "neg" && b[3..] == f.gap + ("(" + Inside(f.inner, f.close, after))
    ensures Spaces(f.gap) && ExprOk(f.inner) && Spaces(f.close) && ExprClean(a, f.inner)
    ensures Value(a, FactorTree(f)) == a.neg(Value(a, ExprTree(f.inner)))
  {
    hide ExprText, ExprOk, ExprClean, ExprTree, Inside;
    CallSplits("neg", f.gap, f.inner, f.close, after);
  }

  lemma MinusFactor<V(!new)>(a: Algebra<V>, f: Factor, after: string)
    requires f.UnaryMinus? && FactorOk(f) && FactorClean(a, f)
    ensures (FactorBody(f) + after)[1..] == FactorText(f.factor) + after
    ensures FactorOk(f.factor) && FactorClean(a, f.factor)
    ensures Value(a, FactorTree(f)) == a.neg(Value(a, FactorTree(f.factor)))
  {
    Regroup3("-", FactorText(f.factor), after);
    HeadAndTail('-', FactorText(f.factor) + after);
  }

  lemma NumberFactor<V(!new)>(a: Algebra<V>, f: Factor)
    requires f.Number? && FactorOk(f)
    ensures FactorBody(f) == NumeralText(f.num) && NumeralOk(f.num)
    ensures Value(a, FactorTree(f)) == a.atof(NumeralText(f.num))
  {
  }

  /** The first character of a factor tells which kind it is. */
  ghost predicate Starts(f: Factor, c: char) {
    match f
    case Number(_, _) => c !in {'(', 's', 'n', '-'}
    case Paren(_, _, _) => c == '('
    case SqrtCall(_, _, _, _) => c == 's'
    case NegCall(_, _, _, _) => c == 'n'
    case UnaryMinus(_, _) => c == '-'
  }

  lemma NumeralStart(n: Numeral, after: string)
    requires NumeralOk(n)
    ensures NumeralText(n) != "" && (NumeralText(n) + after)[0] !in {'(', 's', 'n', '-', ' ', '\t'}
  {
  }

  /** How the scan cuts a numeral up. */
  lemma NumeralSplits(n: Numeral, after: string)
    requires NumeralOk(n) && EndsFactor(after)
    ensures var tail := (if n.dot then "." + n.frac else "") + after;
            && NumeralText(n) + after == (if n.plus then "+" else "") + (n.whole + tail)
            && tail != "" && !IsDigit(tail[0]) && after != "" && !IsDigit(after[0])
            && Digits(n.whole) && Digits(n.frac)
            && (n.dot ==> tail == "." + (n.frac + after)) && (!n.dot ==> tail[0] != '.')
            && (!n.plus ==> (n.whole + tail)[0] !in {'+', '-'})
    ensures |NumeralText(n)| == (if n.plus then 1 else 0) + |n.whole| + (if n.dot then 1 + |n.frac| else 0)
  {
  }

  /** With the character after it replaced by NUL, the numeral is a C string of its own. */
  lemma TextEndsHere(buf0: string, start: nat, text: string, after: string, buf: string)
    requires start <= |buf0| && buf0[start..] == text + after && after != "" && '\0' !in text
    requires buf == buf0[start + |text| := '\0']
    ensures CString(buf, start) == text
  {
    assert buf[start..start + |text|] == buf0[start..][..|text|];
    CStringIs(buf, start, text);
  }
}
