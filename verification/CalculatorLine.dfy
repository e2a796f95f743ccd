/** One turn of the calculator's loop, dev/os/user/calculator.c:283-305: a typed line, its
    value, the printed answer. */
module CalculatorLine {
  import S = Syntax
  import C = Calculator
  import L = LineEditor
  import N = NumberText

  /** The algebra of the calculator with exact reals for floats; sqrtf stays open. */
  function Reals(sqrt: real -> real): S.Algebra<real> {
    S.Algebra((x: real, y: real) => x + y, (x: real, y: real) => x - y, (x: real, y: real) => x * y,
              (x: real, y: real) => if y == 0.0 then 0.0 else x / y,
              sqrt, (x: real) => -x, N.NumberOf, (x: real) => x == 0.0, 0.0)
  }

  datatype Reply = Skips | Exits | Answers(text: string)

  /** Keys that are typed into one line, and the key that ends it. */
  ghost predicate OneLine(body: string, end: char) {
    L.NoEnd(body) && L.IsEnd(end) && L.HadRoom(body + [end], |body| + 1, C.INPUT_MAX - 1)
  }

  /** A line the grammar produces, whose value print_float can print. */
  ghost predicate Answerable(a: S.Algebra<real>, line: string, v: real) {
    C.Means(a, line, v) && -10_000_000.0 < v < 100_000_000.0
  }

  /** The line is read whole: user_gets stops at the key that ends it. */
  lemma ReadsTheLine(body: string, end: char, used: nat, ended: bool, line: nat, read: string)
    requires OneLine(body, end)
    requires var keys := body + [end];
             && used <= |keys| && (ended ==> used > 0 && L.IsEnd(keys[used - 1]))
             && read == (if ended then keys[..used - 1] else keys[..used]) && L.NoEnd(read)
             && (ended || used == |keys| || line >= C.INPUT_MAX - 1)
             && |L.Typed(read)| == line
    ensures ended && read == body
  {
    var keys := body + [end];
    assert keys[|body|] == end && keys[..|keys|] == keys && keys[..|body|] == body;
    assert forall i :: 0 <= i < |body| ==> keys[i] == body[i] && !L.IsEnd(keys[i]);
    assert forall i :: 0 <= i < |keys| ==> |L.Typed(keys[..i])| < C.INPUT_MAX - 1;
  }

  /** What the grammar produces starts neither with a NUL nor like the exit command. */
  lemma FactorStart(f: S.Factor)
    requires S.FactorOk(f)
    ensures S.FactorText(f) != "" && S.FactorText(f)[0] !in {'e', '\0'}
  {
    hide S.ExprText;
    if f.ws != "" {
      assert S.IsSpace(f.ws[0]) && S.FactorText(f)[0] == f.ws[0];
    } else {
      match f
      case Number(_, n) =>
        C.NumeralHasNoNul(n);
        assert S.FactorText(f) == S.NumeralText(n);
      case _ =>
    }
  }

  lemma ExprStart(e: S.Expr)
    requires S.ExprOk(e)
    ensures S.ExprText(e) != "" && S.ExprText(e)[0] !in {'e', '\0'}
  {
    hide S.FactorText, S.AddTailsText, S.MulTailsText;
    FactorStart(e.first.first);
  }

  /** Reading a printed answer gives its value, cut off after six decimals. */
  lemma AnswerReadsBack(v: real)
    requires -10_000_000.0 < v < 100_000_000.0
    ensures |N.FloatText(v, 6)| + 1 <= N.PRINT_BUF
    ensures N.NumberOf(N.FloatText(v, 6)) == N.Truncated(v, 6)
    ensures N.Abs(v - N.Truncated(v, 6)) < N.Quot(1.0, N.Power(6))
  {
    N.PrintFits(v);
    N.RoundTrip(v, 6);
    N.TruncatedIsClose(v, 6);
  }

  lemma LineStart(a: S.Algebra<real>, line: string, v: real)
    requires C.Means(a, line, v)
    ensures line != "" && line[0] !in {'e', '\0'}
  {
    hide S.ExprText, S.ExprOk, S.Value, S.ExprTree;
    var e, ws :| C.Spells(a, line, e, ws);
    ExprStart(e);
  }

  /** Evaluate the line in the buffer and print its value. */
  method Answer(ev: C.Evaluator<real>, ghost line: string, ghost after: string, ghost v: real) returns (text: string)
    requires after != "" && after[0] == '\0' && ev.inputBuf[..] == line + after && Answerable(ev.alg, line, v)
    modifies ev`inputPos, ev.inputBuf
    ensures text == N.FloatText(v, 6)
  {
    hide S.ExprText, S.ExprOk, S.ExprClean, S.ExprTree, S.Value, S.Spaces, N.FloatText;
    ghost var e, ws :| C.Spells(ev.alg, line, e, ws) && S.Value(ev.alg, S.ExprTree(e)) == v;
    ev.inputPos := 0;
    C.Regroup3(S.ExprText(e), ws, after);
    assert ev.inputBuf[0..] == ev.inputBuf[..];
    var val := ev.ParseExpr(e, ws, after);
    AnswerReadsBack(val);
    text := N.PrintFloat(val, 6);
  }

  /** A user types a line, with corrections, and ends it: the terminal shows the line; an empty
      line is skipped, "exit" exits, and a line that spells an expression is answered by its
      value, cut off after six decimals. */
  method Turn(ev: C.Evaluator<real>, body: string, end: char, ghost sqrt: real -> real, ghost v: real,
              ghost screen: L.Screen, ghost col: nat)
    returns (r: Reply, out: string, ghost echo: string)
    requires ev.alg == Reals(sqrt) && ev.inputBuf.Length == C.INPUT_MAX
    requires OneLine(body, end) && L.Displays(screen, col, "")
    requires L.Typed(body) in {"", "exit"} || Answerable(ev.alg, L.Typed(body), v)
    modifies ev`inputPos, ev.inputBuf
    ensures out == echo + "\r\n" && (L.Plain(body) ==> L.Displays(L.Shown(screen, echo), col, L.Typed(body)))
    ensures r == Skips <==> L.Typed(body) == ""
    ensures r == Exits <==> L.Typed(body) == "exit"
    ensures r.Answers? ==>
              var text := N.FloatText(v, 6);
              && r.text == "= " + text + "\n" && N.NumberOf(text) == N.Truncated(v, 6)
              && N.Abs(v - N.NumberOf(text)) < N.Quot(1.0, N.Power(6))
  {
    hide C.Means, N.FloatText, N.NumberOf, N.Truncated, N.Quot, N.Power, N.Abs, Reals,
         L.Displays, L.Shown, L.Typed, L.NoEnd, L.HadRoom, L.Plain, OneLine;
    var line, used, ended, sent;
    ghost var read;
    line, used, ended, sent, read, echo := L.UserGets(ev.inputBuf, C.INPUT_MAX, body + [end], screen, col);
    ReadsTheLine(body, end, used, ended, line, read);
    out := sent;
    ghost var typed := L.Typed(body);
    ghost var after := ev.inputBuf[line..];
    assert ev.inputBuf[..] == typed + after && after[0] == '\0';
    if C.Means(ev.alg, typed, v) {
      LineStart(ev.alg, typed, v);
    }
    if ev.inputBuf[0] == '\0' {
      r := Skips;
      assert (typed + after)[0] == '\0';
      return;
    }
    if ev.inputBuf[0] == 'e' && ev.inputBuf[1] == 'x' && ev.inputBuf[2] == 'i' && ev.inputBuf[3] == 't'
       && ev.inputBuf[4] == '\0' {
      assert (typed + after)[0] == 'e';
      return Exits, out, echo;
    }
    assert typed != "" && typed != "exit";
    var text := Answer(ev, typed, after, v);
    AnswerReadsBack(v);
    r := Answers("= " + text + "\n");
  }
}
