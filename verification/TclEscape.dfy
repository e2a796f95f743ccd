/** _tcl_escape, tools/vivado_core/operations.py:30-38, and Tcl's reading of a double-quoted
    word. */
module TclEscape {
  import opened Wrappers

  /** str.replace of a single character. */
  function Replace(s: string, c: char, rep: string): string {
    if s == "" then "" else (if s[0] == c then rep else [s[0]]) + Replace(s[1..], c, rep)
  }

  /** The five replacements, in the order of the code. */
  function Escape(s: string): string {
    var s1 := Replace(s, '\\', "\\\\");
    var s2 := Replace(s1, '"', "\\\"");
    var s3 := Replace(s2, '$', "\\$");
    var s4 := Replace(s3, '[', "\\[");
    Replace(s4, ']', "\\]")
  }

  /** Characters that mean something inside a double-quoted word, or look as if they did. */
  predicate IsSpecial(c: char) {
    c == '\\' || c == '"' || c == '$' || c == '[' || c == ']'
  }

  /** The same done character by character. */
  function Escaped(s: string): string {
    if s == "" then "" else (if IsSpecial(s[0]) then ['\\', s[0]] else [s[0]]) + Escaped(s[1..])
  }

  lemma {:induction false} ReplaceConcat(a: string, b: string, c: char, rep: string)
    ensures Replace(a + b, c, rep) == Replace(a, c, rep) + Replace(b, c, rep)
  {
    if a == "" {
      assert a + b == b;
    } else {
      assert (a + b)[1..] == a[1..] + b;
      ReplaceConcat(a[1..], b, c, rep);
    }
  }

  lemma EscapeConcat(a: string, b: string)
    ensures Escape(a + b) == Escape(a) + Escape(b)
  {
    hide Replace;
    ReplaceConcat(a, b, '\\', "\\\\");
    var a1, b1 := Replace(a, '\\', "\\\\"), Replace(b, '\\', "\\\\");
    ReplaceConcat(a1, b1, '"', "\\\"");
    var a2, b2 := Replace(a1, '"', "\\\""), Replace(b1, '"', "\\\"");
    ReplaceConcat(a2, b2, '$', "\\$");
    var a3, b3 := Replace(a2, '$', "\\$"), Replace(b2, '$', "\\$");
    ReplaceConcat(a3, b3, '[', "\\[");
    var a4, b4 := Replace(a3, '[', "\\["), Replace(b3, '[', "\\[");
    ReplaceConcat(a4, b4, ']', "\\]");
  }

  lemma ReplaceOne(d: char, c: char, rep: string)
    ensures Replace([d], c, rep) == if d == c then rep else [d]
  {
    assert [d][1..] == "";
  }

  lemma ReplaceTwo(d: char, e: char, c: char, rep: string)
    requires d != c && e != c
    ensures Replace([d, e], c, rep) == [d, e]
  {
    assert [d, e][1..] == [e];
    ReplaceOne(e, c, rep);
  }

  /** One character through all five replacements: later ones leave the backslash that an
      earlier one put in front alone, because backslashes are replaced first. */
  lemma EscapeOne(c: char)
    ensures Escape([c]) == if IsSpecial(c) then ['\\', c] else [c]
  {
    hide Replace;
    ReplaceOne(c, '\\', "\\\\");
    ReplaceOne(c, '"', "\\\"");
    ReplaceOne(c, '$', "\\$");
    ReplaceOne(c, '[', "\\[");
    ReplaceOne(c, ']', "\\]");
    if c != '"' { ReplaceTwo('\\', c, '"', "\\\""); }
    if c != '$' { ReplaceTwo('\\', c, '$', "\\$"); }
    if c != '[' { ReplaceTwo('\\', c, '[', "\\["); }
    if c != ']' { ReplaceTwo('\\', c, ']', "\\]"); }
  }

  /** For every string the chain of replacements is the per-character map. */
  lemma {:induction false} EscapeIsPerCharacter(s: string)
    ensures Escape(s) == Escaped(s)
  {
    hide Escape, IsSpecial;
    if s == "" {
      EmptyEscape();
    } else {
      assert s == [s[0]] + s[1..];
      EscapeConcat([s[0]], s[1..]);
      EscapeOne(s[0]);
      EscapeIsPerCharacter(s[1..]);
    }
  }

  lemma EmptyEscape()
    ensures Escape("") == ""
  {
  }

  /** Letters, digits and the newline after a backslash have other meanings in Tcl. */
  predicate IsTclCode(c: char) {
    'a' <= c <= 'z' || 'A' <= c <= 'Z' || '0' <= c <= '9' || c == '\n'
  }

  /** Does a dollar sign before this text start a variable: a name, a name in braces, or the
      index of a nameless array? Otherwise Tcl takes it literally. */
  predicate StartsVariable(rest: string) {
    rest != "" &&
    (IsNameChar(rest[0]) || rest[0] == '{' || rest[0] == '(' || (|rest| > 1 && rest[0] == ':' && rest[1] == ':'))
  }

  predicate IsNameChar(c: char) {
    'a' <= c <= 'z' || 'A' <= c <= 'Z' || '0' <= c <= '9' || c == '_'
  }

  /** What Tcl makes of the text between double quotes: None when the word would end early or
      a variable, command or coded substitution would start. */
  function TclReads(s: string): Option<string> {
    if s == "" then Some("")
    else if s[0] == '"' || s[0] == '[' || (s[0] == '$' && StartsVariable(s[1..])) then None
    else if s[0] == '\\' then
      if |s| == 1 || IsTclCode(s[1]) then None
      else
        match TclReads(s[2..])
        case None => None
        case Some(t) => Some([s[1]] + t)
    else
      match TclReads(s[1..])
      case None => None
      case Some(t) => Some([s[0]] + t)
  }

  lemma {:induction false} ReadsEscaped(s: string)
    ensures TclReads(Escaped(s)) == Some(s)
  {
    if s != "" {
      var e, rest := Escaped(s), Escaped(s[1..]);
      ReadsEscaped(s[1..]);
      if IsSpecial(s[0]) {
        assert e == ['\\', s[0]] + rest;
        assert e[0] == '\\' && e[1] == s[0] && e[2..] == rest;
        assert [s[0]] + s[1..] == s;
      } else {
        assert e == [s[0]] + rest;
        assert e[0] == s[0] && e[1..] == rest;
        assert [s[0]] + s[1..] == s;
      }
    }
  }

  /** Tcl reads every escaped string back as the string itself: nothing in it is substituted,
      and no quote in it ends the word. Hence different strings stay different. */
  lemma TclUndoesEscape(s: string)
    ensures TclReads(Escape(s)) == Some(s)
  {
    EscapeIsPerCharacter(s);
    ReadsEscaped(s);
  }

  /** Something at position i of an unescaped text that Tcl would act on. */
  predicate Acts(s: string, i: nat)
    requires i < |s|
  {
    s[i] == '\\' || s[i] == '"' || s[i] == '[' || (s[i] == '$' && StartsVariable(s[i + 1..]))
  }

  ghost predicate Inert(s: string) {
    forall i :: 0 <= i < |s| ==> !Acts(s, i)
  }

  lemma InertSplits(s: string)
    requires s != ""
    ensures Inert(s) <==> !Acts(s, 0) && Inert(s[1..])
  {
    hide StartsVariable;
    var t := s[1..];
    forall i | 0 <= i < |t|
      ensures Acts(t, i) == Acts(s, i + 1)
    {
      assert t[i + 1..] == s[i + 2..];
    }
    assert forall i :: 1 <= i < |s| ==> Acts(s, i) == Acts(t, i - 1);
  }

  /** Unescaped text is read unchanged exactly when it holds no `\`, `"` or `[`, and no `$` that
      starts a variable. */
  lemma {:induction false} PlainTextNeedsNoEscape(s: string)
    ensures TclReads(s) == Some(s) <==> Inert(s)
  {
    hide StartsVariable, IsTclCode, Inert;
    if s == "" {
      NothingActs();
    } else {
      PlainTextNeedsNoEscape(s[1..]);
      InertSplits(s);
      if s[0] == '\\' {
        if |s| > 1 {
          NeverLonger(s[2..]);
        }
        assert TclReads(s).Some? ==> |TclReads(s).value| < |s|;
      } else if !Acts(s, 0) {
        var r := TclReads(s[1..]);
        assert s == [s[0]] + s[1..];
        assert r.Some? ==> ([s[0]] + r.value)[1..] == r.value;
      }
    }
  }

  lemma NothingActs()
    ensures Inert("")
  {
  }

  lemma {:induction false} NeverLonger(s: string)
    ensures TclReads(s).Some? ==> |TclReads(s).value| <= |s|
  {
    if s != "" {
      NeverLonger(s[1..]);
      if |s| > 1 {
        NeverLonger(s[2..]);
      }
    }
  }
}
