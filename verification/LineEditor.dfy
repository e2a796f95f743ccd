/** user_gets, dev/os/user/user_gets.c:36-60: a line editor whose echo keeps a terminal in
    step with its buffer. */
module LineEditor {

  const BS := 0x08 as char
  const DEL := 0x7F as char

  predicate IsEnd(c: char) {
    c == '\r' || c == '\n'
  }

  predicate IsErase(c: char) {
    c == DEL || c == BS
  }

  /** Keys that move the cursor of any terminal one place to the right. */
  predicate IsPrintable(c: char) {
    ' ' <= c < DEL
  }

  // ---------------------------------------------------------------------------
  // The line that was typed
  // ---------------------------------------------------------------------------

  /** One key that does not end the line: append it, or erase the last one. */
  function Edited(line: string, c: char): string {
    if !IsErase(c) then line + [c] else if line == "" then "" else line[..|line| - 1]
  }

  /** The line after some keys. */
  function Typed(keys: string): string {
    if keys == "" then "" else Edited(Typed(keys[..|keys| - 1]), keys[|keys| - 1])
  }

  /** Backspace and delete take back exactly the last character that is left; before any they
      do nothing; every other key is kept. */
  lemma ErasingUndoes(keys: string, c: char, erase: char)
    requires erase == 0x08 as char || erase == 0x7F as char
    ensures c != 0x08 as char && c != 0x7F as char ==>
              Typed(keys + [c]) == Typed(keys) + [c] && Typed(keys + [c, erase]) == Typed(keys)
    ensures Typed(keys) == "" ==> Typed(keys + [erase]) == ""
    ensures Typed(keys) != "" ==> Typed(keys + [erase]) == Typed(keys)[..|Typed(keys)| - 1]
  {
    hide Typed;
    TypedSnoc(keys, c);
    TypedSnoc(keys, erase);
    TypedSnoc(keys + [c], erase);
    assert keys + [c] + [erase] == keys + [c, erase];
  }

  lemma TypedSnoc(keys: string, c: char)
    ensures Typed(keys + [c]) == Edited(Typed(keys), c)
  {
    hide Edited;
    assert (keys + [c])[..|keys|] == keys;
  }

  // ---------------------------------------------------------------------------
  // A terminal: one line of cells, endless to the right, blank where nothing was written
  // ---------------------------------------------------------------------------

  datatype Screen = Screen(cells: string, cursor: nat)

  function CellAt(s: Screen, i: nat): char {
    if i < |s.cells| then s.cells[i] else ' '
  }

  function Blanks(n: nat): string {
    seq(n, _ => ' ')
  }

  function Show(s: Screen, c: char): Screen {
    if c == BS then s.(cursor := if s.cursor > 0 then s.cursor - 1 else 0)
    else if c == '\r' then s.(cursor := 0)
    else if c == '\n' then Screen("", s.cursor)
    else
      var wide := if s.cursor < |s.cells| then s.cells else s.cells + Blanks(s.cursor + 1 - |s.cells|);
      Screen(wide[s.cursor := c], s.cursor + 1)
  }

  function Shown(s: Screen, out: string): Screen {
    if out == "" then s else Show(Shown(s, out[..|out| - 1]), out[|out| - 1])
  }

  /** The screen shows exactly this line, starting at column `col`, with the cursor after it. */
  ghost predicate Displays(s: Screen, col: nat, line: string) {
    && s.cursor == col + |line|
    && (forall i :: 0 <= i < |line| ==> CellAt(s, col + i) == line[i])
    && (forall i :: i >= s.cursor ==> CellAt(s, i) == ' ')
  }

  lemma ShownSnoc(s: Screen, out: string, c: char)
    ensures Shown(s, out + [c]) == Show(Shown(s, out), c)
  {
    assert (out + [c])[..|out|] == out;
  }

  lemma ShowsKey(s: Screen, col: nat, line: string, c: char)
    requires Displays(s, col, line) && IsPrintable(c)
    ensures Displays(Show(s, c), col, line + [c])
  {
    var s' := Show(s, c);
    forall i | i >= 0
      ensures CellAt(s', i) == if i == s.cursor then c else CellAt(s, i)
    {
    }
    forall i | 0 <= i < |line| + 1
      ensures CellAt(s', col + i) == (line + [c])[i]
    {
    }
  }

  /** Backspace, blank, backspace: the last character disappears. */
  lemma ShowsErase(s: Screen, col: nat, line: string)
    requires Displays(s, col, line) && line != ""
    ensures Displays(Show(Show(Show(s, BS), ' '), BS), col, line[..|line| - 1])
  {
    var s1 := Show(s, BS);
    var s2 := Show(s1, ' ');
    var s3 := Show(s2, BS);
    forall i | i >= 0
      ensures CellAt(s3, i) == if i == s1.cursor then ' ' else CellAt(s, i)
    {
    }
  }

  /** What the editor echoes for a key that does not end the line. */
  function Echo(line: string, c: char): string {
    if !IsErase(c) then [c] else if line == "" then "" else [BS, ' ', BS]
  }

  lemma EchoKeepsStep(s: Screen, out: string, col: nat, line: string, c: char)
    requires Displays(Shown(s, out), col, line) && (IsErase(c) || IsPrintable(c))
    ensures Displays(Shown(s, out + Echo(line, c)), col, Edited(line, c))
  {
    hide Displays, Show;
    if !IsErase(c) {
      ShownSnoc(s, out, c);
      ShowsKey(Shown(s, out), col, line, c);
    } else if line != "" {
      ShownSnoc(s, out, BS);
      ShownSnoc(s, out + [BS], ' ');
      ShownSnoc(s, out + [BS] + [' '], BS);
      assert out + [BS] + [' '] + [BS] == out + Echo(line, c);
      ShowsErase(Shown(s, out), col, line);
    } else {
      assert out + Echo(line, c) == out;
    }
  }

  // ---------------------------------------------------------------------------
  // The editor
  // ---------------------------------------------------------------------------

  /** Keys of an ordinary line: printable characters and erasures. */
  ghost predicate Plain(keys: string) {
    forall i :: 0 <= i < |keys| ==> IsErase(keys[i]) || IsPrintable(keys[i])
  }

  ghost predicate NoEnd(keys: string) {
    forall i :: 0 <= i < |keys| ==> !IsEnd(keys[i])
  }

  /** There was room for another character before each of these keys. */
  ghost predicate HadRoom(keys: string, n: nat, room: int)
    requires n <= |keys|
  {
    forall i :: 0 <= i < n ==> |Typed(keys[..i])| < room
  }

  /** user_gets over the keys typed so far. It returns when the line is ended or full, or
      runs out of keys (the call then still waits in user_getc); `used` keys were consumed,
      `line` is the number of characters in the buffer, `out` is the echo. At any moment the
      buffer is what was typed, and a terminal that showed an empty line from column col on
      shows exactly the buffer, as long as the keys were printable or erasures. */
  method UserGets(buf: array<char>, maxlen: int, keys: string, ghost screen: Screen, ghost col: nat)
    returns (line: nat, used: nat, ended: bool, out: string, ghost body: string, ghost echo: string)
    requires buf.Length >= 1 && buf.Length >= maxlen
    requires Displays(screen, col, "")
    modifies buf
    ensures used <= |keys| && (ended ==> used > 0 && IsEnd(keys[used - 1]))
    ensures (ended ==> keys[used - 1] in {'\r', '\n'}) && '\r' !in body && '\n' !in body
    ensures body == (if ended then keys[..used - 1] else keys[..used]) && NoEnd(body)
    ensures ended || used == |keys| || line >= maxlen - 1
    ensures HadRoom(keys, used, maxlen - 1)
    ensures line < buf.Length && (line <= maxlen - 1 || line == 0)
    ensures buf[..line] == Typed(body) && buf[line] == '\0'
    ensures out == (if ended then echo + "\r\n" else echo)
    ensures Plain(body) ==> Displays(Shown(screen, echo), col, buf[..line])
  {
    hide Displays, Show, Shown, Echo, Typed, Plain, NoEnd, HadRoom;
    var i := 0;
    used, ended, out := 0, false, "";
    StartOfLine(keys, screen, maxlen - 1);
    while i < maxlen - 1 && used < |keys|
      invariant 0 <= i < buf.Length && (i <= maxlen - 1 || i == 0) && used <= |keys| && !ended
      invariant buf[..i] == Typed(keys[..used]) && NoEnd(keys[..used])
      invariant HadRoom(keys, used, maxlen - 1)
      invariant Plain(keys[..used]) ==> Displays(Shown(screen, out), col, buf[..i])
      decreases |keys| - used
    {
      var c := keys[used];
      ghost var was, before := buf[..i], out;
      NextKey(keys, used, maxlen - 1);
      used := used + 1;
      if c == '\r' || c == '\n' {
        echo := out;
        out := out + ['\r'];
        out := out + ['\n'];
        ended := true;
        break;
      }
      if c == DEL || c == BS {
        if i > 0 {
          i := i - 1;
          out := out + [BS];
          out := out + [' '];
          out := out + [BS];
          assert buf[..i] == was[..i];
        }
      } else {
        buf[i] := c;
        i := i + 1;
        out := out + [c];
        assert buf[..i] == was + [c];
      }
      Echoes(before, was, c, out);
      if Plain(keys[..used]) {
        EchoKeepsStep(screen, before, col, was, c);
      }
    }
    buf[i] := '\0';
    line := i;
    if ended {
      body := keys[..used - 1];
      assert out == echo + "\r\n";
    } else {
      body, echo := keys[..used], out;
    }
    EndsAreMissing(body);
  }

  lemma EndsAreMissing(keys: string)
    requires NoEnd(keys)
    ensures '\r' !in keys && '\n' !in keys
  {
  }

  lemma StartOfLine(keys: string, s: Screen, room: int)
    ensures Shown(s, "") == s && keys[..0] == "" && Typed("") == "" && NoEnd("") && HadRoom(keys, 0, room)
  {
  }

  lemma NextKey(keys: string, n: nat, room: int)
    requires n < |keys|
    ensures Typed(keys[..n + 1]) == Edited(Typed(keys[..n]), keys[n])
    ensures Plain(keys[..n + 1]) <==> Plain(keys[..n]) && (IsErase(keys[n]) || IsPrintable(keys[n]))
    ensures NoEnd(keys[..n + 1]) <==> NoEnd(keys[..n]) && !IsEnd(keys[n])
    ensures HadRoom(keys, n + 1, room) <==> HadRoom(keys, n, room) && |Typed(keys[..n])| < room
  {
    assert keys[..n + 1] == keys[..n] + [keys[n]];
    assert keys[..n + 1][..n] == keys[..n];
  }

  lemma Echoes(before: string, line: string, c: char, out: string)
    requires out == if IsErase(c) then (if line != "" then before + [BS] + [' '] + [BS] else before) else before + [c]
    ensures out == before + Echo(line, c)
  {
  }
}
