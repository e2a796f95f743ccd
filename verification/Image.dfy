/** Program images: binary to words to hex text (dev/os/bin2hex.py:46-75 and
    tools/rv2coe.py:556-594), and back over the UART (tools/uart_load.py:33-123). */
module Image {
  import opened Wrappers
  import opened Arith
  import opened Words
  import Numerals

  // ---------------------------------------------------------------------------
  // Bytes and words
  // ---------------------------------------------------------------------------

  function Zeros(n: nat): (z: seq<Byte>)
    ensures |z| == n
  {
    seq<Byte>(n, _ => 0)
  }

  /** Zero bytes up to a whole number of words. */
  function Padded(data: seq<Byte>): (p: seq<Byte>)
    ensures |p| % 4 == 0 && |data| <= |p| < |data| + 4 && p[..|data|] == data
    ensures forall k :: |data| <= k < |p| ==> p[k] == 0
  {
    data + Zeros((4 - |data| % 4) % 4)
  }

  function BytesOf(words: seq<Word>): (b: seq<Byte>)
    ensures |b| == 4 * |words|
  {
    if words == [] then [] else BytesOf(words[..|words| - 1]) + Pack(words[|words| - 1])
  }

  lemma BytesOfSnoc(words: seq<Word>, w: Word)
    ensures BytesOf(words + [w]) == BytesOf(words) + Pack(w)
  {
    assert (words + [w])[..|words|] == words;
  }

  lemma {:induction false} BytesOfConcat(a: seq<Word>, b: seq<Word>)
    ensures BytesOf(a + b) == BytesOf(a) + BytesOf(b)
  {
    if b == [] {
      assert a + b == a;
    } else {
      var n := |b| - 1;
      assert (a + b)[..|a + b| - 1] == a + b[..n];
      BytesOfConcat(a, b[..n]);
    }
  }

  /** The word loop of bin_to_words and of bin2hex. */
  method PackWords(data: seq<Byte>) returns (words: seq<Word>)
    ensures BytesOf(words) == Padded(data)
  {
    var padded := Padded(data);
    words := [];
    var idx := 0;
    while idx < |padded|
      invariant idx <= |padded| && idx % 4 == 0 && BytesOf(words) == padded[..idx]
    {
      hide BytesOf, Pack, Unpack;
      var word := Unpack(padded[idx..idx + 4]);
      PackUnpack(padded[idx..idx + 4]);
      BytesOfSnoc(words, word);
      assert padded[..idx + 4] == padded[..idx] + padded[idx..idx + 4];
      words := words + [word];
      idx := idx + 4;
    }
    assert padded[..|padded|] == padded;
  }

  /** bin_to_words: empty data is an error unless the caller allows it. */
  method BinToWords(data: seq<Byte>, allowEmpty: bool) returns (r: Option<seq<Word>>)
    ensures r.None? <==> data == [] && !allowEmpty
    ensures r.Some? ==> BytesOf(r.value) == Padded(data)
  {
    if data == [] {
      return if allowEmpty then Some([]) else None;
    }
    var words := PackWords(data);
    r := Some(words);
  }

  const NOP: Word := 0x0000_0013

  /** apply_depth: fill up with NOP words; None is the error for a program too long. */
  function ApplyDepth(words: seq<Word>, depth: int): (r: Option<seq<Word>>)
    ensures r.None? <==> 0 < depth < |words|
    ensures r.Some? ==> words <= r.value && (forall k :: |words| <= k < |r.value| ==> r.value[k] == NOP)
    ensures r.Some? ==> |r.value| == if depth <= 0 then |words| else depth
  {
    if depth <= 0 then Some(words)
    else if |words| > depth then None
    else Some(words + seq(depth - |words|, _ => NOP))
  }

  // ---------------------------------------------------------------------------
  // Hex text
  // ---------------------------------------------------------------------------

  const DIGITS := "0123456789abcdef"

  function LowDigit(d: nat): char
    requires d < 16
  {
    DIGITS[d]
  }

  /** The low n hexadecimal digits of v, as f"{v:0nx}" writes them. */
  function HexText(v: nat, n: nat): (s: string)
    ensures |s| == n && forall k :: 0 <= k < n ==> s[k] in DIGITS
    decreases n
  {
    if n == 0 then "" else HexText(v / 16, n - 1) + [LowDigit(v % 16)]
  }

  function DigitValue(c: char): Option<nat> {
    if '0' <= c <= '9' then Some(c as int - '0' as int)
    else if 'a' <= c <= 'f' then Some(c as int - 'a' as int + 10)
    else if 'A' <= c <= 'F' then Some(c as int - 'A' as int + 10)
    else None
  }

  /** Hexadecimal digits, with single underscores between them where the writer likes. */
  function HexDigits(s: string): Option<nat> {
    if s == "" then None
    else
      var n := |s| - 1;
      match DigitValue(s[n])
      case None => None
      case Some(d) =>
        if n == 0 then Some(d)
        else
          match HexDigits(if s[n - 1] == '_' then s[..n - 1] else s[..n])
          case None => None
          case Some(hi) => Some(hi * 16 + d)
  }

  function Unprefixed(s: string): string {
    if |s| >= 2 && s[0] == '0' && (s[1] == 'x' || s[1] == 'X') then
      if |s| >= 3 && s[2] == '_' then s[3..] else s[2..]
    else s
  }

  /** int(s, 16): sign, prefix, digits; None is ValueError. */
  function ParseHexNumber(s: string): Option<int> {
    if s != "" && (s[0] == '+' || s[0] == '-') then
      match HexDigits(Unprefixed(s[1..]))
      case None => None
      case Some(v) =>
        var n: int := v;
        Some(if s[0] == '-' then -n else n)
    else HexDigits(Unprefixed(s))
  }

  lemma ParseOne(c: char)
    ensures HexDigits([c]) == DigitValue(c)
  {
  }

  lemma ParseSnoc(s: string, c: char)
    requires s != "" && s[|s| - 1] != '_'
    ensures HexDigits(s + [c]) ==
            match (HexDigits(s), DigitValue(c)) case (Some(hi), Some(d)) => Some(hi * 16 + d) case _ => None
  {
    hide DigitValue;
    var t := s + [c];
    assert |t| - 1 == |s| && t[..|s|] == s && t[|s|] == c && t[|s| - 1] == s[|s| - 1];
  }

  lemma {:induction false} HexReadsBack(v: nat, n: nat)
    requires n > 0 && v < Numerals.Pow(16, n)
    ensures HexDigits(HexText(v, n)) == Some(v)
    decreases n
  {
    hide HexDigits, DigitValue, LowDigit;
    DigitsReadBack(v % 16);
    if n == 1 {
      assert HexText(v, 1) == [LowDigit(v % 16)];
      ParseOne(LowDigit(v % 16));
    } else {
      HexReadsBack(v / 16, n - 1);
      assert HexText(v / 16, n - 1)[n - 2] in DIGITS;
      ParseSnoc(HexText(v / 16, n - 1), LowDigit(v % 16));
    }
  }

  lemma DigitsReadBack(d: nat)
    requires d < 16
    ensures DigitValue(LowDigit(d)) == Some(d)
  {
  }

  function HexLine(w: Word): (s: string)
    ensures |s| == 8 && forall k :: 0 <= k < 8 ==> s[k] in DIGITS
  {
    HexText(w, 8)
  }

  lemma LineReadsBack(w: Word)
    ensures ParseHexNumber(HexLine(w)) == Some(w)
  {
    assert Numerals.Pow(16, 8) == 0x1_0000_0000 by {
      assert Numerals.Pow(16, 4) == 0x1_0000;
    }
    HexReadsBack(w, 8);
    DigitsArePlain();
    assert HexLine(w)[0] in DIGITS && HexLine(w)[1] in DIGITS;
  }

  /** write_hex: the lines joined by newlines, and one more at the end. */
  function HexFile(words: seq<Word>): string {
    JoinLines(words) + "\n"
  }

  function JoinLines(words: seq<Word>): string {
    if words == [] then ""
    else if |words| == 1 then HexLine(words[0])
    else HexLine(words[0]) + "\n" + JoinLines(words[1..])
  }

  /** The lines of a file opened as text, each without its end: a newline, a carriage return,
      or both. */
  function Lines(text: string): seq<string> {
    if text == "" then [] else
      var n := LineLength(text);
      [text[..n]] + if n < |text| then Lines(text[n + EndLength(text[n..])..]) else []
  }

  function LineLength(text: string): (n: nat)
    ensures n <= |text| && (n < |text| ==> text[n] == '\n' || text[n] == '\r')
  {
    if text == "" || text[0] == '\n' || text[0] == '\r' then 0 else 1 + LineLength(text[1..])
  }

  function EndLength(s: string): (n: nat)
    requires s != ""
    ensures 1 <= n <= |s|
  {
    if |s| >= 2 && s[0] == '\r' && s[1] == '\n' then 2 else 1
  }

  /** str.isspace() below 0x100. */
  predicate IsSpace(c: char) {
    c == ' ' || '\t' <= c <= '\r' || 0x1C as char <= c <= 0x1F as char || c == 0x85 as char || c == 0xA0 as char
  }

  /** str.strip(). */
  function Strip(s: string): string {
    if s == "" then ""
    else if IsSpace(s[0]) then Strip(s[1..])
    else if IsSpace(s[|s| - 1]) then Strip(s[..|s| - 1])
    else s
  }

  /** Blank lines and comment lines carry no word. */
  predicate Skips(line: string) {
    line == "" || (|line| >= 2 && line[..2] == "//") || line[0] == '#'
  }

  /** The numbers on a list of lines: None where int() would raise. */
  function Numbers(lines: seq<string>): Option<seq<int>> {
    if lines == [] then Some([])
    else
      match Numbers(lines[..|lines| - 1])
      case None => None
      case Some(ns) => Appended(ns, Strip(lines[|lines| - 1]))
  }

  function Appended(ns: seq<int>, line: string): Option<seq<int>> {
    if Skips(line) then Some(ns)
    else
      match ParseHexNumber(line)
      case None => None
      case Some(v) => Some(ns + [v])
  }

  lemma NumbersSnoc(lines: seq<string>, i: nat)
    requires i < |lines|
    ensures Numbers(lines[..i + 1]) == match Numbers(lines[..i]) case None => None case Some(ns) => Appended(ns, Strip(lines[i]))
  {
    assert lines[..i + 1][..i] == lines[..i];
  }

  lemma {:induction false} NoneStays(lines: seq<string>, i: nat)
    requires i <= |lines| && Numbers(lines[..i]) == None
    ensures Numbers(lines) == None
    decreases |lines| - i
  {
    if i < |lines| {
      NumbersSnoc(lines, i);
      NoneStays(lines, i + 1);
    } else {
      assert lines[..i] == lines;
    }
  }

  ghost predicate AllWords(ns: seq<int>) {
    forall i :: 0 <= i < |ns| ==> 0 <= ns[i] < 0x1_0000_0000
  }

  ghost function AsWords(ns: seq<int>): (ws: seq<Word>)
    requires AllWords(ns)
    ensures |ws| == |ns| && forall i :: 0 <= i < |ns| ==> ws[i] == ns[i]
  {
    if ns == [] then [] else AsWords(ns[..|ns| - 1]) + [ns[|ns| - 1]]
  }

  /** What a hex file stands for: None where int() or struct.pack would raise. */
  ghost function Parsed(text: string): Option<seq<Byte>> {
    match Numbers(Lines(text))
    case None => None
    case Some(ns) => if AllWords(ns) then Some(BytesOf(AsWords(ns))) else None
  }

  /** parse_hex. */
  method ParseHex(text: string) returns (r: Option<seq<Byte>>)
    ensures r == Parsed(text)
  {
    hide Lines, Numbers, BytesOf, ParseHexNumber, Strip, Skips;
    var lines := Lines(text);
    var words: seq<int> := [];
    NoNumbers();
    assert lines[..0] == [];
    for i := 0 to |lines|
      invariant Numbers(lines[..i]) == Some(words)
    {
      NumbersSnoc(lines, i);
      var line := Strip(lines[i]);
      if !Skips(line) {
        var v := ParseHexNumber(line);
        if v == None {
          NoneStays(lines, i + 1);
          return None;
        }
        words := words + [v.value];
      }
    }
    assert lines[..|lines|] == lines;
    var data: seq<Byte> := [];
    ghost var packed: seq<Word> := [];
    for i := 0 to |words|
      invariant |packed| == i && (forall k :: 0 <= k < i ==> packed[k] == words[k]) && data == BytesOf(packed)
    {
      if words[i] < 0 || words[i] >= 0x1_0000_0000 {
        return None;
      }
      BytesOfSnoc(packed, words[i]);
      data := data + Pack(words[i]);
      packed := packed + [words[i]];
    }
    assert packed == AsWords(words);
    r := Some(data);
  }

  lemma NoNumbers()
    ensures Numbers([]) == Some([]) && BytesOf([]) == []
  {
  }

  // ---------------------------------------------------------------------------
  // Writing and reading back
  // ---------------------------------------------------------------------------

  lemma {:induction false} FirstLine(line: string, rest: string)
    requires '\n' !in line && '\r' !in line
    ensures LineLength(line + "\n" + rest) == |line|
    ensures Lines(line + "\n" + rest) == [line] + Lines(rest)
  {
    LineLengthIs(line, rest);
    var t := line + "\n" + rest;
    assert t[..|line|] == line && t[|line| + 1..] == rest && t[|line|..][0] == '\n';
  }

  lemma {:induction false} LineLengthIs(line: string, rest: string)
    requires '\n' !in line && '\r' !in line
    ensures LineLength(line + "\n" + rest) == |line|
  {
    var t := line + "\n" + rest;
    if line == "" {
      assert t[0] == '\n';
    } else {
      assert t[0] == line[0] && t[1..] == line[1..] + "\n" + rest;
      LineLengthIs(line[1..], rest);
    }
  }

  function HexLines(words: seq<Word>): (r: seq<string>)
    ensures |r| == |words|
  {
    seq(|words|, i requires 0 <= i < |words| => HexLine(words[i]))
  }

  lemma HexLineIsPlain(w: Word)
    ensures '\n' !in HexLine(w) && '\r' !in HexLine(w) && Strip(HexLine(w)) == HexLine(w) && !Skips(HexLine(w))
  {
    var s := HexLine(w);
    DigitsArePlain();
    assert s[0] in DIGITS && s[7] in DIGITS;
    assert s[..2][0] == s[0];
  }

  lemma DigitsArePlain()
    ensures forall c :: c in DIGITS ==> !IsSpace(c) && c !in {'\n', '\r', '/', '#', '+', '-', 'x', 'X', '_'}
  {
  }

  lemma {:induction false} LinesOfFile(words: seq<Word>)
    requires words != []
    ensures Lines(HexFile(words)) == HexLines(words)
  {
    hide HexLine, Lines;
    HexLineIsPlain(words[0]);
    NoLines();
    if |words| == 1 {
      assert HexFile(words) == HexLine(words[0]) + "\n" + "";
      FirstLine(HexLine(words[0]), "");
    } else {
      assert HexFile(words) == HexLine(words[0]) + "\n" + HexFile(words[1..]);
      FirstLine(HexLine(words[0]), HexFile(words[1..]));
      LinesOfFile(words[1..]);
      assert HexLines(words) == [HexLine(words[0])] + HexLines(words[1..]);
    }
  }

  lemma NoLines()
    ensures Lines("") == []
  {
  }

  function ToInts(words: seq<Word>): (ns: seq<int>)
    ensures |ns| == |words| && forall i :: 0 <= i < |words| ==> ns[i] == words[i]
  {
    if words == [] then [] else ToInts(words[..|words| - 1]) + [words[|words| - 1]]
  }

  lemma {:induction false} NumbersOfHexLines(words: seq<Word>)
    ensures Numbers(HexLines(words)) == Some(ToInts(words))
  {
    hide HexLine, Strip, Skips, ParseHexNumber;
    var n := |words|;
    if words != [] {
      NumbersOfHexLines(words[..n - 1]);
      assert HexLines(words)[..n - 1] == HexLines(words[..n - 1]);
      HexLineIsPlain(words[n - 1]);
      LineReadsBack(words[n - 1]);
    } else {
      assert HexLines(words) == [];
    }
  }

  /** Reading a written hex file gives back the words' bytes; an empty list too. */
  lemma HexFileReadsBack(words: seq<Word>)
    ensures Parsed(HexFile(words)) == Some(BytesOf(words))
  {
    hide BytesOf, Lines, Numbers, HexFile, HexLines, AsWords;
    if words == [] {
      EmptyFile();
    } else {
      LinesOfFile(words);
      NumbersOfHexLines(words);
      assert AsWords(ToInts(words)) == words;
    }
  }

  lemma EmptyFile()
    ensures Parsed(HexFile([])) == Some(BytesOf([]))
  {
    hide Lines;
    assert HexFile([]) == "" + "\n" + "";
    FirstLine("", "");
    NoLines();
    assert [""] + [] == [""] && [""][..0] == [];
  }

  /** Whole pipeline: a binary written as hex and read back is the binary, padded with zeros
      to a word, and with NOP words when a depth was asked for. */
  lemma ImageReadsBack(data: seq<Byte>, words: seq<Word>, depth: int)
    requires BytesOf(words) == Padded(data)
    ensures match ApplyDepth(words, depth)
            case None => 0 < depth < |words|
            case Some(ws) =>
              Parsed(HexFile(ws)) == Some(Padded(data) + BytesOf(ws[|words|..]))
              && forall k :: |words| <= k < |ws| ==> ws[k] == NOP
  {
    hide BytesOf, Parsed, HexFile;
    var r := ApplyDepth(words, depth);
    if r.Some? {
      HexFileReadsBack(r.value);
      assert r.value == words + r.value[|words|..];
      BytesOfConcat(words, r.value[|words|..]);
    }
  }

  // ---------------------------------------------------------------------------
  // Lines without numbers, and other spellings of a number
  // ---------------------------------------------------------------------------

  lemma {:induction false} StripKeeps(s: string, n: nat)
    requires 0 < n <= |s| && forall k :: 0 <= k < n ==> !IsSpace(s[k])
    ensures |Strip(s)| >= n && Strip(s)[..n] == s[..n]
  {
    hide IsSpace;
    if IsSpace(s[|s| - 1]) {
      StripKeeps(s[..|s| - 1], n);
    }
  }

  lemma {:induction false} StripBlank(s: string)
    requires forall k :: 0 <= k < |s| ==> IsSpace(s[k])
    ensures Strip(s) == ""
  {
    if s != "" {
      StripBlank(s[1..]);
    }
  }

  lemma {:induction false} SkippedFirst(line: string, lines: seq<string>)
    requires Skips(Strip(line))
    ensures Numbers([line] + lines) == Numbers(lines)
  {
    hide Strip, Skips, Appended;
    if lines == [] {
      assert [line] + [] == [line] && [line][..0] == [];
      AppendsNothing(line);
    } else {
      var n := |lines| - 1;
      assert ([line] + lines)[..n + 1] == [line] + lines[..n];
      SkippedFirst(line, lines[..n]);
    }
  }

  lemma AppendsNothing(line: string)
    requires Skips(Strip(line))
    ensures Appended([], Strip(line)) == Some([])
  {
  }

  /** A line of blanks, one that starts with # and one that starts with // count for nothing. */
  lemma CommentsDoNotCount(blank: string, c: string, rest: string)
    requires forall k :: 0 <= k < |blank| ==> blank[k] == ' ' || blank[k] == '\t'
    requires '\n' !in c && '\r' !in c
    ensures Parsed(blank + "\n" + rest) == Parsed("#" + c + "\n" + rest) == Parsed("//" + c + "\n" + rest) == Parsed(rest)
  {
    hide Numbers, Lines, Strip;
    forall line | line in {blank, "#" + c, "//" + c}
      ensures Parsed(line + "\n" + rest) == Parsed(rest)
    {
      assert Skips(Strip(line)) by {
        if line == blank {
          StripBlank(line);
        } else if line == "#" + c {
          StripKeeps(line, 1);
          assert Strip(line)[0] == Strip(line)[..1][0];
        } else {
          StripKeeps(line, 2);
        }
      }
      FirstLine(line, rest);
      SkippedFirst(line, Lines(rest));
    }
  }

  /** Characters that are neither blank nor sign nor prefix. */
  predicate PlainText(t: string) {
    t != "" && forall k :: 0 <= k < |t| ==> !IsSpace(t[k]) && t[k] !in {'+', '-', 'x', 'X'}
  }

  lemma PrefixAndSign(t: string, v: nat)
    requires PlainText(t) && HexDigits(t) == Some(v)
    ensures ParseHexNumber(t) == Some(v) && ParseHexNumber("+" + t) == Some(v) && ParseHexNumber("-" + t) == Some(0 - v as int)
    ensures ParseHexNumber("0x" + t) == Some(v) && ParseHexNumber("0X" + t) == Some(v)
  {
    hide HexDigits, IsSpace;
    assert Unprefixed(t) == t;
    assert ("+" + t)[1..] == t && ("-" + t)[1..] == t;
    NoUnderscore(t, v);
    assert ("0x" + t)[2..] == t && ("0X" + t)[2..] == t && ("0x" + t)[2] == t[0] && ("0X" + t)[2] == t[0];
  }

  lemma {:induction false} NoUnderscore(t: string, v: nat)
    requires t != "" && HexDigits(t) == Some(v)
    ensures t[0] != '_'
    decreases |t|
  {
    var n := |t| - 1;
    if n > 0 {
      var u := if t[n - 1] == '_' then t[..n - 1] else t[..n];
      assert HexDigits(u).Some? && u != "";
      NoUnderscore(u, HexDigits(u).value);
    }
  }

  lemma BlanksAround(t: string, b: char)
    requires PlainText(t) && (b == ' ' || b == '\t')
    ensures Strip([b] + t + [b]) == t
  {
    var n := |t|;
    assert ([b] + t + [b])[1..] == t + [b] && (t + [b])[..n] == t && (t + [b])[0] == t[0];
    assert Strip(t) == t;
    assert Strip(t + [b]) == t;
  }

  /** A number may carry a prefix, a sign and blanks around it. */
  lemma NumberForms(v: nat, n: nat)
    requires n > 0 && v < Numerals.Pow(16, n)
    ensures var t := HexText(v, n);
            && ParseHexNumber(t) == Some(v) && ParseHexNumber("+" + t) == Some(v) && ParseHexNumber("-" + t) == Some(0 - v as int)
            && ParseHexNumber("0x" + t) == Some(v) && ParseHexNumber("0X" + t) == Some(v)
            && Strip(" " + t + " ") == t && Strip("\t" + t + "\t") == t
  {
    hide HexDigits, ParseHexNumber, Strip, Numerals.Pow;
    var t := HexText(v, n);
    HexReadsBack(v, n);
    DigitsArePlain();
    assert forall k :: 0 <= k < n ==> t[k] in DIGITS;
    hide HexText, DIGITS;
    PrefixAndSign(t, v);
    BlanksAround(t, ' ');
    BlanksAround(t, '\t');
  }

  // ---------------------------------------------------------------------------
  // uart_load
  // ---------------------------------------------------------------------------

  const MAGIC: Word := 0x5249_5343
  const CHUNK := 256

  function Header(length: Word, loadAddr: Word, entryAddr: Word): (h: seq<Byte>)
    ensures |h| == 16
  {
    Pack(MAGIC) + Pack(length) + Pack(loadAddr) + Pack(entryAddr)
  }

  /** load_program: the header, then the padded program in chunks. */
  method LoadProgram(file: seq<Byte>, loadAddr: Word, entryAddr: Word) returns (wire: seq<Byte>, chunks: nat)
    requires |Padded(file)| < 0x1_0000_0000
    ensures wire == Header(|Padded(file)|, loadAddr, entryAddr) + Padded(file)
    ensures chunks * CHUNK >= |Padded(file)| && (chunks > 0 ==> (chunks - 1) * CHUNK < |Padded(file)|)
  {
    var program := file;
    var length := |program|;
    if length % 4 != 0 {
      program := program + Zeros(4 - length % 4);
      length := |program|;
    } else {
      assert program + Zeros(0) == program;
    }
    assert program == Padded(file);
    hide Padded, Header;
    wire := Header(length, loadAddr, entryAddr);
    chunks := 0;
    var sent := 0;
    while sent < length
      invariant sent <= length && wire == Header(length, loadAddr, entryAddr) + program[..sent]
      invariant sent < length ==> sent == chunks * CHUNK
      invariant sent == length ==> chunks * CHUNK >= length && (chunks > 0 ==> (chunks - 1) * CHUNK < length)
    {
      var chunk := program[sent..if sent + CHUNK < length then sent + CHUNK else length];
      NextChunk(Header(length, loadAddr, entryAddr), program, sent, chunk);
      wire := wire + chunk;
      sent := sent + |chunk|;
      chunks := chunks + 1;
    }
    assert program[..length] == program;
  }

  lemma NextChunk(header: seq<Byte>, program: seq<Byte>, sent: nat, chunk: seq<Byte>)
    requires sent + |chunk| <= |program| && chunk == program[sent..sent + |chunk|]
    ensures header + program[..sent] + chunk == header + program[..sent + |chunk|]
  {
  }

  /** A receiver that unpacks the header reads back the magic, the length of what follows,
      and both addresses. */
  lemma HeaderReadsBack(length: Word, loadAddr: Word, entryAddr: Word)
    ensures var h := Header(length, loadAddr, entryAddr);
            && Unpack(h[0..4]) == MAGIC && Unpack(h[4..8]) == length
            && Unpack(h[8..12]) == loadAddr && Unpack(h[12..16]) == entryAddr
  {
    hide Unpack, Pack;
    var h := Header(length, loadAddr, entryAddr);
    assert h[0..4] == Pack(MAGIC) && h[4..8] == Pack(length) && h[8..12] == Pack(loadAddr) && h[12..16] == Pack(entryAddr);
    UnpackPack(MAGIC);
    UnpackPack(length);
    UnpackPack(loadAddr);
    UnpackPack(entryAddr);
  }

  // ---------------------------------------------------------------------------
  // bin2hex: padding and the boot jump
  // ---------------------------------------------------------------------------

  /** lui t0, ADDR >> 12 */
  function LuiT0(addr: nat): Word {
    ((addr / 0x1000) % 0x10_0000) * 0x1000 + 5 * 0x80 + 0x37
  }

  /** jr t0, that is jalr x0, t0, 0 */
  const JR_T0: Word := 5 * 0x8000 + 0x67

  /** The words bin2hex writes; None when a boot jump has no room. */
  function BootImage(words: seq<Word>, padStart: nat, bootJump: Option<nat>): (r: Option<seq<Word>>)
    ensures r.None? <==> bootJump.Some? && padStart < 2
    ensures r.Some? ==> |r.value| == padStart + |words| && r.value[padStart..] == words
    ensures r.Some? ==> forall k :: (if bootJump.Some? then 2 else 0) <= k < padStart ==> r.value[k] == 0
  {
    var pad := seq<Word>(padStart, _ => 0);
    match bootJump
    case None => Some(pad + words)
    case Some(a) => if padStart < 2 then None else Some(pad[0 := LuiT0(a)][1 := JR_T0] + words)
  }

  /** main: pad the data, pack it, put the padding and the jump in front. */
  method Bin2Hex(data: seq<Byte>, padStart: nat, bootJump: Option<nat>) returns (r: Option<string>)
    ensures bootJump.Some? && padStart < 2 ==> r == None
    ensures !(bootJump.Some? && padStart < 2) ==>
              exists words :: BytesOf(words) == Padded(data) && r == Some(HexFile(BootImage(words, padStart, bootJump).value))
  {
    hide BytesOf, HexFile, Padded;
    var words := PackWords(data);
    var padWords := seq<Word>(padStart, _ => 0);
    if bootJump.Some? {
      if padStart < 2 {
        return None;
      }
      padWords := padWords[0 := LuiT0(bootJump.value)];
      padWords := padWords[1 := JR_T0];
    }
    r := Some(HexFile(padWords + words));
    assert BootImage(words, padStart, bootJump) == Some(padWords + words);
  }

  /** A hart: program counter and registers, x0 reading as zero. */
  datatype Hart = Hart(pc: nat, x: map<nat, nat>)

  function Reg(h: Hart, r: nat): nat {
    if r == 0 || r !in h.x then 0 else h.x[r]
  }

  function SetReg(h: Hart, r: nat, v: nat): Hart {
    if r == 0 then h else h.(x := h.x[r := v])
  }

  /** The word of an image loaded at `base` that an address names. */
  function Fetch(image: seq<Word>, base: nat, pc: nat): Option<Word> {
    if base <= pc && (pc - base) % 4 == 0 && (pc - base) / 4 < |image| then Some(image[(pc - base) / 4]) else None
  }

  /** One instruction: LUI (section 2.4) and JALR (section 2.5) of the RISC-V Unprivileged
      ISA v20191213, RV32; None for anything else. */
  function Step(h: Hart, w: Word): Option<Hart> {
    var rd, rs1 := (w / 0x80) % 0x20, (w / 0x8000) % 0x20;
    var next := (h.pc + 4) % 0x1_0000_0000;
    if w % 0x80 == 0x37 then Some(SetReg(h, rd, (w / 0x1000) * 0x1000).(pc := next))
    else if w % 0x80 == 0x67 && (w / 0x1000) % 8 == 0 then
      Some(SetReg(h, rd, next).(pc := Target(Reg(h, rs1), w / 0x10_0000)))
    else None
  }

  function Execute(image: seq<Word>, base: nat, h: Hart): Option<Hart> {
    match Fetch(image, base, h.pc)
    case None => None
    case Some(w) => Step(h, w)
  }

  /** Base plus a 12-bit signed offset, with the lowest bit cleared. */
  function Target(x: nat, imm: nat): nat {
    var offset := if imm < 0x800 then imm else imm - 0x1000;
    var target := (x + offset) % 0x1_0000_0000;
    target - target % 2
  }

  lemma LuiDecodes(a: nat)
    ensures LuiT0(a) % 0x80 == 0x37 && (LuiT0(a) / 0x80) % 0x20 == 5
    ensures LuiT0(a) / 0x1000 == (a / 0x1000) % 0x10_0000
  {
    var k := (a / 0x1000) % 0x10_0000;
    assert LuiT0(a) == (k * 0x20 + 5) * 0x80 + 0x37;
  }

  /** The LUI puts the upper 20 bits of the target into t0 (x5). */
  lemma LuiSteps(a: nat, h: Hart)
    requires h.pc + 4 < 0x1_0000_0000
    ensures Step(h, LuiT0(a)) == Some(Hart(h.pc + 4, h.x[5 := ((a / 0x1000) % 0x10_0000) * 0x1000]))
  {
    LuiDecodes(a);
    hide LuiT0, Target;
  }

  /** The JALR goes where t0 points. */
  lemma JrSteps(t: nat, h: Hart)
    requires 5 in h.x && h.x[5] == t * 0x1000 && t < 0x10_0000
    ensures Step(h, JR_T0) == Some(h.(pc := t * 0x1000))
  {
    JrDecodes();
    NoOffset(t);
    hide JR_T0, Target;
  }

  lemma NoOffset(t: nat)
    requires t < 0x10_0000
    ensures Target(t * 0x1000, 0) == t * 0x1000
  {
    QuotientIs(t * 0x1000, 0x1_0000_0000, 0, t * 0x1000);
    QuotientIs(t * 0x1000, 2, t * 0x800, 0);
  }

  lemma JrDecodes()
    ensures JR_T0 % 0x80 == 0x67 && (JR_T0 / 0x80) % 0x20 == 0 && (JR_T0 / 0x1000) % 8 == 0
    ensures (JR_T0 / 0x8000) % 0x20 == 5 && JR_T0 / 0x10_0000 == 0
  {
  }

  /** From the base, the image of a boot jump to A takes two steps to A rounded down to 4 KiB
      and to 32 bits, whatever the registers hold: to A itself exactly when A is a 32-bit
      multiple of 4096. */
  lemma BootJumpArrives(words: seq<Word>, padStart: nat, base: Word, a: nat, h: Hart)
    requires padStart >= 2 && base + 4 < 0x1_0000_0000 && h.pc == base
    ensures var image := BootImage(words, padStart, Some(a)).value;
            && Execute(image, base, h).Some?
            && Execute(image, base, Execute(image, base, h).value).Some?
            && var arrived := Execute(image, base, Execute(image, base, h).value).value.pc;
               arrived == ((a / 0x1000) % 0x10_0000) * 0x1000 && (arrived == a <==> a % 0x1000 == 0 && a < 0x1_0000_0000)
  {
    var image := BootImage(words, padStart, Some(a)).value;
    assert Fetch(image, base, base) == Some(LuiT0(a)) && Fetch(image, base, base + 4) == Some(JR_T0);
    hide BootImage, LuiT0, JR_T0, Fetch, Step;
    LuiSteps(a, h);
    JrSteps((a / 0x1000) % 0x10_0000, Execute(image, base, h).value);
  }

  /** With pad_start = (A - base) / 4 the program's words lie in order from A on. */
  lemma ProgramLiesAtTarget(words: seq<Word>, base: Word, a: nat, k: nat)
    requires a >= base + 8 && (a - base) % 4 == 0 && k < |words|
    ensures var padStart := (a - base) / 4;
            Fetch(BootImage(words, padStart, Some(a)).value, base, a + 4 * k) == Some(words[k])
  {
    var padStart := (a - base) / 4;
    var image := BootImage(words, padStart, Some(a)).value;
    assert image[padStart..][k] == image[padStart + k];
    assert (a + 4 * k - base) / 4 == padStart + k;
  }
}
