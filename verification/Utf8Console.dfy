/** The buffering loop of serial_read_thread, tools/uart_console.py:149-182: bytes arrive in
    arbitrary pieces; what is written out never cuts a UTF-8 character in two. */
module Utf8Console {

  import opened Words

  // ---------------------------------------------------------------------------
  // UTF-8 as section 4 of RFC 3629 defines it
  // ---------------------------------------------------------------------------

  predicate IsTail(b: Byte) {
    0x80 <= b < 0xC0
  }

  /** One well-formed character. */
  predicate IsChar(c: seq<Byte>) {
    || (|c| == 1 && c[0] < 0x80)
    || (|c| == 2 && 0xC2 <= c[0] <= 0xDF && IsTail(c[1]))
    || (|c| == 3 && 0xE0 <= c[0] <= 0xEF && IsTail(c[1]) && IsTail(c[2])
        && (c[0] == 0xE0 ==> c[1] >= 0xA0) && (c[0] == 0xED ==> c[1] < 0xA0))
    || (|c| == 4 && 0xF0 <= c[0] <= 0xF4 && IsTail(c[1]) && IsTail(c[2]) && IsTail(c[3])
        && (c[0] == 0xF0 ==> c[1] >= 0x90) && (c[0] == 0xF4 ==> c[1] < 0x90))
  }

  /** The length a first byte announces, as the code computes it. */
  function Announced(b: Byte): (n: nat)
    ensures 1 <= n <= 4
  {
    if b < 0x80 then 1 else if b < 0xE0 then 2 else if b < 0xF0 then 3 else 4
  }

  lemma CharLength(c: seq<Byte>)
    requires IsChar(c)
    ensures |c| == Announced(c[0]) && !IsTail(c[0])
    ensures forall k :: 1 <= k < |c| ==> IsTail(c[k])
  {
  }

  /** A sequence of whole characters. */
  predicate IsText(s: seq<Byte>) {
    s == [] || (Announced(s[0]) <= |s| && IsChar(s[..Announced(s[0])]) && IsText(s[Announced(s[0])..]))
  }

  /** Some bytes of a character, but not all. */
  ghost predicate IsPart(p: seq<Byte>) {
    p != [] && exists rest :: rest != [] && IsChar(p + rest)
  }

  ghost predicate IsTextSoFar(s: seq<Byte>) {
    exists rest :: IsText(s + rest)
  }

  lemma {:induction false} TextAppend(a: seq<Byte>, b: seq<Byte>)
    requires IsText(a)
    ensures IsText(a + b) <==> IsText(b)
  {
    if a == [] {
      assert a + b == b;
    } else {
      var n := Announced(a[0]);
      assert (a + b)[..n] == a[..n] && (a + b)[n..] == a[n..] + b;
      TextAppend(a[n..], b);
    }
  }

  /** Bytes that can still become text are whole characters and perhaps a part of one. */
  lemma {:induction false} Decompose(s: seq<Byte>, rest: seq<Byte>) returns (k: nat)
    requires IsText(s + rest)
    ensures k <= |s| && IsText(s[..k]) && (k == |s| || IsPart(s[k..]))
    decreases |s|
  {
    if s == [] {
      return 0;
    }
    var t := s + rest;
    var n := Announced(s[0]);
    if n <= |s| {
      assert t[..n] == s[..n] && t[n..] == s[n..] + rest;
      var j := Decompose(s[n..], rest);
      k := n + j;
      assert s[..k][..n] == s[..n] && s[..k][n..] == s[n..][..j];
      assert s[k..] == s[n..][j..];
    } else {
      k := 0;
      assert s[0..] == s && t[..n] == s + rest[..n - |s|];
    }
  }

  /** A non-empty text ends with a character. */
  lemma {:induction false} LastChar(s: seq<Byte>) returns (j: nat)
    requires IsText(s) && s != []
    ensures j < |s| && IsChar(s[j..])
    decreases |s|
  {
    var n := Announced(s[0]);
    if s[n..] == [] {
      j := 0;
      assert s[..n] == s[0..];
    } else {
      var i := LastChar(s[n..]);
      j := n + i;
      assert s[j..] == s[n..][i..];
    }
  }

  // ---------------------------------------------------------------------------
  // Where the buffer is cut
  // ---------------------------------------------------------------------------

  /** The i-th byte from the end. */
  function FromEnd(s: seq<Byte>, i: nat): Byte
    requires 1 <= i <= |s|
  {
    s[|s| - i]
  }

  /** The cut the backward scan from position i (counted from the end) makes. */
  function Cut(buffer: seq<Byte>, i: nat): (k: nat)
    requires 1 <= i
    ensures k <= |buffer| && |buffer| - k <= 3
    decreases |buffer| - i
  {
    if i >= 5 || i > |buffer| then |buffer|
    else
      var b := FromEnd(buffer, i);
      if b < 0x80 then |buffer|
      else if b >= 0xC0 then (if i < Announced(b) then |buffer| - i else |buffer|)
      else Cut(buffer, i + 1)
  }

  lemma {:induction false} CutAtLead(buffer: seq<Byte>, i: nat, n: nat)
    requires 1 <= i <= n <= 4 && n <= |buffer| && !IsTail(FromEnd(buffer, n))
    requires forall j :: i <= j < n ==> IsTail(FromEnd(buffer, j))
    ensures Cut(buffer, i) ==
            if FromEnd(buffer, n) >= 0xC0 && n < Announced(FromEnd(buffer, n)) then |buffer| - n else |buffer|
    decreases n - i
  {
    if i < n {
      assert IsTail(FromEnd(buffer, i));
      CutAtLead(buffer, i + 1, n);
    }
  }

  /** A buffer that ends with the first n bytes of a character is cut before them when more
      of the character is to come, and not at all when it is complete. */
  lemma CutAtChar(buffer: seq<Byte>, c: seq<Byte>, n: nat)
    requires IsChar(c) && 1 <= n <= |c| && n <= |buffer| && buffer[|buffer| - n..] == c[..n]
    ensures Cut(buffer, 1) == if n < |c| then |buffer| - n else |buffer|
  {
    hide IsChar, Cut, IsTail;
    CharLength(c);
    forall i | 1 <= i < n
      ensures IsTail(FromEnd(buffer, i))
    {
      assert FromEnd(buffer, i) == c[..n][n - i];
    }
    assert FromEnd(buffer, n) == c[..n][0];
    LongLead(c);
    CutAtLead(buffer, 1, n);
  }

  lemma LongLead(c: seq<Byte>)
    requires IsChar(c)
    ensures |c| > 1 ==> c[0] >= 0xC0
  {
  }

  /** On bytes that can still become text, the cut falls exactly between the whole
      characters and the part. */
  lemma CutIsClean(buffer: seq<Byte>)
    requires IsTextSoFar(buffer) && buffer != []
    ensures var k := Cut(buffer, 1);
            IsText(buffer[..k]) && (k == |buffer| || IsPart(buffer[k..]))
  {
    hide IsChar, Cut, IsText;
    var rest :| IsText(buffer + rest);
    var k := Decompose(buffer, rest);
    if k == |buffer| {
      assert buffer[..k] == buffer;
      var j := LastChar(buffer);
      CharLength(buffer[j..]);
      var c := buffer[j..];
      assert buffer[|buffer| - |c|..] == c[..|c|];
      CutAtChar(buffer, c, |c|);
    } else {
      var p := buffer[k..];
      var more :| more != [] && IsChar(p + more);
      assert buffer[|buffer| - |p|..] == (p + more)[..|p|];
      CutAtChar(buffer, p + more, |p|);
    }
  }

  // ---------------------------------------------------------------------------
  // The loop
  // ---------------------------------------------------------------------------

  function Joined(pieces: seq<seq<Byte>>): seq<Byte> {
    if pieces == [] then [] else Joined(pieces[..|pieces| - 1]) + pieces[|pieces| - 1]
  }

  /** The scan over the end of the buffer. */
  method SplitIndex(buffer: seq<Byte>) returns (splitIdx: nat)
    ensures splitIdx == Cut(buffer, 1)
  {
    splitIdx := |buffer|;
    var i := 1;
    while i < (if 5 < |buffer| + 1 then 5 else |buffer| + 1)
      invariant 1 <= i && splitIdx == |buffer| && Cut(buffer, i) == Cut(buffer, 1)
      decreases |buffer| + 1 - i
    {
      var b := buffer[|buffer| - i];
      if b < 0x80 {
        break;
      } else if b >= 0xC0 {
        var expectedLen := if b < 0xE0 then 2 else if b < 0xF0 then 3 else 4;
        if i < expectedLen {
          splitIdx := |buffer| - i;
        }
        break;
      }
      i := i + 1;
    }
  }

  lemma JoinedSnoc(pieces: seq<seq<Byte>>, p: seq<Byte>)
    ensures Joined(pieces + [p]) == Joined(pieces) + p
  {
    assert (pieces + [p])[..|pieces|] == pieces;
  }

  lemma {:induction false} JoinedText(pieces: seq<seq<Byte>>)
    requires forall i :: 0 <= i < |pieces| ==> IsText(pieces[i])
    ensures IsText(Joined(pieces))
  {
    if pieces != [] {
      var n := |pieces| - 1;
      JoinedText(pieces[..n]);
      TextAppend(Joined(pieces[..n]), pieces[n]);
    }
  }

  /** What the loop keeps: every write is whole characters, and the buffer is part of one. */
  ghost predicate Clean(written: seq<seq<Byte>>, buffer: seq<Byte>) {
    (forall i :: 0 <= i < |written| ==> IsText(written[i])) && (buffer == [] || IsPart(buffer))
  }

  /** serial_read_thread, on the pieces the port delivers. Nothing is lost or reordered, at
      most three bytes are held back, and on a stream that can still become UTF-8 text every
      write is whole characters and what is held back is part of one. */
  method SerialRead(received: seq<seq<Byte>>) returns (written: seq<seq<Byte>>, buffer: seq<Byte>)
    ensures Joined(written) + buffer == Joined(received) && |buffer| <= 3
    ensures IsTextSoFar(Joined(received)) ==> Clean(written, buffer)
  {
    hide Clean, IsTextSoFar, Cut, Joined;
    written, buffer := [], [];
    NothingRead();
    for n := 0 to |received|
      invariant Joined(written) + buffer == Joined(received[..n]) && |buffer| <= 3
      invariant IsTextSoFar(Joined(received[..n])) ==> Clean(written, buffer)
    {
      var data := received[n];
      assert received[..n + 1] == received[..n] + [data];
      JoinedSnoc(received[..n], data);
      Prefix(Joined(received[..n]), data);
      if data != [] {
        var held := buffer;
        buffer := buffer + data;
        Regroup(Joined(written), held, data);
        var splitIdx := SplitIndex(buffer);
        CleanNow(written, held, data);
        if splitIdx > 0 {
          JoinedSnoc(written, buffer[..splitIdx]);
          Regroup(Joined(written), buffer[..splitIdx], buffer[splitIdx..]);
          assert buffer == buffer[..splitIdx] + buffer[splitIdx..];
          written := written + [buffer[..splitIdx]];
          buffer := buffer[splitIdx..];
        }
      } else {
        assert Joined(received[..n]) + data == Joined(received[..n]);
      }
    }
    assert received[..|received|] == received;
  }

  lemma NothingRead()
    ensures Joined([]) == [] && Clean([], []) && Joined([]) + [] == []
  {
  }

  lemma Regroup(a: seq<Byte>, b: seq<Byte>, c: seq<Byte>)
    ensures (a + b) + c == a + (b + c)
  {
  }

  lemma Prefix(s: seq<Byte>, data: seq<Byte>)
    ensures IsTextSoFar(s + data) ==> IsTextSoFar(s)
  {
    if IsTextSoFar(s + data) {
      var rest :| IsText(s + data + rest);
      assert s + data + rest == s + (data + rest);
    }
  }

  lemma AfterText(t: seq<Byte>, s: seq<Byte>)
    requires IsText(t) && IsTextSoFar(t + s)
    ensures IsTextSoFar(s)
  {
    hide IsText;
    var rest :| IsText((t + s) + rest);
    Regroup(t, s, rest);
    TextAppend(t, s + rest);
  }

  /** One turn of the loop keeps it so. */
  lemma CleanNow(written: seq<seq<Byte>>, held: seq<Byte>, data: seq<Byte>)
    requires data != [] && |held| <= 3
    ensures var buffer := held + data;
            var k := Cut(buffer, 1);
            k <= |buffer| && |buffer| - k <= 3 && (k == 0 ==> buffer[k..] == buffer)
    ensures var buffer := held + data;
            var k := Cut(buffer, 1);
            IsTextSoFar(Joined(written) + buffer) && Clean(written, held) ==>
              Clean(if k > 0 then written + [buffer[..k]] else written, buffer[k..])
  {
    hide IsText, IsPart, Cut, Joined, IsTextSoFar;
    var buffer := held + data;
    if IsTextSoFar(Joined(written) + buffer) && Clean(written, held) {
      JoinedText(written);
      AfterText(Joined(written), buffer);
      CutIsClean(buffer);
    }
  }
}
