/** What a layer hash sees: compute_single_layer, tools/vivado_core/hash.py:113-158, feeds
    path, a zero byte and content of each file of the layer, in path order, to the digest. */
module LayerHash {

  import opened Words
  datatype File = File(path: seq<Byte>, content: seq<Byte>)

  /** The bytes of one file, and of a sorted list of files. */
  function FileBytes(f: File): (s: seq<Byte>)
    ensures |s| == |f.path| + 1 + |f.content|
  {
    f.path + [0] + f.content
  }

  function Stream(files: seq<File>): seq<Byte> {
    if files == [] then [] else Stream(files[..|files| - 1]) + FileBytes(files[|files| - 1])
  }

  /** The loop of hasher.update calls. */
  method Digested(files: seq<File>) returns (s: seq<Byte>)
    ensures s == Stream(files)
  {
    s := [];
    for i := 0 to |files|
      invariant s == Stream(files[..i])
    {
      assert files[..i + 1][..i] == files[..i];
      ghost var before := s;
      s := s + files[i].path;
      s := s + [0];
      s := s + files[i].content;
      assert s == before + FileBytes(files[i]);
    }
    assert files[..|files|] == files;
  }

  lemma {:induction false} StreamConcat(a: seq<File>, b: seq<File>)
    ensures Stream(a + b) == Stream(a) + Stream(b)
  {
    if b == [] {
      assert a + b == a;
    } else {
      var n := |b| - 1;
      assert (a + b)[..|a + b| - 1] == a + b[..n];
      StreamConcat(a, b[..n]);
    }
  }

  lemma StreamAround(files: seq<File>, i: nat, f: File)
    requires i <= |files|
    ensures Stream(files[..i] + [f] + files[i..]) == Stream(files[..i]) + FileBytes(f) + Stream(files[i..])
  {
    StreamConcat(files[..i] + [f], files[i..]);
    StreamConcat(files[..i], [f]);
    assert [f][..0] == [];
    assert Stream([f]) == FileBytes(f);
  }

  /** Changing the content of any one file changes what is hashed. */
  lemma OneEditShows(files: seq<File>, i: nat, content: seq<Byte>)
    requires i < |files| && content != files[i].content
    ensures Stream(files[i := files[i].(content := content)]) != Stream(files)
  {
    hide Stream;
    var f, g := files[i], files[i].(content := content);
    var rest := files[..i] + files[i + 1..];
    assert rest[..i] == files[..i] && rest[i..] == files[i + 1..];
    assert files == rest[..i] + [f] + rest[i..];
    assert files[i := g] == rest[..i] + [g] + rest[i..];
    StreamAround(rest, i, f);
    StreamAround(rest, i, g);
    SameMiddle(Stream(rest[..i]) + (f.path + [0]), f.content, content, Stream(rest[i..]));
    assert Stream(rest[..i]) + FileBytes(f) == Stream(rest[..i]) + (f.path + [0]) + f.content;
    assert Stream(rest[..i]) + FileBytes(g) == Stream(rest[..i]) + (f.path + [0]) + content;
  }

  lemma SameMiddle(pre: seq<Byte>, x: seq<Byte>, y: seq<Byte>, post: seq<Byte>)
    ensures pre + x + post == pre + y + post ==> x == y
  {
    var s, t := pre + x + post, pre + y + post;
    if s == t {
      assert |x| == |y|;
      assert s[|pre|..|pre| + |x|] == x && t[|pre|..|pre| + |y|] == y;
    }
  }

  /** So does adding or removing any one file, an empty one included. */
  lemma OneFileMoreShows(files: seq<File>, i: nat, f: File)
    requires i <= |files|
    ensures Stream(files[..i] + [f] + files[i..]) != Stream(files)
  {
    hide Stream, FileBytes;
    StreamAround(files, i, f);
    StreamConcat(files[..i], files[i..]);
    assert files == files[..i] + files[i..];
    assert |Stream(files[..i] + [f] + files[i..])| == |Stream(files[..i])| + |FileBytes(f)| + |Stream(files[i..])|;
  }

  // ---------------------------------------------------------------------------
  // Any number of changes to text files
  // ---------------------------------------------------------------------------

  ghost predicate NulFree(s: seq<Byte>) {
    0 !in s
  }

  /** Text files: no zero byte in a path or a content. */
  ghost predicate TextFiles(files: seq<File>) {
    forall f :: f in files ==> NulFree(f.path) && NulFree(f.content)
  }

  /** The stream cut at its zero bytes: the first path, each content with the path after it,
      and what follows the last zero byte. */
  datatype Pieces = Pieces(closed: seq<seq<Byte>>, open: seq<Byte>)

  function PiecesOf(files: seq<File>): Pieces {
    if files == [] then Pieces([], [])
    else
      var p, f := PiecesOf(files[..|files| - 1]), files[|files| - 1];
      Pieces(p.closed + [p.open + f.path], f.content)
  }

  /** Each piece with a zero byte after it. */
  function Flat(closed: seq<seq<Byte>>): seq<Byte> {
    if closed == [] then [] else Flat(closed[..|closed| - 1]) + closed[|closed| - 1] + [0]
  }

  function Join(p: Pieces): seq<Byte> {
    Flat(p.closed) + p.open
  }

  lemma FlatSnoc(closed: seq<seq<Byte>>, x: seq<Byte>)
    ensures Flat(closed + [x]) == Flat(closed) + x + [0]
  {
    assert (closed + [x])[..|closed|] == closed;
  }

  lemma {:induction false} StreamIsJoin(files: seq<File>)
    ensures Stream(files) == Join(PiecesOf(files))
  {
    if files != [] {
      var n := |files| - 1;
      var p, f := PiecesOf(files[..n]), files[n];
      StreamIsJoin(files[..n]);
      FlatSnoc(p.closed, p.open + f.path);
      Regroup(Flat(p.closed), p.open, f.path, f.content);
    }
  }

  lemma Regroup(a: seq<Byte>, b: seq<Byte>, c: seq<Byte>, d: seq<Byte>)
    ensures (a + b) + (c + [0] + d) == a + (b + c) + [0] + d
  {
  }

  /** Where the rest holds no zero byte, the last zero byte is easily found. */
  lemma SplitAtLastNul(x: seq<Byte>, y: seq<Byte>, a: seq<Byte>, b: seq<Byte>)
    requires NulFree(a) && NulFree(b) && x + [0] + a == y + [0] + b
    ensures x == y && a == b
  {
    var s := x + [0] + a;
    assert s[|x|] == 0 && s[|y|] == 0;
    assert forall k :: |x| < k < |s| ==> s[k] == a[k - |x| - 1];
    assert forall k :: |y| < k < |s| ==> s[k] == b[k - |y| - 1];
    assert |x| == |y|;
    assert s[..|x|] == x && s[..|y|] == y && s[|x| + 1..] == a && s[|y| + 1..] == b;
  }

  ghost predicate AllNulFree(p: Pieces) {
    NulFree(p.open) && forall c :: c in p.closed ==> NulFree(c)
  }

  lemma FlatEndsWithNul(closed: seq<seq<Byte>>, open: seq<Byte>)
    requires closed != []
    ensures 0 in Flat(closed) + open
  {
    assert (Flat(closed) + open)[|Flat(closed)| - 1] == 0;
  }

  lemma {:induction false} JoinInjective(p: Pieces, q: Pieces)
    requires Join(p) == Join(q) && AllNulFree(p) && AllNulFree(q)
    ensures p == q
    decreases |p.closed|
  {
    if p.closed == [] || q.closed == [] {
      assert Flat([]) + p.open == p.open && Flat([]) + q.open == q.open;
      if p.closed != [] {
        FlatEndsWithNul(p.closed, p.open);
      }
      if q.closed != [] {
        FlatEndsWithNul(q.closed, q.open);
      }
    } else {
      var m, n := |p.closed| - 1, |q.closed| - 1;
      var p', q' := Pieces(p.closed[..m], p.closed[m]), Pieces(q.closed[..n], q.closed[n]);
      assert p.closed == p'.closed + [p'.open] && q.closed == q'.closed + [q'.open];
      SplitAtLastNul(Join(p'), Join(q'), p.open, q.open);
      JoinInjective(p', q');
    }
  }

  lemma {:induction false} PiecesAreText(files: seq<File>)
    requires TextFiles(files)
    ensures AllNulFree(PiecesOf(files))
  {
    if files != [] {
      var n := |files| - 1;
      assert files[n] in files;
      PiecesAreText(files[..n]);
    }
  }

  /** Two lists of text files are hashed alike exactly when they have the same pieces: what
      the digest cannot tell is where a content ends and the next path begins. */
  lemma SameStreamExactly(a: seq<File>, b: seq<File>)
    requires TextFiles(a) && TextFiles(b)
    ensures Stream(a) == Stream(b) <==> PiecesOf(a) == PiecesOf(b)
  {
    StreamIsJoin(a);
    StreamIsJoin(b);
    PiecesAreText(a);
    PiecesAreText(b);
    if Stream(a) == Stream(b) {
      JoinInjective(PiecesOf(a), PiecesOf(b));
    }
  }

  ghost predicate SamePaths(a: seq<File>, b: seq<File>) {
    |a| == |b| && forall i :: 0 <= i < |a| ==> a[i].path == b[i].path
  }

  lemma {:induction false} PiecesTellContents(a: seq<File>, b: seq<File>)
    requires SamePaths(a, b) && PiecesOf(a) == PiecesOf(b)
    ensures a == b
  {
    if a != [] {
      var n := |a| - 1;
      var p, q := PiecesOf(a[..n]), PiecesOf(b[..n]);
      LastPiece(p.closed, p.open + a[n].path, q.closed, q.open + b[n].path);
      SameMiddle([], p.open, q.open, a[n].path);
      assert [] + p.open == p.open && [] + q.open == q.open;
      PiecesTellContents(a[..n], b[..n]);
      assert a == a[..n] + [a[n]] && b == b[..n] + [b[n]];
    }
  }

  lemma LastPiece(a: seq<seq<Byte>>, x: seq<Byte>, b: seq<seq<Byte>>, y: seq<Byte>)
    requires a + [x] == b + [y]
    ensures a == b && x == y
  {
    assert (a + [x])[..|a|] == a && (b + [y])[..|b|] == b;
    assert (a + [x])[|a|] == x && (b + [y])[|b|] == y;
  }

  /** As long as no file comes, goes or is renamed, edits to any number of text files show. */
  lemma TextEditsShow(a: seq<File>, b: seq<File>)
    requires TextFiles(a) && TextFiles(b) && SamePaths(a, b) && a != b
    ensures Stream(a) != Stream(b)
  {
    if Stream(a) == Stream(b) {
      SameStreamExactly(a, b);
      PiecesTellContents(a, b);
    }
  }

  /** Both conditions are needed. A rename together with an edit can hide: the end y of one
      file's content moves to the front of the next path; text or not, between any other
      files. And a zero byte in a content can pass for the end of a path. */
  lemma TwoEditsMayHide(pre: seq<File>, post: seq<File>, p: seq<Byte>, x: seq<Byte>, y: seq<Byte>, q: seq<Byte>, z: seq<Byte>)
    ensures Stream(pre + [File(p, x + y), File(q, z)] + post) == Stream(pre + [File(p, x), File(y + q, z)] + post)
    ensures Stream(pre + [File(p, x), File(q, z)] + post) == Stream(pre + [File(p, x + q + [0] + z)] + post)
  {
    hide Stream;
    Between(pre, [File(p, x + y), File(q, z)], post);
    Between(pre, [File(p, x), File(y + q, z)], post);
    Between(pre, [File(p, x), File(q, z)], post);
    Between(pre, [File(p, x + q + [0] + z)], post);
    EndMoves(p, x, y, q, z);
    NulPasses(p, x, q, z);
  }

  lemma EndMoves(p: seq<Byte>, x: seq<Byte>, y: seq<Byte>, q: seq<Byte>, z: seq<Byte>)
    ensures Stream([File(p, x + y), File(q, z)]) == Stream([File(p, x), File(y + q, z)])
  {
    hide Stream;
    OneOrTwo(File(p, x + y), File(q, z));
    OneOrTwo(File(p, x), File(y + q, z));
    assert (p + [0] + (x + y)) + (q + [0] + z) == (p + [0] + x) + ((y + q) + [0] + z);
  }

  lemma NulPasses(p: seq<Byte>, x: seq<Byte>, q: seq<Byte>, z: seq<Byte>)
    ensures Stream([File(p, x), File(q, z)]) == Stream([File(p, x + q + [0] + z)])
  {
    hide Stream;
    OneOrTwo(File(p, x), File(q, z));
    OneOrTwo(File(p, x + q + [0] + z), File(q, z));
    assert (p + [0] + x) + (q + [0] + z) == p + [0] + (x + q + [0] + z);
  }

  lemma Between(pre: seq<File>, files: seq<File>, post: seq<File>)
    ensures Stream(pre + files + post) == Stream(pre) + Stream(files) + Stream(post)
  {
    StreamConcat(pre + files, post);
    StreamConcat(pre, files);
  }

  lemma OneOrTwo(f: File, g: File)
    ensures Stream([f]) == FileBytes(f) && Stream([f, g]) == FileBytes(f) + FileBytes(g)
  {
    assert [f, g][..1] == [f] && [f][..0] == [];
  }

  // ---------------------------------------------------------------------------
  // A collision within the rules of a layer
  // ---------------------------------------------------------------------------

  type Name = seq<Byte>

  const SLASH: Byte := 47
  const DEV: Name := [100, 101, 118]
  const RTL: Name := [114, 116, 108]
  const VIVADO_CONFIG: Name := [118, 105, 118, 97, 100, 111, 95, 99, 111, 110, 102, 105, 103, 46, 121, 97, 109, 108]
  const DOT_SV: Name := [46, 115, 118]

  /** A relative path as as_posix writes it. */
  function Posix(parts: seq<Name>): seq<Byte> {
    if parts == [] then [] else if |parts| == 1 then parts[0] else parts[0] + [SLASH] + Posix(parts[1..])
  }

  predicate ProperName(n: Name) {
    n != [] && 0 !in n && SLASH !in n
  }

  /** A file that dev/rtl/**/*.sv matches. */
  predicate IsRtl(parts: seq<Name>) {
    && |parts| >= 3 && parts[0] == DEV && parts[1] == RTL && (forall n :: n in parts ==> ProperName(n))
    && var name := parts[|parts| - 1]; |name| >= 3 && name[|name| - 3..] == DOT_SV
  }

  predicate NameLess(a: Name, b: Name) {
    b != [] && (a == [] || a[0] < b[0] || (a[0] == b[0] && NameLess(a[1..], b[1..])))
  }

  /** The order that sorts a layer: paths name by name, not byte by byte. */
  predicate PathLess(p: seq<Name>, q: seq<Name>)
    decreases |p|
  {
    q != [] && (p == [] || NameLess(p[0], q[0]) || (p[0] == q[0] && PathLess(p[1..], q[1..])))
  }

  /** A file of a layer by the names of its path. */
  datatype Entry = Entry(parts: seq<Name>, content: seq<Byte>)

  predicate Sorted(layer: seq<Entry>) {
    forall i :: 0 < i < |layer| ==> PathLess(layer[i - 1].parts, layer[i].parts)
  }

  function Files(layer: seq<Entry>): (files: seq<File>)
    ensures |files| == |layer|
    ensures forall i :: 0 <= i < |layer| ==> files[i] == File(Posix(layer[i].parts), layer[i].content)
  {
    seq(|layer|, i requires 0 <= i < |layer| => File(Posix(layer[i].parts), layer[i].content))
  }

  ghost predicate TextLayer(layer: seq<Entry>) {
    forall e :: e in layer ==> NulFree(e.content) && forall n :: n in e.parts ==> ProperName(n)
  }

  lemma TextLayerIsText(layer: seq<Entry>)
    requires TextLayer(layer)
    ensures TextFiles(Files(layer))
  {
    hide Posix;
    forall f | f in Files(layer)
      ensures NulFree(f.path) && NulFree(f.content)
    {
      var i :| 0 <= i < |layer| && Files(layer)[i] == f;
      assert layer[i] in layer;
      PosixIsText(layer[i].parts);
    }
  }

  lemma {:induction false} Glue(a: seq<Name>, d: Name, q: seq<Name>)
    requires q != []
    ensures Posix(a + [d]) + Posix(q) == Posix(a + [d + q[0]] + q[1..])
  {
    var whole := a + [d + q[0]] + q[1..];
    if a == [] {
      assert a + [d] == [d] && whole[0] == d + q[0] && whole[1..] == q[1..];
      if |q| > 1 {
        assert Posix(whole) == d + q[0] + [SLASH] + Posix(q[1..]);
        assert d + (q[0] + [SLASH] + Posix(q[1..])) == d + q[0] + [SLASH] + Posix(q[1..]);
      }
    } else {
      Glue(a[1..], d, q);
      assert (a + [d])[1..] == a[1..] + [d] && (a + [d])[0] == a[0];
      assert whole[1..] == a[1..] + [d + q[0]] + q[1..] && whole[0] == a[0];
    }
  }

  lemma SameRoot(a: seq<Name>, b: seq<Name>)
    requires a != [] && b != [] && NameLess(a[0], b[0])
    ensures PathLess([DEV, RTL] + a, [DEV, RTL] + b)
  {
    assert ([DEV, RTL] + a)[1..] == [RTL] + a && ([DEV, RTL] + b)[1..] == [RTL] + b;
    assert ([RTL] + a)[1..] == a && ([RTL] + b)[1..] == b;
    assert PathLess([RTL] + a, [RTL] + b);
  }

  lemma {:induction false} PosixIsText(parts: seq<Name>)
    requires forall n :: n in parts ==> 0 !in n
    ensures NulFree(Posix(parts))
  {
    if |parts| > 1 {
      assert parts[0] in parts && forall n :: n in parts[1..] ==> n in parts;
      PosixIsText(parts[1..]);
    } else if |parts| == 1 {
      assert parts[0] in parts;
    }
  }

  /** The two states of the layer rtl around other files: b.sv moves from dev/rtl to dev/rtl/d'/rtl,
      where d' is d + "dev", and the end "dev/rtl/d" of a.sv goes. */
  function Unmoved(pre: seq<Entry>, a: Name, b: Name, d: Name, x: seq<Byte>, z: seq<Byte>, post: seq<Entry>): seq<Entry> {
    pre + [Entry([DEV, RTL, a], x + Posix([DEV, RTL, d])), Entry([DEV, RTL, b], z)] + post
  }

  function Moved(pre: seq<Entry>, a: Name, b: Name, d: Name, x: seq<Byte>, z: seq<Byte>, post: seq<Entry>): seq<Entry> {
    pre + [Entry([DEV, RTL, a], x), Entry([DEV, RTL, d + DEV, RTL, b], z)] + post
  }

  /** For any Verilog files a and b, any directory name d that sorts after a, any contents and
      any other files: the move is hashed away. The files are still matched and sorted, and
      text if they were. */
  lemma MoveHides(pre: seq<Entry>, a: Name, b: Name, d: Name, x: seq<Byte>, z: seq<Byte>, post: seq<Entry>)
    requires IsRtl([DEV, RTL, a]) && IsRtl([DEV, RTL, b]) && ProperName(d) && NameLess(a, d + DEV)
    requires Sorted(Unmoved(pre, a, b, d, x, z, post))
    requires post != [] ==> PathLess([DEV, RTL, d + DEV, RTL, b], post[0].parts)
    ensures var before, after := Unmoved(pre, a, b, d, x, z, post), Moved(pre, a, b, d, x, z, post);
            && IsRtl([DEV, RTL, d + DEV, RTL, b]) && Sorted(after)
            && (TextLayer(before) ==> TextLayer(after) && TextFiles(Files(before)) && TextFiles(Files(after)))
            && Files(before) != Files(after) && Stream(Files(before)) == Stream(Files(after))
  {
    hide Stream, NameLess, Posix, PathLess, Sorted, TextLayer, TextFiles, IsRtl;
    MovedIsSorted(pre, a, b, d, x, z, post);
    if TextLayer(Unmoved(pre, a, b, d, x, z, post)) {
      MovedIsText(pre, a, b, d, x, z, post);
      TextLayerIsText(Unmoved(pre, a, b, d, x, z, post));
      TextLayerIsText(Moved(pre, a, b, d, x, z, post));
    }
    MovedStream(pre, a, b, d, x, z, post);
  }

  lemma MovedStream(pre: seq<Entry>, a: Name, b: Name, d: Name, x: seq<Byte>, z: seq<Byte>, post: seq<Entry>)
    ensures var before, after := Unmoved(pre, a, b, d, x, z, post), Moved(pre, a, b, d, x, z, post);
            Files(before) != Files(after) && Stream(Files(before)) == Stream(Files(after))
  {
    hide Stream, Posix;
    var before, after := Unmoved(pre, a, b, d, x, z, post), Moved(pre, a, b, d, x, z, post);
    var p, q, r, y := Posix([DEV, RTL, a]), Posix([DEV, RTL, b]), Posix([DEV, RTL, d + DEV, RTL, b]), Posix([DEV, RTL, d]);
    LongerPath(d, b);
    assert Files(before) == Files(pre) + [File(p, x + y), File(q, z)] + Files(post);
    assert Files(after) == Files(pre) + [File(p, x), File(y + q, z)] + Files(post);
    assert Files(before)[|pre|].content != Files(after)[|pre|].content;
    TwoEditsMayHide(Files(pre), Files(post), p, x, y, q, z);
  }

  lemma MovedIsText(pre: seq<Entry>, a: Name, b: Name, d: Name, x: seq<Byte>, z: seq<Byte>, post: seq<Entry>)
    requires ProperName(d) && TextLayer(Unmoved(pre, a, b, d, x, z, post))
    ensures TextLayer(Moved(pre, a, b, d, x, z, post))
  {
    hide Posix;
    var before, after, y := Unmoved(pre, a, b, d, x, z, post), Moved(pre, a, b, d, x, z, post), Posix([DEV, RTL, d]);
    assert before[|pre|] in before && before[|pre| + 1] in before;
    assert forall k :: 0 <= k < |x| ==> (x + y)[k] == x[k];
    assert forall n :: n in [DEV, RTL, d + DEV, RTL, b] ==> n in {DEV, RTL, d + DEV, b};
    assert [DEV, RTL, b][2] == b;
    forall e | e in after
      ensures NulFree(e.content) && forall n :: n in e.parts ==> ProperName(n)
    {
      if e in pre || e in post {
        assert e in before;
      }
    }
  }

  lemma MovedIsSorted(pre: seq<Entry>, a: Name, b: Name, d: Name, x: seq<Byte>, z: seq<Byte>, post: seq<Entry>)
    requires IsRtl([DEV, RTL, a]) && IsRtl([DEV, RTL, b]) && ProperName(d) && NameLess(a, d + DEV)
    requires Sorted(Unmoved(pre, a, b, d, x, z, post))
    requires post != [] ==> PathLess([DEV, RTL, d + DEV, RTL, b], post[0].parts)
    ensures IsRtl([DEV, RTL, d + DEV, RTL, b]) && Sorted(Moved(pre, a, b, d, x, z, post))
  {
    hide NameLess, PathLess, Posix;
    assert [DEV, RTL] + [a] == [DEV, RTL, a] && [DEV, RTL] + [d + DEV, RTL, b] == [DEV, RTL, d + DEV, RTL, b];
    SameRoot([a], [d + DEV, RTL, b]);
    assert [DEV, RTL, b][2] == b;
    var before, after, n := Unmoved(pre, a, b, d, x, z, post), Moved(pre, a, b, d, x, z, post), |pre|;
    forall i | 0 < i < |after|
      ensures PathLess(after[i - 1].parts, after[i].parts)
    {
      assert PathLess(before[i - 1].parts, before[i].parts);
      assert i != n + 1 && i != n + 2 ==> after[i - 1].parts == before[i - 1].parts && after[i].parts == before[i].parts;
    }
  }

  lemma LongerPath(d: Name, b: Name)
    ensures Posix([DEV, RTL, d]) + Posix([DEV, RTL, b]) == Posix([DEV, RTL, d + DEV, RTL, b])
    ensures Posix([DEV, RTL, d]) != []
  {
    hide Posix;
    Glue([DEV, RTL], d, [DEV, RTL, b]);
    assert [DEV, RTL] + [d] == [DEV, RTL, d];
    assert [DEV, RTL] + [d + DEV] + [DEV, RTL, b][1..] == [DEV, RTL, d + DEV, RTL, b];
    NotEmpty([DEV, RTL, d]);
  }

  lemma NotEmpty(parts: seq<Name>)
    requires |parts| > 1
    ensures Posix(parts) != []
  {
  }

  /** For instance dev/rtl/a.sv, dev/rtl/b.sv and d = "x", before the configuration file. */
  lemma AMoveThatHides(x: seq<Byte>, z: seq<Byte>, config: seq<Byte>)
    ensures var a, b, d: Name, post := [97, 46, 115, 118], [98, 46, 115, 118], [120], [Entry([VIVADO_CONFIG], config)];
            var before, after := Unmoved([], a, b, d, x, z, post), Moved([], a, b, d, x, z, post);
            && IsRtl([DEV, RTL, a]) && IsRtl([DEV, RTL, b]) && IsRtl([DEV, RTL, d + DEV, RTL, b])
            && Sorted(before) && Sorted(after)
            && Files(before) != Files(after) && Stream(Files(before)) == Stream(Files(after))
  {
    hide Stream, Posix, Files;
    var a, b, d: Name, post := [97, 46, 115, 118], [98, 46, 115, 118], [120], [Entry([VIVADO_CONFIG], config)];
    assert [DEV, RTL] + [a] == [DEV, RTL, a] && [DEV, RTL] + [b] == [DEV, RTL, b];
    SameRoot([a], [b]);
    MoveHides([], a, b, d, x, z, post);
  }
}
