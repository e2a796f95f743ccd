/** Bytes and 32-bit words, least significant byte first. */
module Words {
  import opened Arith

  type Byte = b: int | 0 <= b < 0x100
  type Word = w: int | 0 <= w < 0x1_0000_0000

  /** The four bytes of a 32-bit word. */
  lemma LittleEndian(w: nat)
    requires w < 0x1_0000_0000
    ensures w % 0x100 + 0x100 * ((w / 0x100) % 0x100) + 0x1_0000 * ((w / 0x1_0000) % 0x100)
            + 0x100_0000 * (w / 0x100_0000) == w
    ensures w / 0x100_0000 < 0x100
  {
    var a := w / 0x100;
    var b := a / 0x100;
    assert b == w / 0x1_0000;
    assert b / 0x100 == w / 0x100_0000;
  }

  /** The four bytes of a word. */
  function Pack(w: Word): (b: seq<Byte>)
    ensures |b| == 4 && b[0] as int + 0x100 * b[1] as int + 0x1_0000 * b[2] as int + 0x100_0000 * b[3] as int == w
  {
    LittleEndian(w);
    [w % 0x100, (w / 0x100) % 0x100, (w / 0x1_0000) % 0x100, w / 0x100_0000]
  }

  /** The word of four bytes. */
  function Unpack(b: seq<Byte>): Word
    requires |b| == 4
  {
    var b0: int, b1: int, b2: int, b3: int := b[0], b[1], b[2], b[3];
    b0 + 0x100 * b1 + 0x1_0000 * b2 + 0x100_0000 * b3
  }

  lemma UnpackPack(w: Word)
    ensures Unpack(Pack(w)) == w
  {
    LittleEndian(w);
  }

  lemma PackUnpack(b: seq<Byte>)
    requires |b| == 4
    ensures Pack(Unpack(b)) == b
  {
    var w := Unpack(b);
    var hi: int := b[1] as int + 0x100 * b[2] as int + 0x1_0000 * b[3] as int;
    var top: int := b[2] as int + 0x100 * b[3] as int;
    QuotientIs(w, 0x100, hi, b[0]);
    QuotientIs(hi, 0x100, top, b[1]);
    QuotientIs(w, 0x1_0000, top, b[0] as int + 0x100 * b[1] as int);
    QuotientIs(top, 0x100, b[3], b[2]);
    QuotientIs(w, 0x100_0000, b[3], b[0] as int + 0x100 * b[1] as int + 0x1_0000 * b[2] as int);
  }
}
