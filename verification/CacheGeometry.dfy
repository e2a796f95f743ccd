/** Cache and TLB geometry: the values of the RTL header (tools/vivado_core/
    cache_header_gen.py:28-191) against those of the memory IP
    (tools/vivado_core/ip_gen.py:43-57 and 110-212). */
module CacheGeometry {
  import opened Arith

  /** Python's int.bit_length. */
  function BitLength(n: nat): nat {
    if n == 0 then 0 else 1 + BitLength(n / 2)
  }

  /** _clog2. */
  function Clog2(n: int): (k: nat)
    ensures k >= 1
  {
    if n <= 1 then 1 else BitLength(n - 1)
  }

  lemma {:induction false} BitLengthBounds(n: nat)
    requires n > 0
    ensures BitLength(n) > 0 && Pow2(BitLength(n) - 1) <= n < Pow2(BitLength(n))
  {
    if n > 1 {
      BitLengthBounds(n / 2);
    }
  }

  /** k is the least exponent with 2^k >= n. */
  ghost predicate LeastExponent(n: int, k: nat) {
    Pow2(k) >= n && forall j :: 0 <= j < k ==> Pow2(j) < n
  }

  /** _clog2 is the ceiling of the logarithm exactly from 2 on; below that it answers 1
      where 0 bits would do. */
  lemma Clog2IsLeastExponent(n: int)
    ensures LeastExponent(n, Clog2(n)) <==> n >= 2
  {
    if n >= 2 {
      BitLengthBounds(n - 1);
      forall j | 0 <= j < Clog2(n)
        ensures Pow2(j) < n
      {
        if j < Clog2(n) - 1 {
          Pow2Grows(j, Clog2(n) - 1);
        }
      }
    } else {
      assert Pow2(0) == 1;
    }
  }

  // ---------------------------------------------------------------------------
  // Address slices
  // ---------------------------------------------------------------------------

  datatype CacheConfig = CacheConfig(
    numSets: nat, numWays: nat, tagWidth: nat, lineWords: nat, byteSize: nat, byteEnable: bool,
    tagBramByteSize: nat, tagBramXilinxByteSize: nat, tagBramByteEnable: bool)

  datatype TlbConfig = TlbConfig(
    numSets: nat, numWays: nat, flagByteSize: nat, dataByteSize: nat, flagByteEnable: bool, dataByteEnable: bool)

  /** Sizes a generator can divide by. */
  predicate CacheOk(c: CacheConfig) {
    c.byteSize > 0 && c.tagBramXilinxByteSize > 0
  }

  predicate TlbOk(c: TlbConfig) {
    c.flagByteSize > 0 && c.dataByteSize > 0
  }

  datatype Slices = Slices(wordLo: nat, wordHi: nat, setLo: nat, setHi: nat, tagLo: nat, tagHi: int)

  /** The bit positions of _derive_addr_slices. */
  function AddrSlices(c: CacheConfig): Slices {
    var log2Sets, log2Line := Clog2(c.numSets), Clog2(c.lineWords);
    var wordLo := 2;
    var wordHi := 2 + log2Line - 1;
    var setLo := wordHi + 1;
    var setHi := setLo + log2Sets - 1;
    var tagLo := setHi + 1;
    Slices(wordLo, wordHi, setLo, setHi, tagLo, tagLo + c.tagWidth - 1)
  }

  /** The Verilog part select addr[hi:lo]; empty when hi is lo - 1. */
  function Part(addr: nat, hi: int, lo: nat): nat
    requires hi + 1 >= lo
  {
    (addr / Pow2(lo)) % Pow2(hi + 1 - lo)
  }

  /** The four fields of an address. */
  datatype Fields = Fields(tag: nat, set_: nat, word: nat, byte: nat)

  function Split(c: CacheConfig, addr: nat): Fields {
    var s := AddrSlices(c);
    Fields(Part(addr, s.tagHi, s.tagLo), Part(addr, s.setHi, s.setLo), Part(addr, s.wordHi, s.wordLo), Part(addr, 1, 0))
  }

  function Combine(c: CacheConfig, f: Fields): nat {
    var s := AddrSlices(c);
    f.tag * Pow2(s.tagLo) + f.set_ * Pow2(s.setLo) + f.word * Pow2(s.wordLo) + f.byte
  }

  predicate InRange(c: CacheConfig, f: Fields) {
    var s := AddrSlices(c);
    && f.byte < 4 && f.word < Pow2(s.wordHi + 1 - s.wordLo) && f.set_ < Pow2(s.setHi + 1 - s.setLo)
    && f.tag < Pow2(s.tagHi + 1 - s.tagLo)
  }

  /** Cutting x at bit a + b, then the low part at bit a. */
  lemma CutTwice(x: nat, a: nat, b: nat)
    ensures x / Pow2(a + b) == (x / Pow2(a)) / Pow2(b)
    ensures x == (x / Pow2(a)) * Pow2(a) + x % Pow2(a)
    ensures x / Pow2(a) == (x / Pow2(a + b)) * Pow2(b) + (x / Pow2(a)) % Pow2(b)
  {
    hide Pow2;
    Pow2Sum(a, b);
    var p, q := Pow2(a), Pow2(b);
    var u := x / p;
    var v := u / q;
    DivisionIs(x, p);
    DivisionIs(u, q);
    DivideTwice(x, p, q);
  }

  lemma DivideTwice(x: nat, p: nat, q: nat)
    requires p > 0 && q > 0
    ensures p * q > 0 && x / (p * q) == (x / p) / q
  {
    var u, r := x / p, x % p;
    var v, t := u / q, u % q;
    assert p * q > 0;
    Distribute(v * q, t, p);
    Regroup(v, q, p);
    assert x == v * (p * q) + (t * p + r);
    SmallRemainder(t, r, p, q);
    QuotientIs(x, p * q, v, t * p + r);
  }

  lemma SmallRemainder(t: nat, r: nat, p: nat, q: nat)
    requires t < q && r < p
    ensures t * p + r < p * q
  {
    assert (q - 1 - t) * p >= 0;
    assert q * p == t * p + p + (q - 1 - t) * p;
  }

  /** Four digits of mixed radix 4, w, s, and an open top. */
  lemma Horner(tag: nat, set_: nat, word: nat, byte: nat, a: nat, w: nat, s: nat)
    ensures tag * Pow2(a + w + s) + set_ * Pow2(a + w) + word * Pow2(a) + byte
         == ((tag * Pow2(s) + set_) * Pow2(w) + word) * Pow2(a) + byte
  {
    Pow2Sum(a + w, s);
    Pow2Sum(a, w);
    hide Pow2;
    var pa, pw, ps := Pow2(a), Pow2(w), Pow2(s);
    var x2 := tag * ps + set_;
    Distribute(x2 * pw, word, pa);
    Regroup(x2, pw, pa);
    Distribute(tag * ps, set_, pw * pa);
    Regroup(tag, ps, pw * pa);
    Commute(pw, pa);
    Commute(ps, pw * pa);
  }

  lemma Commute(x: int, y: int)
    ensures x * y == y * x
  {
  }

  /** The widths behind the positions. */
  lemma SliceWidths(c: CacheConfig)
    ensures var s, w, n := AddrSlices(c), Clog2(c.lineWords), Clog2(c.numSets);
            && s.wordLo == 2 && s.wordHi + 1 == s.setLo == 2 + w && s.setHi + 1 == s.tagLo == 2 + w + n
            && s.tagHi + 1 == s.tagLo + c.tagWidth
  {
  }

  lemma FourIsPow2()
    ensures Pow2(2) == 4 && Pow2(0) == 1
  {
    assert Pow2(1) == 2;
  }

  /** Every address below 2^(TAG_HI + 1) is the combination of its four slices. */
  lemma SlicesRebuild(c: CacheConfig, addr: nat)
    requires addr < Pow2(AddrSlices(c).tagHi + 1)
    ensures InRange(c, Split(c, addr)) && Combine(c, Split(c, addr)) == addr
  {
    SliceWidths(c);
    FourIsPow2();
    var w, n, t := Clog2(c.lineWords), Clog2(c.numSets), c.tagWidth;
    hide Pow2, Clog2;
    CutTwice(addr, 2, w);
    CutTwice(addr, 2 + w, n);
    CutTwice(addr, 2 + w + n, t);
    BelowPower(addr, 2 + w + n + t);
    var f := Split(c, addr);
    Horner(f.tag, f.set_, f.word, f.byte, 2, w, n);
    assert f.tag == addr / Pow2(2 + w + n);
  }

  lemma BelowPower(x: nat, b: nat)
    requires x < Pow2(b)
    ensures x / Pow2(b) == 0
  {
    hide Pow2;
    QuotientIs(x, Pow2(b), 0, x);
  }

  /** Different fields give different addresses: the slices overlap nowhere. */
  lemma SlicesUnique(c: CacheConfig, f: Fields)
    requires InRange(c, f)
    ensures Split(c, Combine(c, f)) == f && Combine(c, f) < Pow2(AddrSlices(c).tagHi + 1)
  {
    SliceWidths(c);
    FourIsPow2();
    var w, n, t := Clog2(c.lineWords), Clog2(c.numSets), c.tagWidth;
    hide Pow2, Clog2;
    var x := Combine(c, f);
    var x2 := f.tag * Pow2(n) + f.set_;
    var x1 := x2 * Pow2(w) + f.word;
    Horner(f.tag, f.set_, f.word, f.byte, 2, w, n);
    QuotientIs(x, Pow2(2), x1, f.byte);
    QuotientIs(x1, Pow2(w), x2, f.word);
    QuotientIs(x2, Pow2(n), f.tag, f.set_);
    CutTwice(x, 2, w);
    CutTwice(x, 2 + w, n);
    QuotientIs(f.tag, Pow2(t), 0, f.tag);
    CutTwice(x, 2 + w + n, t);
    DivisionIs(x, Pow2(2 + w + n + t));
    assert x / Pow2(2 + w + n + t) == 0;
  }

  /** A power of two, and at least two. */
  ghost predicate PowerOfTwo(n: nat) {
    exists k: nat :: k >= 1 && n == Pow2(k)
  }

  /** Every address names a set that exists exactly when the number of sets is a power of
      two and at least two; the same for words of a line. */
  lemma EverySetExists(c: CacheConfig)
    ensures (forall addr :: 0 <= addr < Pow2(AddrSlices(c).tagHi + 1) ==> Split(c, addr).set_ < c.numSets)
       <==> PowerOfTwo(c.numSets)
    ensures (forall addr :: 0 <= addr < Pow2(AddrSlices(c).tagHi + 1) ==> Split(c, addr).word < c.lineWords)
       <==> PowerOfTwo(c.lineWords)
  {
    hide Clog2, Split, Combine, PowerOfTwo;
    TopFields(c);
    forall addr | 0 <= addr < Pow2(AddrSlices(c).tagHi + 1)
      ensures Split(c, addr).set_ < Pow2(Clog2(c.numSets)) && Split(c, addr).word < Pow2(Clog2(c.lineWords))
    {
      SlicesRebuild(c, addr);
      SliceWidths(c);
    }
    IndexSpaceIsFull(c.numSets);
    IndexSpaceIsFull(c.lineWords);
  }

  /** The index bits count no further than n exactly when n is a power of two from 2 on. */
  lemma IndexSpaceIsFull(n: nat)
    ensures Pow2(Clog2(n)) <= n <==> PowerOfTwo(n)
  {
    Clog2Covers(n);
    if k: nat :| k >= 1 && n == Pow2(k) {
      Pow2Grows(0, k);
      Clog2IsLeastExponent(n);
      assert Clog2(n) <= k by {
        assert Pow2(k) >= n;
      }
      if Clog2(n) < k {
        Pow2Grows(Clog2(n), k);
      }
    }
  }

  /** An address that has the largest set index, and the largest word offset. */
  lemma TopFields(c: CacheConfig)
    ensures var f := Fields(0, Pow2(Clog2(c.numSets)) - 1, Pow2(Clog2(c.lineWords)) - 1, 0);
            Combine(c, f) < Pow2(AddrSlices(c).tagHi + 1) && Split(c, Combine(c, f)) == f
  {
    SliceWidths(c);
    hide Clog2;
    SlicesUnique(c, Fields(0, Pow2(Clog2(c.numSets)) - 1, Pow2(Clog2(c.lineWords)) - 1, 0));
  }

  lemma Clog2Covers(n: nat)
    ensures Pow2(Clog2(n)) >= n && Pow2(Clog2(n)) >= 2
  {
    if n >= 2 {
      Clog2IsLeastExponent(n);
      Pow2Grows(0, Clog2(n));
    }
  }

  // ---------------------------------------------------------------------------
  // Header and memory IP
  // ---------------------------------------------------------------------------

  /** Width, depth, address width and write-enable width of one memory. */
  datatype Dims = Dims(width: nat, depth: nat, addrWidth: nat, weaWidth: nat)

  /** The data array as the header defines it. */
  function HeaderData(c: CacheConfig): Dims
    requires CacheOk(c)
  {
    var lineWidth := c.lineWords * 32;
    var depth := c.numSets * c.numWays;
    Dims(lineWidth, depth, Clog2(depth), if c.byteEnable then lineWidth / c.byteSize else 1)
  }

  function HeaderTag(c: CacheConfig): Dims
    requires CacheOk(c)
  {
    var packed := c.numWays * c.tagBramByteSize;
    Dims(packed, c.numSets, Clog2(c.numSets), packed / c.tagBramXilinxByteSize)
  }

  function HeaderTlbFlag(c: TlbConfig): Dims
    requires TlbOk(c)
  {
    var packed := c.numWays * (1 + 1 + 9 + 20 + 1);
    Dims(packed, c.numSets, Clog2(c.numSets), packed / c.flagByteSize)
  }

  function HeaderTlbData(c: TlbConfig): Dims
    requires TlbOk(c)
  {
    var packed := c.numWays * (22 + 1 + 1 + 1 + 1 + 1 + 1 + 4);
    Dims(packed, c.numSets, Clog2(c.numSets), packed / c.dataByteSize)
  }

  /** The resolved configuration of one memory IP. */
  datatype BramConfig = BramConfig(dataWidth: nat, depth: nat, byteEnable: bool, byteSize: nat) {
    function AddrWidth(): nat {
      if depth <= 1 then 1 else BitLength(depth - 1)
    }

    function WeaWidth(): nat
      requires byteSize > 0
    {
      if byteEnable then dataWidth / byteSize else 1
    }

    function Dimensions(): Dims
      requires byteSize > 0
    {
      Dims(dataWidth, depth, AddrWidth(), WeaWidth())
    }
  }

  function CacheDataToBram(c: CacheConfig): BramConfig {
    BramConfig(c.lineWords * 32, c.numSets * c.numWays, c.byteEnable, c.byteSize)
  }

  function CacheTagToBram(c: CacheConfig): BramConfig {
    BramConfig(c.numWays * c.tagBramByteSize, c.numSets, c.tagBramByteEnable, c.tagBramXilinxByteSize)
  }

  function TlbFlagToBram(c: TlbConfig): BramConfig {
    BramConfig(c.numWays * 32, c.numSets, c.flagByteEnable, c.flagByteSize)
  }

  function TlbDataToBram(c: TlbConfig): BramConfig {
    BramConfig(c.numWays * 32, c.numSets, c.dataByteEnable, c.dataByteSize)
  }

  /** Does an array of `width` bits have room for one unit of x bits, but not for two? */
  predicate OneUnit(width: nat, x: nat) {
    x <= width < 2 * x
  }

  /** Data arrays always agree. Tag and TLB arrays agree exactly when byte enables are on or
      the array is one unit wide: the header ignores the byte-enable switch. */
  lemma HeaderMatchesIp(c: CacheConfig, t: TlbConfig)
    requires CacheOk(c) && TlbOk(t)
    ensures HeaderData(c) == CacheDataToBram(c).Dimensions()
    ensures HeaderTag(c) == CacheTagToBram(c).Dimensions() <==>
              c.tagBramByteEnable || OneUnit(c.numWays * c.tagBramByteSize, c.tagBramXilinxByteSize)
    ensures HeaderTlbFlag(t) == TlbFlagToBram(t).Dimensions() <==>
              t.flagByteEnable || OneUnit(t.numWays * 32, t.flagByteSize)
    ensures HeaderTlbData(t) == TlbDataToBram(t).Dimensions() <==>
              t.dataByteEnable || OneUnit(t.numWays * 32, t.dataByteSize)
  {
    hide BitLength;
    OneUnitMeans(c.numWays * c.tagBramByteSize, c.tagBramXilinxByteSize);
    OneUnitMeans(t.numWays * 32, t.flagByteSize);
    OneUnitMeans(t.numWays * 32, t.dataByteSize);
  }

  lemma OneUnitMeans(width: nat, x: nat)
    requires x > 0
    ensures width / x == 1 <==> OneUnit(width, x)
  {
    DivisionIs(width, x);
    if OneUnit(width, x) {
      QuotientIs(width, x, 1, width - x);
    }
  }

  /** WEA bits per way, times the ways, is the width of the write enable exactly when what
      the ways leave over does not add up to another bit; so always when sizes divide. */
  lemma WeaPerWay(c: CacheConfig)
    requires CacheOk(c)
    ensures var x := c.tagBramXilinxByteSize;
            c.numWays * (c.tagBramByteSize / x) == HeaderTag(c).weaWidth <==> c.numWays * (c.tagBramByteSize % x) < x
  {
    hide Clog2;
    WaysAddUp(c.numWays, c.tagBramByteSize, c.tagBramXilinxByteSize);
  }

  lemma WaysAddUp(ways: nat, size: nat, x: nat)
    requires x > 0
    ensures ways * (size / x) == (ways * size) / x <==> ways * (size % x) < x
  {
    var q, r := size / x, size % x;
    assert ways * size == (ways * q) * x + ways * r by {
      Distribute(q * x, r, ways);
      Commute(ways, size);
      Regroup(ways, q, x);
      Commute(ways, r);
      Commute(q * x, ways);
    }
    if ways * r < x {
      QuotientIs(ways * size, x, ways * q, ways * r);
    } else {
      LeftOver(ways * size, x, ways * q, ways * r);
    }
  }

  lemma LeftOver(n: nat, x: nat, k: nat, rest: nat)
    requires x > 0 && n == k * x + rest && rest >= x
    ensures n / x > k
  {
    DivisionIs(rest, x);
    Distribute(k, rest / x, x);
    QuotientIs(n, x, k + rest / x, rest % x);
    assert rest / x != 0;
  }
}
