/** Sv32 virtual memory as section 4.3 of the RISC-V Privileged Specification v1.11
    defines it, over a byte-addressed physical memory, together with the packing
    helpers of dev/os/include/riscv.h.

    C's unsigned `>> k`, `<< k`, `& (2^k - 1)` are written as division, multiplication
    and remainder; `|` of fields that do not overlap is written as `+` (PteMakeBits,
    SatpMakeBits and FlagBits compare this with the operators themselves). */
module Sv32 {
  import opened Wrappers
  import opened Arith
  import opened Words
  import opened Bits

  /** Physical memory: m[k] is the byte at physical address RAM_BASE + k. */
  type Mem = seq<Byte>

  const RAM_BASE: Word := 0x8000_0000
  const PAGE_SIZE: Word := 0x1000

  const PTE_V: Word := 0x001
  const PTE_R: Word := 0x002
  const PTE_W: Word := 0x004
  const PTE_X: Word := 0x008
  const PTE_U: Word := 0x010
  const PTE_A: Word := 0x040
  const PTE_D: Word := 0x080

  // ---------------------------------------------------------------------------
  // riscv.h: page-table entries, satp, index fields
  // ---------------------------------------------------------------------------

  function PteMake(pa: Word, flags: Word): Word {
    (pa / 0x1000) * 0x400 + flags % 0x400
  }

  function PtePpn(pte: Word): Word {
    pte / 0x400
  }

  /** One flag bit of a page-table entry; `mask` is a PTE_ constant. */
  predicate Flag(pte: Word, mask: nat)
    requires mask != 0
  {
    (pte / mask) % 2 == 1
  }

  function SatpMake(mode: Word, asid: Word, ptBase: Word): Word {
    (mode % 2) * 0x8000_0000 + (asid % 0x200) * 0x40_0000 + (ptBase / 0x1000) % 0x40_0000
  }

  function SatpMode(satp: Word): Word {
    (satp / 0x8000_0000) % 2
  }

  function SatpAsid(satp: Word): Word {
    (satp / 0x40_0000) % 0x200
  }

  function SatpPpn(satp: Word): Word {
    satp % 0x40_0000
  }

  function Vpn(va: Word, level: nat): (i: nat)
    requires level <= 1
    ensures i < 0x400
  {
    if level == 1 then (va / 0x40_0000) % 0x400 else (va / 0x1000) % 0x400
  }

  lemma Powers()
    ensures Pow2(0) == 1 && Pow2(1) == 2 && Pow2(9) == 0x200 && Pow2(10) == 0x400 && Pow2(12) == 0x1000
    ensures Pow2(22) == 0x40_0000 && Pow2(31) == 0x8000_0000
  {
    assert Pow2(4) == 0x10 && Pow2(8) == 0x100 && Pow2(16) == 0x1_0000 && Pow2(20) == 0x10_0000;
    assert Pow2(24) == 0x100_0000 && Pow2(28) == 0x1000_0000;
  }

  /** The bitwise expression of pte_make is the arithmetic one. */
  lemma PteMakeBits(pa: Word, flags: Word)
    ensures Or(ShiftLeft(ShiftRight(pa, 12), 10), And(flags, 0x3FF)) == PteMake(pa, flags)
  {
    hide Pow2, Or, And;
    Powers();
    AndMask(flags, 10);
    OrDisjoint(pa / 0x1000, flags % 0x400, 10);
  }

  /** The same for satp_make. */
  lemma SatpMakeBits(mode: Word, asid: Word, ptBase: Word)
    ensures Or(Or(ShiftLeft(And(mode, 1), 31), ShiftLeft(And(asid, 0x1FF), 22)), And(ShiftRight(ptBase, 12), 0x3F_FFFF))
         == SatpMake(mode, asid, ptBase)
  {
    hide Pow2, Or, And;
    Powers();
    AndMask(mode, 1);
    AndMask(asid, 9);
    AndMask(ptBase / 0x1000, 22);
    OrDisjoint(mode % 2, (asid % 0x200) * 0x40_0000, 31);
    OrDisjoint((mode % 2) * 0x200 + asid % 0x200, (ptBase / 0x1000) % 0x40_0000, 22);
  }

  /** A test of flag bit k. */
  lemma FlagBits(pte: Word, k: nat)
    ensures And(pte, Pow2(k)) != 0 <==> Flag(pte, Pow2(k))
  {
    hide Pow2, And;
    AndBit(pte, k);
    MulGrows((pte / Pow2(k)) % 2, Pow2(k));
  }

  /** satp_mode, satp_asid and satp_ppn recover what satp_make packed. */
  lemma SatpRoundTrip(mode: Word, asid: Word, ptBase: Word)
    ensures SatpMode(SatpMake(mode, asid, ptBase)) == mode % 2
    ensures SatpAsid(SatpMake(mode, asid, ptBase)) == asid % 0x200
    ensures SatpPpn(SatpMake(mode, asid, ptBase)) == ptBase / 0x1000
  {
  }

  lemma QuotientOfSum(p: nat, flags: nat, mask: nat, half: nat)
    requires 0 < mask && 2 * half * mask == 0x400
    ensures (p * 0x400 + flags) / mask == 2 * (p * half) + flags / mask
  {
    Regroup(p, 2 * half, mask);
    Distribute(p * (2 * half), flags / mask, mask);
    QuotientIs(p * 0x400 + flags, mask, p * (2 * half) + flags / mask, flags % mask);
    Regroup(p, half, 2);
  }

  /** A flag bit below bit 10 does not see the page number above it. */
  lemma FlagOfSum(p: nat, flags: Word, mask: Word, half: nat)
    requires 0 < mask && 2 * half * mask == 0x400
    requires p * 0x400 + flags < 0x1_0000_0000
    ensures Flag(p * 0x400 + flags, mask) == Flag(flags, mask)
  {
    QuotientOfSum(p, flags, mask, half);
    EvenPlus(p * half, flags / mask);
  }

  /** Bits above the mask of pte_make play no part in a flag test. */
  lemma FlagOfMasked(flags: Word, mask: Word, half: nat)
    requires 0 < mask && 2 * half * mask == 0x400
    ensures Flag(flags % 0x400, mask) == Flag(flags, mask)
  {
    FlagOfSum(flags / 0x400, flags % 0x400, mask, half);
  }

  lemma PackedFlag(pa: Word, flags: Word, mask: Word, half: nat)
    requires 0 < mask && 2 * half * mask == 0x400
    ensures Flag(PteMake(pa, flags), mask) == Flag(flags, mask)
  {
    FlagOfSum(pa / 0x1000, flags % 0x400, mask, half);
    FlagOfMasked(flags, mask, half);
  }

  /** pte_ppn and every flag test recover what pte_make packed. */
  lemma PteRoundTrip(pa: Word, flags: Word)
    ensures PtePpn(PteMake(pa, flags)) == pa / 0x1000
    ensures Flag(PteMake(pa, flags), PTE_V) == Flag(flags, PTE_V)
    ensures Flag(PteMake(pa, flags), PTE_R) == Flag(flags, PTE_R)
    ensures Flag(PteMake(pa, flags), PTE_W) == Flag(flags, PTE_W)
    ensures Flag(PteMake(pa, flags), PTE_X) == Flag(flags, PTE_X)
    ensures Flag(PteMake(pa, flags), PTE_U) == Flag(flags, PTE_U)
    ensures Flag(PteMake(pa, flags), PTE_A) == Flag(flags, PTE_A)
    ensures Flag(PteMake(pa, flags), PTE_D) == Flag(flags, PTE_D)
  {
    PackedFlag(pa, flags, PTE_V, 0x200);
    PackedFlag(pa, flags, PTE_R, 0x100);
    PackedFlag(pa, flags, PTE_W, 0x80);
    PackedFlag(pa, flags, PTE_X, 0x40);
    PackedFlag(pa, flags, PTE_U, 0x20);
    PackedFlag(pa, flags, PTE_A, 0x8);
    PackedFlag(pa, flags, PTE_D, 0x4);
  }

  // ---------------------------------------------------------------------------
  // Little-endian words in memory
  // ---------------------------------------------------------------------------

  function Le32(m: Mem, o: nat): Word
    requires o + 4 <= |m|
  {
    Unpack(m[o..o + 4])
  }

  function SetLe32(m: Mem, o: nat, w: Word): (m': Mem)
    requires o + 4 <= |m|
    ensures |m'| == |m|
    ensures forall k :: 0 <= k < |m| && !(o <= k < o + 4) ==> m'[k] == m[k]
  {
    m[..o] + Pack(w) + m[o + 4..]
  }

  lemma ReadBack(m: Mem, o: nat, w: Word)
    requires o + 4 <= |m|
    ensures Le32(SetLe32(m, o, w), o) == w
  {
    assert SetLe32(m, o, w)[o..o + 4] == Pack(w);
    UnpackPack(w);
  }

  lemma ReadElsewhere(m: Mem, o: nat, w: Word, k: nat)
    requires o + 4 <= |m| && k + 4 <= |m| && (k + 4 <= o || o + 4 <= k)
    ensures Le32(SetLe32(m, o, w), k) == Le32(m, k)
  {
    assert SetLe32(m, o, w)[k..k + 4] == m[k..k + 4];
  }

  // ---------------------------------------------------------------------------
  // The two-level walk, section 4.3.2
  // ---------------------------------------------------------------------------

  datatype Access = Fetch | Load | Store
  datatype Priv = UMode | SMode
  /** Current privilege with the SUM and MXR bits of mstatus. */
  datatype Context = Context(priv: Priv, sum: bool, mxr: bool)
  /** Step 7: an implementation either faults on a clear A/D bit or sets it. */
  datatype AdPolicy = FaultOnAd | UpdateAd

  /** A translation gives the physical address and the memory the walk leaves behind. */
  datatype Outcome = Translated(pa: nat, mem: Mem) | PageFault | AccessFault

  function ReadWord(m: Mem, pa: nat): Option<Word> {
    if RAM_BASE <= pa && pa + 4 <= RAM_BASE + |m| then Some(Le32(m, pa - RAM_BASE)) else None
  }

  predicate Permitted(pte: Word, acc: Access, cx: Context) {
    && (if Flag(pte, PTE_U) then cx.priv == UMode || (cx.sum && acc != Fetch) else cx.priv == SMode)
    && match acc {
         case Fetch => Flag(pte, PTE_X)
         case Load => Flag(pte, PTE_R) || (cx.mxr && Flag(pte, PTE_X))
         case Store => Flag(pte, PTE_W)
       }
  }

  /** The leaf's value once the access has set A, and D for a store. */
  function WithAd(pte: Word, acc: Access): Word {
    var p := if Flag(pte, PTE_A) then pte else (pte + PTE_A) % 0x1_0000_0000;
    if acc == Store && !Flag(pte, PTE_D) then (p + PTE_D) % 0x1_0000_0000 else p
  }

  function Leaf(m: Mem, pteAddr: nat, pte: Word, level: nat, va: Word, acc: Access, cx: Context, ad: AdPolicy)
    : Outcome
    requires level <= 1
    requires RAM_BASE <= pteAddr && pteAddr + 4 <= RAM_BASE + |m|
  {
    if !Permitted(pte, acc, cx) then PageFault
    else if level == 1 && PtePpn(pte) % 0x400 != 0 then PageFault
    else
      var pa := if level == 1 then (PtePpn(pte) / 0x400) * 0x40_0000 + va % 0x40_0000
                else PtePpn(pte) * 0x1000 + va % 0x1000;
      if Flag(pte, PTE_A) && (acc == Store ==> Flag(pte, PTE_D)) then Translated(pa, m)
      else if ad == FaultOnAd then PageFault
      else Translated(pa, SetLe32(m, pteAddr - RAM_BASE, WithAd(pte, acc)))
  }

  function WalkLevel(m: Mem, table: nat, level: nat, va: Word, acc: Access, cx: Context, ad: AdPolicy): Outcome
    requires level <= 1
    decreases level
  {
    var pteAddr := table + 4 * Vpn(va, level);
    match ReadWord(m, pteAddr)
    case None => AccessFault
    case Some(pte) =>
      if !Flag(pte, PTE_V) || (!Flag(pte, PTE_R) && Flag(pte, PTE_W)) then PageFault
      else if Flag(pte, PTE_R) || Flag(pte, PTE_X) then Leaf(m, pteAddr, pte, level, va, acc, cx, ad)
      else if level == 0 then PageFault
      else WalkLevel(m, PtePpn(pte) * PAGE_SIZE, level - 1, va, acc, cx, ad)
  }

  /** Address translation for U and S mode. */
  function Walk(m: Mem, satp: Word, va: Word, acc: Access, cx: Context, ad: AdPolicy): Outcome {
    if SatpMode(satp) == 0 then Translated(va, m)
    else WalkLevel(m, SatpPpn(satp) * PAGE_SIZE, 1, va, acc, cx, ad)
  }
}
