/** dev/os/kernel/m_init.c steps 1-4 and 8: the three page tables the kernel builds
    in low memory, and what the Sv32 walk makes of them. */
module PageTables {
  import opened Wrappers
  import opened Words
  import opened Sv32

  const PA_L1_PT: Word := 0x8000_0000
  const PA_L0_KERNEL_PT: Word := 0x8000_1000
  const PA_L0_USER_PT: Word := 0x8000_2000
  const PA_USER_PROG: Word := 0x8000_8000
  const PA_USER_STACK: Word := 0x8001_0000
  const DDR_SIZE := 0x800_0000  // the 128 MB DDR3 window
  const RAM_USED := 0x1_1000  // RAM_BASE + RAM_USED is the end of the user stack page

  const RW: Word := 0xC7    // V R W A D
  const RWX: Word := 0xCF   // V R W X A D
  const RWU: Word := 0xD7   // V R W U A D
  const RWXU: Word := 0xDF  // V R W X U A D

  // ---------------------------------------------------------------------------
  // The documented memory map (the header comment of m_init.c)
  // ---------------------------------------------------------------------------

  /** A run of virtual addresses with its physical base, permissions and owner. */
  datatype Region = Region(lo: Word, hi: Word, pa: Word, x: bool, user: bool)

  /** The documented map. Every region is readable and writable. */
  function Documented(va: Word): Option<Region> {
    if va < 0x8000 then Some(Region(0, 0x8000, PA_USER_PROG, true, true))
    else if va < 0x9000 then Some(Region(0x8000, 0x9000, PA_USER_STACK, false, true))
    else if 0x1000_0000 <= va < 0x1040_0000 then Some(Region(0x1000_0000, 0x1040_0000, 0x1000_0000, false, false))
    else if 0x8000_0000 <= va < 0x8000_4000 then Some(Region(0x8000_0000, 0x8000_4000, 0x8000_0000, false, false))
    else if 0x8000_4000 <= va < 0x8000_7000 then Some(Region(0x8000_4000, 0x8000_7000, 0x8000_4000, true, false))
    else if 0x8000_7000 <= va < 0x8000_8000 then Some(Region(0x8000_7000, 0x8000_8000, 0x8000_7000, false, false))
    else if 0x8000_8000 <= va < 0x8001_0000 then Some(Region(0x8000_8000, 0x8001_0000, 0x8000_8000, true, false))
    else if 0x8001_0000 <= va < 0x8001_1000 then Some(Region(0x8001_0000, 0x8001_1000, 0x8001_0000, false, false))
    else None
  }

  /** Who may use a region: U mode its own regions, S mode the kernel's, and the user's
      data (never its code) when SUM is set. */
  predicate Allowed(r: Region, acc: Access, cx: Context) {
    && (acc == Fetch ==> r.x)
    && (if cx.priv == UMode then r.user else !r.user || (cx.sum && acc != Fetch))
  }

  /** What the documented map promises for one access. */
  function Promise(m: Mem, va: Word, acc: Access, cx: Context): Outcome {
    match Documented(va)
    case None => PageFault
    case Some(r) => if Allowed(r, acc, cx) then Translated(r.pa + (va - r.lo), m) else PageFault
  }

  // ---------------------------------------------------------------------------
  // The table contents
  // ---------------------------------------------------------------------------

  function L1Entry(i: nat): Word {
    if i == 0 then PteMake(PA_L0_USER_PT, PTE_V)
    else if i == 0x200 then PteMake(PA_L0_KERNEL_PT, PTE_V)
    else if i == 0x40 then PteMake(0x1000_0000, RW)
    else 0
  }

  function KernelEntry(i: nat): Word {
    if i < 0x11 then
      PteMake(0x8000_0000 + i * 0x1000, if 4 <= i < 7 || 8 <= i < 0x10 then RWX else RW)
    else 0
  }

  function UserEntry(i: nat): Word {
    if i < 8 then PteMake(PA_USER_PROG + i * 0x1000, RWXU)
    else if i == 8 then PteMake(PA_USER_STACK, RWU)
    else 0
  }

  /** Entry i of the table whose first byte is at offset `table` of memory. */
  function Entry(m: Mem, table: nat, i: nat): Word
    requires table + 0x1000 <= |m| && i < 0x400
  {
    Le32(m, table + 4 * i)
  }

  ghost predicate TablesBuilt(m: Mem) {
    && |m| >= RAM_USED
    && (forall i :: 0 <= i < 0x400 ==> Entry(m, 0x0000, i) == L1Entry(i))
    && (forall i :: 0 <= i < 0x400 ==> Entry(m, 0x1000, i) == KernelEntry(i))
    && (forall i :: 0 <= i < 0x400 ==> Entry(m, 0x2000, i) == UserEntry(i))
  }

  /** Tables depend on nothing but the first three pages. */
  lemma TablesFramed(m: Mem, m': Mem)
    requires TablesBuilt(m) && |m'| >= RAM_USED
    requires m'[..0x3000] == m[..0x3000]
    ensures TablesBuilt(m')
  {
    forall t, i | t in {0, 0x1000, 0x2000} && 0 <= i < 0x400
      ensures Entry(m', t, i) == Entry(m, t, i)
    {
      var o := t + 4 * i;
      assert m'[o..o + 4] == m'[..0x3000][o..o + 4] && m[o..o + 4] == m[..0x3000][o..o + 4];
    }
  }

  // ---------------------------------------------------------------------------
  // Building the tables in place
  // ---------------------------------------------------------------------------

  ghost predicate SameOutside(m: Mem, m': Mem, lo: nat, hi: nat) {
    |m'| == |m| && forall k :: 0 <= k < |m| && !(lo <= k < hi) ==> m'[k] == m[k]
  }

  ghost function Zeroed(m: Mem, o: nat, n: nat): (m': Mem)
    requires o + n <= |m|
  {
    m[..o] + seq(n, _ => 0) + m[o + n..]
  }

  /** Entries i0 .. i0 + n - 1 of a table map n consecutive pages from pa on. */
  ghost function Filled(m: Mem, table: nat, i0: nat, n: nat, pa: Word, flags: Word): (m': Mem)
    requires table + 0x1000 <= |m| && i0 + n <= 0x400 && pa + n * 0x1000 <= 0x1_0000_0000
    ensures |m'| == |m|
    decreases n
  {
    if n == 0 then m
    else SetLe32(Filled(m, table, i0, n - 1, pa, flags), table + 4 * (i0 + n - 1), PteMake(pa + (n - 1) * 0x1000, flags))
  }

  /** One store changes one entry of one table. */
  lemma StoreEntry(m: Mem, table: nat, i: nat, w: Word, table': nat, j: nat)
    requires table + 0x1000 <= |m| && i < 0x400 && table' + 0x1000 <= |m| && j < 0x400
    requires table' == table || table' + 0x1000 <= table || table + 0x1000 <= table'
    ensures Entry(SetLe32(m, table + 4 * i, w), table', j) == if table' == table && i == j then w else Entry(m, table', j)
  {
    hide SetLe32, Le32;
    ReadBack(m, table + 4 * i, w);
    if table' != table || i != j {
      ReadElsewhere(m, table + 4 * i, w, table' + 4 * j);
    }
  }

  lemma {:induction false} FilledEntry(m: Mem, table: nat, i0: nat, n: nat, pa: Word, flags: Word, table': nat, j: nat)
    requires table + 0x1000 <= |m| && i0 + n <= 0x400 && pa + n * 0x1000 <= 0x1_0000_0000
    requires table' + 0x1000 <= |m| && j < 0x400
    requires table' == table || table' + 0x1000 <= table || table + 0x1000 <= table'
    ensures Entry(Filled(m, table, i0, n, pa, flags), table', j)
         == if table' == table && i0 <= j < i0 + n then PteMake(pa + (j - i0) * 0x1000, flags) else Entry(m, table', j)
    decreases n
  {
    hide PteMake, Entry, SetLe32;
    if n > 0 {
      var w := PteMake(pa + (n - 1) * 0x1000, flags);
      FilledEntry(m, table, i0, n - 1, pa, flags, table', j);
      StoreEntry(Filled(m, table, i0, n - 1, pa, flags), table, i0 + n - 1, w, table', j);
      if table' == table && j == i0 + n - 1 {
        assert j - i0 == n - 1;
      }
    }
  }

  lemma {:induction false} FilledFrame(m: Mem, table: nat, i0: nat, n: nat, pa: Word, flags: Word)
    requires table + 0x1000 <= |m| && i0 + n <= 0x400 && pa + n * 0x1000 <= 0x1_0000_0000
    ensures SameOutside(m, Filled(m, table, i0, n, pa, flags), table, table + 0x1000)
    decreases n
  {
    if n > 0 {
      FilledFrame(m, table, i0, n - 1, pa, flags);
    }
  }

  /** mem_zero: n byte stores from dst on. */
  method MemZero(ram: array<Byte>, dst: Word, n: nat)
    requires RAM_BASE <= dst && dst - RAM_BASE + n <= ram.Length
    modifies ram
    ensures ram[..] == Zeroed(old(ram[..]), dst - RAM_BASE, n)
  {
    ghost var o := dst - RAM_BASE;
    var p, left: nat := dst - RAM_BASE, n;
    while left > 0
      invariant left <= n && p == o + (n - left)
      invariant forall k :: 0 <= k < ram.Length ==> ram[k] == if o <= k < p then 0 else old(ram[k])
    {
      left := left - 1;
      ram[p] := 0;
      p := p + 1;
    }
  }

  /** A 32-bit store to RAM. */
  method StoreWord(ram: array<Byte>, pa: Word, w: Word)
    requires RAM_BASE <= pa && pa - RAM_BASE + 4 <= ram.Length
    modifies ram
    ensures ram[..] == SetLe32(old(ram[..]), pa - RAM_BASE, w)
  {
    var o := pa - RAM_BASE;
    ram[o] := w % 0x100;
    ram[o + 1] := (w / 0x100) % 0x100;
    ram[o + 2] := (w / 0x1_0000) % 0x100;
    ram[o + 3] := w / 0x100_0000;
  }

  /** pt_map_fill: page-sized steps through [vaStart, vaEnd), one entry each. */
  method PtMapFill(ram: array<Byte>, l0: Word, vaStart: Word, vaEnd: Word, paStart: Word, flags: Word)
    requires RAM_BASE <= l0 && l0 - RAM_BASE + 0x1000 <= ram.Length <= DDR_SIZE
    requires vaStart % 0x1000 == 0 && vaEnd % 0x1000 == 0 && vaStart <= vaEnd
    requires Vpn(vaStart, 0) + (vaEnd - vaStart) / 0x1000 <= 0x400
    requires paStart + (vaEnd - vaStart) < 0x1_0000_0000
    modifies ram
    ensures ram[..] == Filled(old(ram[..]), l0 - RAM_BASE, Vpn(vaStart, 0), (vaEnd - vaStart) / 0x1000, paStart, flags)
  {
    hide PteMake, SetLe32;
    var va, pa := vaStart, paStart;
    ghost var n: nat := 0;
    while va < vaEnd
      invariant va == vaStart + n * 0x1000 <= vaEnd && pa == paStart + n * 0x1000
      invariant ram[..] == Filled(old(ram[..]), l0 - RAM_BASE, Vpn(vaStart, 0), n, paStart, flags)
    {
      NextVpn(vaStart, n);
      StoreWord(ram, l0 + 4 * Vpn(va, 0), PteMake(pa, flags));
      va, pa, n := va + PAGE_SIZE, pa + PAGE_SIZE, n + 1;
    }
  }

  lemma NextVpn(va: Word, n: nat)
    requires va % 0x1000 == 0 && va + n * 0x1000 < 0x1_0000_0000 && Vpn(va, 0) + n < 0x400
    ensures Vpn(va + n * 0x1000, 0) == Vpn(va, 0) + n
  {
    assert (va + n * 0x1000) / 0x1000 == va / 0x1000 + n;
  }

  /** pt_identity_fill: the same with pa == va. */
  method PtIdentityFill(ram: array<Byte>, l0: Word, paStart: Word, paEnd: Word, flags: Word)
    requires RAM_BASE <= l0 && l0 - RAM_BASE + 0x1000 <= ram.Length <= DDR_SIZE
    requires paStart % 0x1000 == 0 && paEnd % 0x1000 == 0 && paStart <= paEnd
    requires Vpn(paStart, 0) + (paEnd - paStart) / 0x1000 <= 0x400
    modifies ram
    ensures ram[..] == Filled(old(ram[..]), l0 - RAM_BASE, Vpn(paStart, 0), (paEnd - paStart) / 0x1000, paStart, flags)
  {
    hide PteMake, SetLe32;
    var pa := paStart;
    ghost var n: nat := 0;
    while pa < paEnd
      invariant pa == paStart + n * 0x1000 <= paEnd
      invariant ram[..] == Filled(old(ram[..]), l0 - RAM_BASE, Vpn(paStart, 0), n, paStart, flags)
    {
      NextVpn(paStart, n);
      StoreWord(ram, l0 + 4 * Vpn(pa, 0), PteMake(pa, flags));
      pa, n := pa + PAGE_SIZE, n + 1;
    }
  }

  /** Steps 1-4 and 8 of m_init: zero three pages, build the three tables, form satp. */
  method MInit(ram: array<Byte>) returns (satp: Word)
    requires RAM_USED <= ram.Length <= DDR_SIZE
    modifies ram
    ensures satp == SATP
    ensures TablesBuilt(ram[..])
    ensures ram[0x3000..] == old(ram[0x3000..])
  {
    hide PteMake, SetLe32, Entry, Filled, Zeroed;
    ghost var m0 := ram[..];
    MemZero(ram, PA_L1_PT, PAGE_SIZE);
    MemZero(ram, PA_L0_KERNEL_PT, PAGE_SIZE);
    MemZero(ram, PA_L0_USER_PT, PAGE_SIZE);
    ghost var m1 := ram[..];
    ThreePagesZeroed(m0);

    StoreWord(ram, PA_L1_PT + 4 * Vpn(0x0000_0000, 1), PteMake(PA_L0_USER_PT, PTE_V));
    StoreWord(ram, PA_L1_PT + 4 * Vpn(0x8000_0000, 1), PteMake(PA_L0_KERNEL_PT, PTE_V));
    StoreWord(ram, PA_L1_PT + 4 * Vpn(0x1000_0000, 1), PteMake(0x1000_0000, RW));
    ghost var m2 := ram[..];
    RootBuilt(m1);

    PtIdentityFill(ram, PA_L0_KERNEL_PT, 0x8000_0000, 0x8000_3000, RW);
    PtIdentityFill(ram, PA_L0_KERNEL_PT, 0x8000_3000, 0x8000_4000, RW);
    PtIdentityFill(ram, PA_L0_KERNEL_PT, 0x8000_4000, 0x8000_7000, RWX);
    PtIdentityFill(ram, PA_L0_KERNEL_PT, 0x8000_7000, 0x8000_8000, RW);
    PtIdentityFill(ram, PA_L0_KERNEL_PT, 0x8000_8000, 0x8001_0000, RWX);
    PtIdentityFill(ram, PA_L0_KERNEL_PT, 0x8001_0000, 0x8001_1000, RW);
    ghost var m3 := ram[..];
    KernelBuilt(m2);

    PtMapFill(ram, PA_L0_USER_PT, 0x0000_0000, 0x0000_8000, 0x8000_8000, RWXU);
    PtMapFill(ram, PA_L0_USER_PT, 0x0000_8000, 0x0000_9000, 0x8001_0000, RWU);
    UserBuilt(m3);
    assert ram[..][0x3000..] == m0[0x3000..];

    satp := SatpMake(1, 0, PA_L1_PT);
  }

  // The tables after each step. `Blank` tables are all zero.

  ghost predicate Blank(m: Mem, table: nat)
    requires table + 0x1000 <= |m|
  {
    forall i :: 0 <= i < 0x400 ==> Entry(m, table, i) == 0
  }

  lemma ThreePagesZeroed(m: Mem)
    requires |m| >= RAM_USED
    ensures var m' := Zeroed(Zeroed(Zeroed(m, 0, 0x1000), 0x1000, 0x1000), 0x2000, 0x1000);
            Blank(m', 0) && Blank(m', 0x1000) && Blank(m', 0x2000) && SameOutside(m, m', 0, 0x3000)
  {
    var m' := Zeroed(Zeroed(Zeroed(m, 0, 0x1000), 0x1000, 0x1000), 0x2000, 0x1000);
    assert forall k :: 0 <= k < 0x3000 ==> m'[k] == 0;
  }

  /** The three stores of step 2. */
  ghost function Root(m: Mem): (m': Mem)
    requires |m| >= RAM_USED
    ensures |m'| == |m|
  {
    SetLe32(SetLe32(SetLe32(m, 0, PteMake(PA_L0_USER_PT, PTE_V)), 4 * 0x200, PteMake(PA_L0_KERNEL_PT, PTE_V)),
            4 * 0x40, PteMake(0x1000_0000, RW))
  }

  lemma RootBuilt(m: Mem)
    requires |m| >= RAM_USED && Blank(m, 0) && Blank(m, 0x1000) && Blank(m, 0x2000)
    ensures forall i :: 0 <= i < 0x400 ==> Entry(Root(m), 0, i) == L1Entry(i)
    ensures Blank(Root(m), 0x1000) && Blank(Root(m), 0x2000) && SameOutside(m, Root(m), 0, 0x1000)
  {
    var w0, w1, w2 := PteMake(PA_L0_USER_PT, PTE_V), PteMake(PA_L0_KERNEL_PT, PTE_V), PteMake(0x1000_0000, RW);
    var m1 := SetLe32(m, 0, w0);
    var m2 := SetLe32(m1, 4 * 0x200, w1);
    hide SetLe32, PteMake;
    forall t, i | t in {0, 0x1000, 0x2000} && 0 <= i < 0x400
      ensures Entry(Root(m), t, i) == if t == 0 then L1Entry(i) else Entry(m, t, i)
    {
      StoreEntry(m, 0, 0, w0, t, i);
      StoreEntry(m1, 0, 0x200, w1, t, i);
      StoreEntry(m2, 0, 0x40, w2, t, i);
    }
  }

  /** The six fills of step 3. */
  ghost function KernelFilled(m: Mem): (m': Mem)
    requires |m| >= RAM_USED
    ensures |m'| == |m|
  {
    var a := Filled(m, 0x1000, 0, 3, 0x8000_0000, RW);
    var b := Filled(a, 0x1000, 3, 1, 0x8000_3000, RW);
    var c := Filled(b, 0x1000, 4, 3, 0x8000_4000, RWX);
    var d := Filled(c, 0x1000, 7, 1, 0x8000_7000, RW);
    var e := Filled(d, 0x1000, 8, 8, 0x8000_8000, RWX);
    Filled(e, 0x1000, 0x10, 1, 0x8001_0000, RW)
  }

  lemma KernelBuilt(m: Mem)
    requires |m| >= RAM_USED && Blank(m, 0x1000) && Blank(m, 0x2000)
    requires forall i :: 0 <= i < 0x400 ==> Entry(m, 0, i) == L1Entry(i)
    ensures forall i :: 0 <= i < 0x400 ==> Entry(KernelFilled(m), 0, i) == L1Entry(i)
    ensures forall i :: 0 <= i < 0x400 ==> Entry(KernelFilled(m), 0x1000, i) == KernelEntry(i)
    ensures Blank(KernelFilled(m), 0x2000) && SameOutside(m, KernelFilled(m), 0x1000, 0x2000)
  {
    hide Entry, Filled, PteMake;
    var a := Filled(m, 0x1000, 0, 3, 0x8000_0000, RW);
    var b := Filled(a, 0x1000, 3, 1, 0x8000_3000, RW);
    var c := Filled(b, 0x1000, 4, 3, 0x8000_4000, RWX);
    var d := Filled(c, 0x1000, 7, 1, 0x8000_7000, RW);
    var e := Filled(d, 0x1000, 8, 8, 0x8000_8000, RWX);
    forall t, i | t in {0, 0x1000, 0x2000} && 0 <= i < 0x400
      ensures Entry(KernelFilled(m), t, i) == if t == 0x1000 then KernelEntry(i) else Entry(m, t, i)
    {
      FilledEntry(m, 0x1000, 0, 3, 0x8000_0000, RW, t, i);
      FilledEntry(a, 0x1000, 3, 1, 0x8000_3000, RW, t, i);
      FilledEntry(b, 0x1000, 4, 3, 0x8000_4000, RWX, t, i);
      FilledEntry(c, 0x1000, 7, 1, 0x8000_7000, RW, t, i);
      FilledEntry(d, 0x1000, 8, 8, 0x8000_8000, RWX, t, i);
      FilledEntry(e, 0x1000, 0x10, 1, 0x8001_0000, RW, t, i);
    }
    FilledFrame(m, 0x1000, 0, 3, 0x8000_0000, RW);
    FilledFrame(a, 0x1000, 3, 1, 0x8000_3000, RW);
    FilledFrame(b, 0x1000, 4, 3, 0x8000_4000, RWX);
    FilledFrame(c, 0x1000, 7, 1, 0x8000_7000, RW);
    FilledFrame(d, 0x1000, 8, 8, 0x8000_8000, RWX);
    FilledFrame(e, 0x1000, 0x10, 1, 0x8001_0000, RW);
  }

  /** The two fills of step 4. */
  ghost function UserFilled(m: Mem): (m': Mem)
    requires |m| >= RAM_USED
    ensures |m'| == |m|
  {
    Filled(Filled(m, 0x2000, 0, 8, PA_USER_PROG, RWXU), 0x2000, 8, 1, PA_USER_STACK, RWU)
  }

  lemma UserBuilt(m: Mem)
    requires |m| >= RAM_USED && Blank(m, 0x2000)
    requires forall i :: 0 <= i < 0x400 ==> Entry(m, 0, i) == L1Entry(i)
    requires forall i :: 0 <= i < 0x400 ==> Entry(m, 0x1000, i) == KernelEntry(i)
    ensures TablesBuilt(UserFilled(m)) && SameOutside(m, UserFilled(m), 0x2000, 0x3000)
  {
    hide Entry, Filled, PteMake;
    var a := Filled(m, 0x2000, 0, 8, PA_USER_PROG, RWXU);
    forall t, i | t in {0, 0x1000, 0x2000} && 0 <= i < 0x400
      ensures Entry(UserFilled(m), t, i) == if t == 0x2000 then UserEntry(i) else Entry(m, t, i)
    {
      FilledEntry(m, 0x2000, 0, 8, PA_USER_PROG, RWXU, t, i);
      FilledEntry(a, 0x2000, 8, 1, PA_USER_STACK, RWU, t, i);
    }
    FilledFrame(m, 0x2000, 0, 8, PA_USER_PROG, RWXU);
    FilledFrame(a, 0x2000, 8, 1, PA_USER_STACK, RWU);
  }

  // ---------------------------------------------------------------------------
  // The walk over those tables is the documented map
  // ---------------------------------------------------------------------------

  const SATP: Word := SatpMake(1, 0, PA_L1_PT)

  /** What the four leaf flag sets mean. */
  lemma LeafFlags(flags: Word)
    requires flags in {RW, RWX, RWU, RWXU}
    ensures Flag(flags, PTE_V) && Flag(flags, PTE_R) && Flag(flags, PTE_W)
    ensures Flag(flags, PTE_A) && Flag(flags, PTE_D)
    ensures Flag(flags, PTE_X) == (flags in {RWX, RWXU})
    ensures Flag(flags, PTE_U) == (flags in {RWU, RWXU})
  {
  }

  /** A leaf entry as m_init writes it: readable, writable, A and D already set. */
  ghost predicate FreshLeaf(pte: Word, ppn: nat, x: bool, user: bool) {
    && PtePpn(pte) == ppn
    && Flag(pte, PTE_V) && Flag(pte, PTE_R) && Flag(pte, PTE_W) && Flag(pte, PTE_A) && Flag(pte, PTE_D)
    && Flag(pte, PTE_X) == x && Flag(pte, PTE_U) == user
  }

  lemma MakesFreshLeaf(pa: Word, flags: Word)
    requires flags in {RW, RWX, RWU, RWXU}
    ensures FreshLeaf(PteMake(pa, flags), pa / 0x1000, flags in {RWX, RWXU}, flags in {RWU, RWXU})
  {
    LeafFlags(flags);
    PteRoundTrip(pa, flags);
  }

  lemma FreshLeafPermits(pte: Word, ppn: nat, x: bool, user: bool, acc: Access, cx: Context)
    requires FreshLeaf(pte, ppn, x, user)
    ensures Permitted(pte, acc, cx) == Allowed(Region(0, 0, 0, x, user), acc, cx)
  {
  }

  /** A fresh leaf translates exactly when the permissions allow it, and the walk writes
      nothing whatever the A/D policy is. */
  lemma FreshLeafTranslates(m: Mem, pteAddr: nat, pte: Word, ppn: nat, x: bool, user: bool,
                            level: nat, va: Word, acc: Access, cx: Context, ad: AdPolicy)
    requires level <= 1 && FreshLeaf(pte, ppn, x, user)
    requires RAM_BASE <= pteAddr && pteAddr + 4 <= RAM_BASE + |m|
    requires level == 1 ==> ppn % 0x400 == 0
    ensures Leaf(m, pteAddr, pte, level, va, acc, cx, ad)
         == if Allowed(Region(0, 0, 0, x, user), acc, cx)
            then Translated(ppn * 0x1000 + (if level == 1 then va % 0x40_0000 else va % 0x1000), m) else PageFault
  {
    FreshLeafPermits(pte, ppn, x, user, acc, cx);
  }

  /** The three things one level of the walk can meet in these tables. */
  lemma MeetsLeaf(m: Mem, table: nat, level: nat, pte: Word, ppn: nat, x: bool, user: bool,
                  va: Word, acc: Access, cx: Context, ad: AdPolicy)
    requires level <= 1 && FreshLeaf(pte, ppn, x, user)
    requires ReadWord(m, table + 4 * Vpn(va, level)) == Some(pte)
    requires level == 1 ==> ppn % 0x400 == 0
    ensures WalkLevel(m, table, level, va, acc, cx, ad)
         == if Allowed(Region(0, 0, 0, x, user), acc, cx)
            then Translated(ppn * 0x1000 + (if level == 1 then va % 0x40_0000 else va % 0x1000), m) else PageFault
  {
    FreshLeafTranslates(m, table + 4 * Vpn(va, level), pte, ppn, x, user, level, va, acc, cx, ad);
  }

  lemma MeetsPointer(m: Mem, table: nat, next: Word, va: Word, acc: Access, cx: Context, ad: AdPolicy)
    requires next % 0x1000 == 0
    requires ReadWord(m, table + 4 * Vpn(va, 1)) == Some(PteMake(next, PTE_V))
    ensures WalkLevel(m, table, 1, va, acc, cx, ad) == WalkLevel(m, next, 0, va, acc, cx, ad)
  {
    PteRoundTrip(next, PTE_V);
    PointerFlags();
  }

  lemma PointerFlags()
    ensures Flag(PTE_V, PTE_V) && !Flag(PTE_V, PTE_R) && !Flag(PTE_V, PTE_W) && !Flag(PTE_V, PTE_X)
  {
  }

  lemma MeetsNothing(m: Mem, table: nat, level: nat, va: Word, acc: Access, cx: Context, ad: AdPolicy)
    requires level <= 1 && ReadWord(m, table + 4 * Vpn(va, level)) == Some(0)
    ensures WalkLevel(m, table, level, va, acc, cx, ad) == PageFault
  {
  }

  lemma ReadsEntry(m: Mem, table: nat, i: nat)
    requires table + 0x1000 <= |m| && i < 0x400
    ensures ReadWord(m, RAM_BASE + table + 4 * i) == Some(Entry(m, table, i))
  {
  }

  // The documented map, page by page.

  lemma UserPage(m: Mem, va: Word, acc: Access, cx: Context, i: nat)
    requires va < 0x40_0000 && i == Vpn(va, 0)
    ensures i >= 9 ==> Promise(m, va, acc, cx) == PageFault
    ensures i < 9 ==>
              Promise(m, va, acc, cx) == (if Allowed(Region(0, 0, 0, i < 8, true), acc, cx)
                then Translated((0x8_0008 + i) * 0x1000 + va % 0x1000, m) else PageFault)
  {
    assert va == i * 0x1000 + va % 0x1000;
  }

  lemma KernelPage(m: Mem, va: Word, acc: Access, cx: Context, i: nat)
    requires 0x8000_0000 <= va < 0x8040_0000 && i == Vpn(va, 0)
    ensures i >= 0x11 ==> Promise(m, va, acc, cx) == PageFault
    ensures i < 0x11 ==>
              Promise(m, va, acc, cx) == (if Allowed(Region(0, 0, 0, 4 <= i < 7 || 8 <= i < 0x10, false), acc, cx)
                then Translated((0x8_0000 + i) * 0x1000 + va % 0x1000, m) else PageFault)
  {
    assert va == 0x8000_0000 + i * 0x1000 + va % 0x1000;
  }

  lemma Megapage(m: Mem, va: Word, acc: Access, cx: Context, i: nat)
    requires i == Vpn(va, 1) && i !in {0, 0x200}
    ensures i != 0x40 ==> Promise(m, va, acc, cx) == PageFault
    ensures i == 0x40 ==>
              Promise(m, va, acc, cx) == (if Allowed(Region(0, 0, 0, false, false), acc, cx)
                then Translated(0x1_0000 * 0x1000 + va % 0x40_0000, m) else PageFault)
  {
    assert va == i * 0x40_0000 + va % 0x40_0000;
  }

  /** For every address, access, privilege, SUM, MXR and A/D policy, the walk over the
      built tables is the documented map; it never changes memory. */
  lemma WalkIsDocumented(m: Mem, va: Word, acc: Access, cx: Context, ad: AdPolicy)
    requires TablesBuilt(m)
    ensures Walk(m, SATP, va, acc, cx, ad) == Promise(m, va, acc, cx)
  {
    SatpRoundTrip(1, 0, PA_L1_PT);
    RootLevel(m, va, acc, cx, ad);
  }

  lemma RootEntry(m: Mem, va: Word, i: nat)
    requires TablesBuilt(m) && i == Vpn(va, 1)
    ensures ReadWord(m, RAM_BASE + 4 * i) == Some(L1Entry(i))
    ensures i == 0 ==> va < 0x40_0000
    ensures i == 0x200 ==> 0x8000_0000 <= va < 0x8040_0000
  {
    ReadsEntry(m, 0, i);
    assert Entry(m, 0, i) == L1Entry(i);
  }

  lemma RootLevel(m: Mem, va: Word, acc: Access, cx: Context, ad: AdPolicy)
    requires TablesBuilt(m)
    ensures WalkLevel(m, RAM_BASE, 1, va, acc, cx, ad) == Promise(m, va, acc, cx)
  {
    var i := Vpn(va, 1);
    RootEntry(m, va, i);
    if i == 0 {
      MeetsPointer(m, RAM_BASE, PA_L0_USER_PT, va, acc, cx, ad);
      UserLevel(m, va, acc, cx, ad);
    } else if i == 0x200 {
      MeetsPointer(m, RAM_BASE, PA_L0_KERNEL_PT, va, acc, cx, ad);
      KernelLevel(m, va, acc, cx, ad);
    } else {
      Megapage(m, va, acc, cx, i);
      if i == 0x40 {
        MakesFreshLeaf(0x1000_0000, RW);
        MeetsLeaf(m, RAM_BASE, 1, PteMake(0x1000_0000, RW), 0x1_0000, false, false, va, acc, cx, ad);
      } else {
        MeetsNothing(m, RAM_BASE, 1, va, acc, cx, ad);
      }
    }
  }

  lemma UserLevel(m: Mem, va: Word, acc: Access, cx: Context, ad: AdPolicy)
    requires TablesBuilt(m) && va < 0x40_0000
    ensures WalkLevel(m, PA_L0_USER_PT, 0, va, acc, cx, ad) == Promise(m, va, acc, cx)
  {
    var i := Vpn(va, 0);
    ReadsEntry(m, 0x2000, i);
    assert Entry(m, 0x2000, i) == UserEntry(i);
    UserPage(m, va, acc, cx, i);
    if i < 9 {
      var flags := if i < 8 then RWXU else RWU;
      MakesFreshLeaf((0x8_0008 + i) * 0x1000, flags);
      MeetsLeaf(m, PA_L0_USER_PT, 0, UserEntry(i), 0x8_0008 + i, i < 8, true, va, acc, cx, ad);
    } else {
      MeetsNothing(m, PA_L0_USER_PT, 0, va, acc, cx, ad);
    }
  }

  lemma KernelLevel(m: Mem, va: Word, acc: Access, cx: Context, ad: AdPolicy)
    requires TablesBuilt(m) && 0x8000_0000 <= va < 0x8040_0000
    ensures WalkLevel(m, PA_L0_KERNEL_PT, 0, va, acc, cx, ad) == Promise(m, va, acc, cx)
  {
    var i := Vpn(va, 0);
    ReadsEntry(m, 0x1000, i);
    assert Entry(m, 0x1000, i) == KernelEntry(i);
    KernelPage(m, va, acc, cx, i);
    if i < 0x11 {
      var x := 4 <= i < 7 || 8 <= i < 0x10;
      MakesFreshLeaf((0x8_0000 + i) * 0x1000, if x then RWX else RW);
      MeetsLeaf(m, PA_L0_KERNEL_PT, 0, KernelEntry(i), 0x8_0000 + i, x, false, va, acc, cx, ad);
    } else {
      MeetsNothing(m, PA_L0_KERNEL_PT, 0, va, acc, cx, ad);
    }
  }
}
