/** The S-mode kernel of SimpleOS once paging is on: dev/os/kernel/trap.c and
    dev/os/kernel/syscall.c, running over the tables PageTables.MInit builds.

    The UART is an endless input stream with a cursor and an output sequence. */
module Kernel {
  import opened Words
  import opened Sv32
  import opened PageTables
  import opened Numerals

  const PA_SELF_CHECK: Word := 0x8000_7000
  const USER_TOP: Word := 0x9000

  const SYS_EXIT: Word := 2
  const SYS_READ: Word := 7
  const SYS_WRITE: Word := 8
  const SYS_REPORT: Word := 9

  const CAUSE_BREAK: Word := 3
  const CAUSE_ECALL_U: Word := 8
  const CAUSE_PAGE_FAULT_I: Word := 12
  const CAUSE_PAGE_FAULT_L: Word := 13
  const CAUSE_PAGE_FAULT_S: Word := 15

  const MINUS_ONE: Word := 0xFFFF_FFFF

  const USER := Context(UMode, false, false)
  const SUPERVISOR := Context(SMode, false, false)

  /** What a trap handler can change apart from the trap frame. */
  datatype State = State(mem: Mem, inPos: nat, out: seq<Byte>, halted: bool)

  /** The saved context: gpr[n - 1] is register xn. */
  datatype Frame = Frame(gpr: seq<Word>, sepc: Word, sstatus: Word, scause: Word, stval: Word)

  function Ascii(s: string): (b: seq<Byte>)
    ensures |b| == |s|
  {
    seq(|s|, i requires 0 <= i < |s| => s[i] as int % 0x100)
  }

  // ---------------------------------------------------------------------------
  // Memory as the user's page table shows it
  // ---------------------------------------------------------------------------

  /** U mode reaches exactly [0, 0x9000) for loads and stores, and lands inside the ten
      user pages; code runs only from the program pages. No page table, kernel, self-check
      or device address is among them. */
  lemma UserAddresses(m: Mem, va: Word, acc: Access, ad: AdPolicy)
    requires TablesBuilt(m)
    ensures Walk(m, SATP, va, acc, USER, ad)
         == if va < (if acc == Fetch then 0x8000 else USER_TOP) then Translated(PA_USER_PROG + va, m) else PageFault
  {
    hide Walk, TablesBuilt;
    WalkIsDocumented(m, va, acc, USER, ad);
  }

  /** S mode with SUM clear reaches exactly the UART and the seventeen pages from 0x80000000
      on, at their own addresses, and executes only kernel text and the user's program pages. */
  lemma SupervisorAddresses(m: Mem, va: Word, acc: Access, ad: AdPolicy)
    requires TablesBuilt(m)
    ensures Walk(m, SATP, va, acc, SUPERVISOR, ad) ==
            if (if acc == Fetch then 0x8000_4000 <= va < 0x8000_7000 || 0x8000_8000 <= va < 0x8001_0000
                else 0x1000_0000 <= va < 0x1040_0000 || 0x8000_0000 <= va < 0x8001_1000)
            then Translated(va, m) else PageFault
  {
    hide Walk, TablesBuilt;
    WalkIsDocumented(m, va, acc, SUPERVISOR, ad);
  }

  /** The byte the user sees at va. */
  ghost function UserByte(m: Mem, va: Word): Byte
    requires TablesBuilt(m) && va < USER_TOP
  {
    UserAddresses(m, va, Load, FaultOnAd);
    m[Walk(m, SATP, va, Load, USER, FaultOnAd).pa - RAM_BASE]
  }

  /** The bytes the user sees from va on. */
  ghost function UserBytes(m: Mem, va: Word, len: nat): (b: seq<Byte>)
    requires TablesBuilt(m) && va + len <= USER_TOP
    ensures |b| == len
  {
    seq<Byte>(len, i requires 0 <= i < len => UserByte(m, va + i))
  }

  /** m' is m after the user's bytes from va on become `data`, and nothing else changes. */
  ghost predicate UserWritten(m: Mem, m': Mem, va: Word, data: seq<Byte>)
    requires TablesBuilt(m) && va + |data| <= USER_TOP
  {
    && |m'| == |m|
    && TablesBuilt(m')
    && UserBytes(m', va, |data|) == data
    && SameOutside(m, m', PA_USER_PROG - RAM_BASE + va, PA_USER_PROG - RAM_BASE + va + |data|)
  }

  /** Those bytes are one run of physical memory, whichever pages they cross. */
  lemma UserBytesAreContiguous(m: Mem, va: Word, len: nat)
    requires TablesBuilt(m) && va + len <= USER_TOP
    ensures UserBytes(m, va, len) == m[0x8000 + va..0x8000 + va + len]
  {
    hide WalkLevel;
    forall i | 0 <= i < len
      ensures UserBytes(m, va, len)[i] == m[0x8000 + va + i]
    {
      UserAddresses(m, va + i, Load, FaultOnAd);
      assert UserByte(m, va + i) == m[Walk(m, SATP, va + i, Load, USER, FaultOnAd).pa - RAM_BASE];
      assert Walk(m, SATP, va + i, Load, USER, FaultOnAd) == Translated(PA_USER_PROG + (va + i), m);
    }
  }

  lemma RamIsLargeEnough(m: Mem)
    requires TablesBuilt(m)
    ensures |m| >= RAM_USED
  {
  }

  /** The kernel's alias of a user address: user_va + PA_USER_PROG, modulo 2^32. */
  function Alias(va: Word): Word {
    (va + PA_USER_PROG) % 0x1_0000_0000
  }

  lemma AliasPromise(m: Mem, va: Word, acc: Access)
    requires acc != Fetch
    ensures Promise(m, va, acc, USER) == if va < USER_TOP then Translated(PA_USER_PROG + va, m) else PageFault
    ensures Promise(m, Alias(va), acc, SUPERVISOR)
         == if va < USER_TOP then Translated(PA_USER_PROG + va, m)
            else if 0x1000_0000 <= Alias(va) < 0x1040_0000 || 0x8000_0000 <= Alias(va) < PA_USER_PROG
            then Translated(Alias(va), m)
            else PageFault
  {
  }

  /** In S mode with SUM clear the alias reaches, for loads and stores alike, the byte the
      user's table gives for the address; outside the user window it reaches no user byte:
      it faults, or lands on a device or kernel page below the user's. */
  lemma AliasWalk(m: Mem, va: Word, acc: Access, ad: AdPolicy)
    requires TablesBuilt(m) && acc != Fetch
    ensures Walk(m, SATP, Alias(va), acc, SUPERVISOR, ad)
         == if va < USER_TOP then Walk(m, SATP, va, acc, USER, ad)
            else if 0x1000_0000 <= Alias(va) < 0x1040_0000 || 0x8000_0000 <= Alias(va) < PA_USER_PROG
            then Translated(Alias(va), m)
            else PageFault
    ensures Walk(m, SATP, va, acc, USER, ad).Translated? <==> va < USER_TOP
  {
    hide Walk, TablesBuilt, Promise, Alias;
    WalkIsDocumented(m, va, acc, USER, ad);
    WalkIsDocumented(m, Alias(va), acc, SUPERVISOR, ad);
    AliasPromise(m, va, acc);
  }

  /** The i-th address of a run of bytes. */
  function Nth(va: Word, i: nat): Word {
    (va + i) % 0x1_0000_0000
  }

  /** A buffer the syscalls may touch: one the user itself can touch, byte by byte. */
  predicate InWindow(va: Word, len: Word) {
    len == 0 || va + len <= USER_TOP
  }

  lemma WindowByByte(va: Word, len: Word)
    ensures InWindow(va, len) <==> forall i :: 0 <= i < len ==> Nth(va, i) < USER_TOP
  {
    if !InWindow(va, len) {
      var i := if va >= USER_TOP then 0 else USER_TOP - va;
      assert !(Nth(va, i) < USER_TOP);
    }
  }

  lemma WindowIsUserAccessible(m: Mem, va: Word, len: Word, acc: Access, ad: AdPolicy)
    requires TablesBuilt(m) && acc != Fetch
    ensures InWindow(va, len)
       <==> forall i :: 0 <= i < len ==> Walk(m, SATP, Nth(va, i), acc, USER, ad).Translated?
  {
    hide Walk, TablesBuilt, InWindow, Nth;
    WindowByByte(va, len);
    forall i | 0 <= i < len
      ensures Walk(m, SATP, Nth(va, i), acc, USER, ad).Translated? <==> Nth(va, i) < USER_TOP
    {
      UserAddresses(m, Nth(va, i), acc, ad);
    }
  }

  // ---------------------------------------------------------------------------
  // What a trap does
  // ---------------------------------------------------------------------------

  /** The self-check words: total, passed, first failure. */
  ghost function SelfCheck(m: Mem, pass: Word, total: Word, firstFail: Word): (m': Mem)
    requires |m| >= RAM_USED
    ensures |m'| == |m|
  {
    var o := PA_SELF_CHECK - RAM_BASE;
    SetLe32(SetLe32(SetLe32(m, o, total), o + 4, pass), o + 8, firstFail)
  }

  /** The words the testbench reads: from 0x80007000 on total, passed, first failure. */
  ghost predicate Reported(m: Mem, m': Mem, pass: Word, total: Word, firstFail: Word) {
    && |m'| == |m| && |m| >= 0x700C
    && Le32(m', 0x7000) == total && Le32(m', 0x7004) == pass && Le32(m', 0x7008) == firstFail
    && forall k :: 0 <= k < |m| && !(0x7000 <= k < 0x700C) ==> m'[k] == m[k]
  }

  lemma SelfCheckReports(m: Mem, pass: Word, total: Word, firstFail: Word)
    requires |m| >= RAM_USED
    ensures Reported(m, SelfCheck(m, pass, total, firstFail), pass, total, firstFail)
  {
    hide SetLe32, Le32;
    var a := SetLe32(m, 0x7000, total);
    var b := SetLe32(a, 0x7004, pass);
    ReadBack(m, 0x7000, total);
    ReadBack(a, 0x7004, pass);
    ReadBack(b, 0x7008, firstFail);
    ReadElsewhere(a, 0x7004, pass, 0x7000);
    ReadElsewhere(b, 0x7008, firstFail, 0x7000);
    ReadElsewhere(b, 0x7008, firstFail, 0x7004);
  }

  predicate ValidFrame(f: Frame) {
    |f.gpr| == 31
  }

  /** The one thing the kernel asks of a caller: read and write buffers lie in the window. */
  predicate BufferOk(f: Frame)
    requires ValidFrame(f)
  {
    var num, fd := f.gpr[16], f.gpr[9];
    (num == SYS_WRITE && fd == 1) || (num == SYS_READ && fd == 0) ==> InWindow(f.gpr[10], f.gpr[11])
  }

  predicate CallerOk(f: Frame)
    requires ValidFrame(f)
  {
    f.scause == CAUSE_ECALL_U ==> BufferOk(f)
  }

  /** The bytes a read stores: the next len bytes of the input stream. */
  function Received(input: nat -> Byte, pos: nat, len: nat): (b: seq<Byte>)
    ensures |b| == len
  {
    seq<Byte>(len, i requires 0 <= i < len => input(pos + i))
  }

  function Returns(f: Frame, a0: Word): Frame
    requires ValidFrame(f)
  {
    f.(gpr := f.gpr[9 := a0])
  }

  /** The relation between the states before and after a system call, in terms of the
      memory the user sees. */
  ghost predicate SyscallDone(input: nat -> Byte, s: State, f: Frame, s': State, f': Frame)
    requires TablesBuilt(s.mem) && ValidFrame(f) && BufferOk(f)
  {
    var num, a0, a1, a2 := f.gpr[16], f.gpr[9], f.gpr[10], f.gpr[11];
    if num == SYS_WRITE then
      s'.mem == s.mem && s'.inPos == s.inPos && s'.halted == s.halted &&
      if a0 == 1 then
        f' == Returns(f, a2) &&
        s'.out == s.out + (if a2 == 0 then [] else UserBytes(s.mem, a1, a2))
      else f' == Returns(f, MINUS_ONE) && s'.out == s.out
    else if num == SYS_READ then
      s'.out == s.out && s'.halted == s.halted &&
      if a0 == 0 then
        f' == Returns(f, a2) && s'.inPos == s.inPos + a2 &&
        if a2 == 0 then s'.mem == s.mem else UserWritten(s.mem, s'.mem, a1, Received(input, s.inPos, a2))
      else f' == Returns(f, MINUS_ONE) && s'.mem == s.mem && s'.inPos == s.inPos
    else if num == SYS_EXIT then
      f' == f && s' == State(SelfCheck(s.mem, a0, a1, a2), s.inPos,
        s.out + Ascii("Calculator exited: " + Decimal(a0) + "/" + Decimal(a1) + " tests passed\n"), true)
    else if num == SYS_REPORT then
      f' == f && s' == s.(mem := SelfCheck(s.mem, a0, a1, a2))
    else f' == Returns(f, MINUS_ONE) && s' == s
  }

  /** The relation for a whole trap. */
  ghost predicate TrapDone(input: nat -> Byte, s: State, f: Frame, s': State, f': Frame)
    requires TablesBuilt(s.mem) && ValidFrame(f) && CallerOk(f)
  {
    var next := f.(sepc := (f.sepc + 4) % 0x1_0000_0000);
    var where := Hex(f.scause, 8) + " stval=0x" + Hex(f.stval, 8) + "\n";
    if f.scause == CAUSE_ECALL_U then SyscallDone(input, s, next, s', f')
    else if f.scause in {CAUSE_PAGE_FAULT_I, CAUSE_PAGE_FAULT_L, CAUSE_PAGE_FAULT_S} then
      f' == f && s' == s.(out := s.out + Ascii("Page fault! scause=0x" + where), halted := true)
    else if f.scause == CAUSE_BREAK then f' == next && s' == s
    else f' == f && s' == s.(out := s.out + Ascii("Unexpected trap: scause=0x" + where), halted := true)
  }

  // ---------------------------------------------------------------------------
  // The handler
  // ---------------------------------------------------------------------------

  /** trapframe_t: the saved registers, updated in place. */
  class TrapFrame {
    const gpr: array<Word>
    var sepc: Word
    var sstatus: Word
    var scause: Word
    var stval: Word

    constructor (f: Frame)
      requires ValidFrame(f)
      ensures Valid() && Value() == f && fresh(gpr)
    {
      gpr := new Word[31](i requires 0 <= i < 31 => f.gpr[i]);
      sepc, sstatus, scause, stval := f.sepc, f.sstatus, f.scause, f.stval;
    }

    predicate Valid() {
      gpr.Length == 31
    }

    function Value(): (f: Frame)
      requires Valid()
      reads this, gpr
      ensures ValidFrame(f)
    {
      Frame(gpr[..], sepc, sstatus, scause, stval)
    }
  }

  /** The kernel's view of the machine: RAM, the UART, and whether it has stopped in wfi. */
  class Machine {
    const ram: array<Byte>
    const input: nat -> Byte
    var inPos: nat
    var out: seq<Byte>
    var halted: bool

    /** Reset: RAM holds what the boot loader left, then m_init builds the tables. */
    constructor Boot(ram: array<Byte>, input: nat -> Byte)
      requires RAM_USED <= ram.Length <= DDR_SIZE
      modifies ram
      ensures this.ram == ram && this.input == input
      ensures Valid() && TablesBuilt(ram[..])
      ensures Value() == State(ram[..], 0, [], false)
      ensures ram[0x3000..] == old(ram[0x3000..])
    {
      this.ram, this.input := ram, input;
      inPos, out, halted := 0, [], false;
      new;
      var satp := MInit(ram);
    }

    predicate Valid() {
      RAM_USED <= ram.Length <= DDR_SIZE
    }

    function Value(): State
      reads this, ram
    {
      State(ram[..], inPos, out, halted)
    }

    method UartPutc(c: Byte)
      modifies this`out
      ensures out == old(out) + [c]
    {
      out := out + [c];
    }

    method UartGetc() returns (c: Byte)
      modifies this`inPos
      ensures c == input(old(inPos)) && inPos == old(inPos) + 1
    {
      c := input(inPos);
      inPos := inPos + 1;
    }

    method UartPuts(s: string)
      modifies this`out
      ensures out == old(out) + Ascii(s)
    {
      for i := 0 to |s|
        invariant out == old(out) + Ascii(s)[..i]
      {
        UartPutc(s[i] as int % 0x100);
      }
    }

    /** uart_putdec: digits into a buffer from the back. */
    method UartPutdec(val: Word)
      modifies this`out
      ensures out == old(out) + Ascii(Decimal(val))
    {
      if val == 0 {
        assert Ascii(Decimal(0)) == [48];
        UartPutc('0' as int);
        return;
      }
      var buf := new char[11];
      var i := 10;
      buf[10] := '\0';
      var v: nat := val;
      TenDigits();
      assert Unprinted(v) + buf[10..10] == Decimal(val);
      while v > 0
        invariant 0 <= i <= 10 && v < Pow(10, i) && out == old(out)
        invariant Decimal(val) == Unprinted(v) + buf[i..10]
        decreases v
      {
        hide Decimal, Digit, Unprinted;
        PeelDigit(v, i);
        i := i - 1;
        ghost var rest := buf[i + 1..10];
        buf[i] := Digit(v % 10);
        assert buf[i..10] == [buf[i]] + rest;
        assert Unprinted(v) + rest == Unprinted(v / 10) + ([Digit(v % 10)] + rest);
        v := v / 10;
      }
      assert Unprinted(v) == "";
      var text := buf[i..10];
      assert text == Decimal(val);
      UartPuts(text);
    }

    /** uart_puthex: eight digits into a buffer from the back. */
    method UartPuthex(val: Word)
      modifies this`out
      ensures out == old(out) + Ascii(Hex(val, 8))
    {
      var buf := new char[9];
      var v: nat, i := val, 7;
      assert Hex(val, 8) == Hex(val, 8) + buf[8..8];
      while i >= 0
        invariant -1 <= i <= 7 && out == old(out)
        invariant Hex(val, 8) == Hex(v, i + 1) + buf[i + 1..8]
      {
        ghost var rest := buf[i + 1..8];
        buf[i] := HEX_DIGITS[v % 16];
        assert buf[i..8] == [Digit(v % 16)] + rest;
        v := v / 16;
        i := i - 1;
      }
      buf[8] := '\0';
      var text := buf[..8];
      assert text == Hex(v, 0) + buf[0..8];
      UartPuts(text);
    }

    /** A load instruction of the kernel, through its own page table. */
    method KernelLoad(va: Word) returns (b: Byte)
      requires Valid() && TablesBuilt(ram[..])
      requires PA_USER_PROG <= va < PA_USER_PROG + USER_TOP
      ensures Walk(ram[..], SATP, va, Load, SUPERVISOR, FaultOnAd) == Translated(va, ram[..])
      ensures b == ram[va - RAM_BASE]
    {
      hide Walk, TablesBuilt;
      WalkIsDocumented(ram[..], va, Load, SUPERVISOR, FaultOnAd);
      b := ram[va - RAM_BASE];
    }

    /** A byte store of the kernel, through its own page table. */
    method KernelStore(va: Word, b: Byte)
      requires Valid() && TablesBuilt(ram[..])
      requires PA_USER_PROG <= va < PA_USER_PROG + USER_TOP
      modifies ram
      ensures Walk(old(ram[..]), SATP, va, Store, SUPERVISOR, FaultOnAd) == Translated(va, old(ram[..]))
      ensures ram[..] == old(ram[..])[va - RAM_BASE := b]
      ensures TablesBuilt(ram[..])
    {
      hide Walk, TablesBuilt;
      WalkIsDocumented(ram[..], va, Store, SUPERVISOR, FaultOnAd);
      ghost var m := ram[..];
      ram[va - RAM_BASE] := b;
      assert ram[..][..0x3000] == m[..0x3000];
      TablesFramed(m, ram[..]);
    }

    /** SYS_write to standard output: the buffer's bytes, through the kernel's alias. */
    method CopyOut(bufVa: Word, len: Word)
      requires Valid() && TablesBuilt(ram[..]) && InWindow(bufVa, len)
      modifies this`out
      ensures out == old(out) + (if len == 0 then [] else UserBytes(ram[..], bufVa, len))
    {
      hide TablesBuilt, UserByte, UserBytes, Walk;
      var kbuf := Alias(bufVa);
      ghost var m := ram[..];
      ghost var all := if len == 0 then [] else UserBytes(m, bufVa, len);
      if len > 0 {
        UserBytesAreContiguous(m, bufVa, len);
      }
      for i := 0 to len
        invariant out == old(out) + all[..i]
      {
        var b := KernelLoad(Nth(kbuf, i));
        UartPutc(b);
      }
    }

    /** SYS_read from standard input: input bytes into the buffer, through the alias. */
    method CopyIn(bufVa: Word, len: Word) returns (count: Word)
      requires Valid() && TablesBuilt(ram[..]) && InWindow(bufVa, len)
      modifies this`inPos, ram
      ensures count == len && inPos == old(inPos) + len
      ensures len == 0 ==> ram[..] == old(ram[..])
      ensures len > 0 ==> UserWritten(old(ram[..]), ram[..], bufVa, Received(input, old(inPos), len))
    {
      hide TablesBuilt, UserByte, UserBytes, Walk, Partly, Received;
      var kbuf := Alias(bufVa);
      ghost var m, o := ram[..], PA_USER_PROG - RAM_BASE + bufVa;
      ghost var all := Received(input, inPos, len);
      count := 0;
      NothingWritten(m, o, all);
      for i := 0 to len
        invariant count == i && inPos == old(inPos) + i && TablesBuilt(ram[..])
        invariant Partly(m, ram[..], o, all, i)
      {
        var c := UartGetc();
        PartlyNext(m, ram[..], o, all, i);
        ReceivedAt(input, old(inPos), len, i);
        KernelStore(Nth(kbuf, i), c);
        count := count + 1;
      }
      PartlyDone(m, ram[..], o, all);
      if len > 0 {
        UserBytesAreContiguous(ram[..], bufVa, len);
      }
    }

    /** The three stores to the self-check page. */
    method Report(pass: Word, total: Word, firstFail: Word)
      requires Valid() && TablesBuilt(ram[..])
      modifies ram
      ensures ram[..] == SelfCheck(old(ram[..]), pass, total, firstFail)
      ensures Walk(old(ram[..]), SATP, PA_SELF_CHECK, Store, SUPERVISOR, FaultOnAd) == Translated(PA_SELF_CHECK, old(ram[..]))
    {
      hide SetLe32, Walk, TablesBuilt;
      WalkIsDocumented(ram[..], PA_SELF_CHECK, Store, SUPERVISOR, FaultOnAd);
      StoreWord(ram, PA_SELF_CHECK, total);
      StoreWord(ram, PA_SELF_CHECK + 4, pass);
      StoreWord(ram, PA_SELF_CHECK + 8, firstFail);
    }

    /** The message of SYS_exit. */
    method PrintExit(a0: Word, a1: Word)
      modifies this`out
      ensures out == old(out) + Ascii("Calculator exited: " + Decimal(a0) + "/" + Decimal(a1) + " tests passed\n")
    {
      hide Ascii, Decimal;
      UartPuts("Calculator exited: ");
      UartPutdec(a0);
      UartPuts("/");
      UartPutdec(a1);
      UartPuts(" tests passed\n");
      AsciiJoins("Calculator exited: ", Decimal(a0), "/", Decimal(a1), " tests passed\n");
    }

    /** syscall_handle: dispatch on a7, arguments in a0-a2, result in a0. SYS_exit and
        SYS_report leave a1, a0 and a2 in the self-check page and change nothing else there. */
    method SyscallHandle(tf: TrapFrame)
      requires Valid() && tf.Valid() && tf.gpr != (ram as object) && TablesBuilt(ram[..])
      requires BufferOk(tf.Value())
      modifies this, ram, tf.gpr
      ensures SyscallDone(input, old(Value()), old(tf.Value()), Value(), tf.Value())
      ensures old(tf.gpr[16]) in {2, 9} ==>
                && ram.Length >= 0x700C
                && Le32(ram[..], 0x7000) == old(tf.gpr[10])
                && Le32(ram[..], 0x7004) == old(tf.gpr[9])
                && Le32(ram[..], 0x7008) == old(tf.gpr[11])
                && forall k :: 0 <= k < ram.Length && !(0x7000 <= k < 0x700C) ==> ram[k] == old(ram[k])
      ensures old(tf.gpr[16]) !in {2, 7, 9} ==> ram[..] == old(ram[..])
    {
      hide TablesBuilt, UserBytes, UserWritten, SelfCheck, Ascii, Decimal, Received, Le32;
      var num, a0, a1, a2 := tf.gpr[16], tf.gpr[9], tf.gpr[10], tf.gpr[11];
      ghost var was := ram[..];
      if num == 2 || num == 9 {
        RamIsLargeEnough(was);
        SelfCheckReports(was, a0, a1, a2);
      }
      if num == SYS_WRITE {
        if a0 == 1 {
          CopyOut(a1, a2);
          tf.gpr[9] := a2;
        } else {
          tf.gpr[9] := MINUS_ONE;
        }
      } else if num == SYS_READ {
        if a0 == 0 {
          var count := CopyIn(a1, a2);
          tf.gpr[9] := count;
        } else {
          tf.gpr[9] := MINUS_ONE;
        }
      } else if num == SYS_EXIT {
        Report(a0, a1, a2);
        PrintExit(a0, a1);
        halted := true;
      } else if num == SYS_REPORT {
        Report(a0, a1, a2);
      } else {
        tf.gpr[9] := MINUS_ONE;
      }
    }

    /** The message trap_dispatch prints before it halts. */
    method PrintTrap(what: string, tf: TrapFrame)
      modifies this`out
      ensures out == old(out) + Ascii(what + (Hex(tf.scause, 8) + " stval=0x" + Hex(tf.stval, 8) + "\n"))
    {
      hide Ascii, Hex;
      UartPuts(what);
      UartPuthex(tf.scause);
      UartPuts(" stval=0x");
      UartPuthex(tf.stval);
      UartPuts("\n");
      AsciiJoins(what, Hex(tf.scause, 8), " stval=0x", Hex(tf.stval, 8), "\n");
    }

    /** trap_dispatch. */
    method TrapDispatch(tf: TrapFrame)
      requires Valid() && tf.Valid() && tf.gpr != (ram as object) && TablesBuilt(ram[..])
      requires CallerOk(tf.Value())
      modifies this, ram, tf, tf.gpr
      ensures TrapDone(input, old(Value()), old(tf.Value()), Value(), tf.Value())
    {
      hide TablesBuilt, SyscallDone, BufferOk, Ascii, Hex;
      var cause := tf.scause;
      ghost var f := tf.Value();
      if cause == CAUSE_ECALL_U {
        tf.sepc := (tf.sepc + 4) % 0x1_0000_0000;
        assert BufferOk(tf.Value()) by { BufferIgnoresPc(f, tf.Value()); }
        SyscallHandle(tf);
        return;
      }
      if cause == CAUSE_PAGE_FAULT_I || cause == CAUSE_PAGE_FAULT_L || cause == CAUSE_PAGE_FAULT_S {
        PrintTrap("Page fault! scause=0x", tf);
        halted := true;
        return;
      }
      if cause == CAUSE_BREAK {
        tf.sepc := (tf.sepc + 4) % 0x1_0000_0000;
        return;
      }
      PrintTrap("Unexpected trap: scause=0x", tf);
      halted := true;
    }
  }

  /** cur is m with the first i bytes of `all` written from offset o on. */
  ghost predicate Partly(m: Mem, cur: Mem, o: nat, all: seq<Byte>, i: nat) {
    && |cur| == |m| && i <= |all|
    && (i > 0 ==> o + i <= |cur|)
    && (forall k :: 0 <= k < |m| ==> cur[k] == if o <= k < o + i then all[k - o] else m[k])
  }

  lemma NothingWritten(m: Mem, o: nat, all: seq<Byte>)
    ensures Partly(m, m, o, all, 0)
  {
  }

  lemma PartlyNext(m: Mem, cur: Mem, o: nat, all: seq<Byte>, i: nat)
    requires Partly(m, cur, o, all, i) && i < |all| && o + i < |cur|
    ensures Partly(m, cur[o + i := all[i]], o, all, i + 1)
  {
  }

  lemma PartlyDone(m: Mem, cur: Mem, o: nat, all: seq<Byte>)
    requires Partly(m, cur, o, all, |all|)
    ensures all == [] ==> cur == m
    ensures all != [] ==> o + |all| <= |cur| && SameOutside(m, cur, o, o + |all|) && cur[o..o + |all|] == all
  {
  }

  lemma ReceivedAt(input: nat -> Byte, pos: nat, len: nat, i: nat)
    requires i < len
    ensures Received(input, pos, len)[i] == input(pos + i)
  {
  }

  lemma BufferIgnoresPc(f: Frame, g: Frame)
    requires ValidFrame(f) && ValidFrame(g) && f.gpr == g.gpr && BufferOk(f)
    ensures BufferOk(g)
  {
  }

  lemma AsciiJoins(a: string, b: string, c: string, d: string, e: string)
    ensures Ascii(a) + Ascii(b) + Ascii(c) + Ascii(d) + Ascii(e) == Ascii(a + b + c + d + e)
    ensures a + b + c + d + e == a + (b + c + d + e)
  {
  }
}
