/** Whole runs of SimpleOS after boot: an arbitrary user program loads, stores and traps;
    the kernel answers (dev/os/kernel/trap.c:41-78). The user's registers are arbitrary at
    every trap, so every program is covered. */
module UserRuns {
  import opened Words
  import opened Sv32
  import opened PageTables
  import opened Kernel

  /** One step of the machine. `saved` is the frame the trap stub saves if the step traps. */
  datatype Event =
    | UserFetch(va: Word, saved: Frame)
    | UserLoad(va: Word, saved: Frame)
    | UserStore(va: Word, data: seq<Byte>, saved: Frame)
    | UserTrap(saved: Frame)

  /** Aligned accesses of 1, 2 or 4 bytes; syscall buffers inside the user window. */
  predicate EventOk(e: Event) {
    && ValidFrame(e.saved)
    && (e.UserStore? ==> |e.data| in {1, 2, 4} && e.va % |e.data| == 0)
    && (e.UserTrap? ==> CallerOk(e.saved))
  }

  /** Equal but for the kernel's stack page, where the trap stub keeps the saved frame and the
      kernel its own (dev/os/kernel/trap.S:33-36). */
  ghost predicate SameButStack(m: Mem, m': Mem) {
    |m'| == |m| && forall k :: 0 <= k < |m| && !(0x3000 <= k < 0x4000) ==> m'[k] == m[k]
  }

  /** The kernel answers a trap, and leaves anything on its stack. */
  ghost predicate Traps(input: nat -> Byte, s: State, f: Frame, s': State)
    requires TablesBuilt(s.mem) && ValidFrame(f) && CallerOk(f)
  {
    exists mid, f' :: TrapDone(input, s, f, mid, f') && SameButStack(mid.mem, s'.mem) && s' == mid.(mem := s'.mem)
  }

  function Faulted(f: Frame, cause: Word, va: Word): Frame {
    f.(scause := cause, stval := va)
  }

  function Put(m: Mem, o: nat, data: seq<Byte>): Mem
    requires o + |data| <= |m|
  {
    m[..o] + data + m[o + |data|..]
  }

  /** One step from a state that has not stopped. */
  ghost predicate Step(input: nat -> Byte, ad: AdPolicy, s: State, e: Event, s': State)
    requires TablesBuilt(s.mem) && EventOk(e)
  {
    && !s.halted
    && match e {
         case UserFetch(va, f) =>
           if Walk(s.mem, SATP, va, Fetch, USER, ad).Translated? then s' == s
           else Traps(input, s, Faulted(f, CAUSE_PAGE_FAULT_I, va), s')
         case UserLoad(va, f) =>
           if Walk(s.mem, SATP, va, Load, USER, ad).Translated? then s' == s
           else Traps(input, s, Faulted(f, CAUSE_PAGE_FAULT_L, va), s')
         case UserStore(va, data, f) =>
           (match Walk(s.mem, SATP, va, Store, USER, ad)
            case Translated(pa, m) =>
              RAM_BASE <= pa && pa - RAM_BASE + |data| <= |m| && s' == s.(mem := Put(m, pa - RAM_BASE, data))
            case _ => Traps(input, s, Faulted(f, CAUSE_PAGE_FAULT_S, va), s'))
         case UserTrap(f) => Traps(input, s, f, s')
       }
  }

  /** A run. Nothing is assumed of a step from a state whose tables are broken. */
  ghost predicate Run(input: nat -> Byte, ad: AdPolicy, s: State, es: seq<Event>, s': State)
    requires forall e :: e in es ==> EventOk(e)
    decreases |es|
  {
    if es == [] then s' == s
    else exists mid ::
      && (TablesBuilt(s.mem) ==> Step(input, ad, s, es[0], mid))
      && Run(input, ad, mid, es[1..], s')
  }

  /** What no run changes: page tables, kernel code, the self-check page after its three
      words, and everything above the user's pages. */
  ghost predicate Guarded(m: Mem, m': Mem) {
    |m'| == |m| && forall k :: 0 <= k < |m| && !Open(k) ==> m'[k] == m[k]
  }

  /** The kernel's stack page, the three words of the self-check page, the user's pages. */
  predicate Open(k: nat) {
    0x3000 <= k < 0x4000 || 0x7000 <= k < 0x700C || 0x8000 <= k < RAM_USED
  }

  lemma GuardedKeepsTables(m: Mem, m': Mem)
    requires TablesBuilt(m) && Guarded(m, m')
    ensures TablesBuilt(m')
  {
    assert m'[..0x3000] == m[..0x3000];
    TablesFramed(m, m');
  }

  lemma SelfCheckGuarded(m: Mem, a: Word, b: Word, c: Word)
    requires |m| >= RAM_USED
    ensures Guarded(m, SelfCheck(m, a, b, c))
  {
    hide SetLe32;
  }

  /** A trap handler changes no guarded byte; if it does not halt it resumes 4 bytes further on
      with every saved register but a0 as it was; input and output only move forward. */
  lemma TrapEffect(input: nat -> Byte, s: State, f: Frame, s': State, f': Frame)
    requires TablesBuilt(s.mem) && ValidFrame(f) && CallerOk(f)
    requires TrapDone(input, s, f, s', f')
    ensures Guarded(s.mem, s'.mem)
    ensures !s'.halted ==>
              && f'.sepc == (f.sepc + 4) % 0x1_0000_0000
              && f'.sstatus == f.sstatus && f'.scause == f.scause && f'.stval == f.stval
              && |f'.gpr| == 31 && forall i :: 0 <= i < 31 && i != 9 ==> f'.gpr[i] == f.gpr[i]
    ensures s.inPos <= s'.inPos && s.out <= s'.out
  {
    hide TablesBuilt, Ascii, UserBytes, SelfCheck;
    SelfCheckGuarded(s.mem, f.gpr[9], f.gpr[10], f.gpr[11]) by { RamIsLargeEnough(s.mem); }
  }

  lemma TrapsEffect(input: nat -> Byte, s: State, f: Frame, s': State)
    requires TablesBuilt(s.mem) && ValidFrame(f) && CallerOk(f) && Traps(input, s, f, s')
    ensures Guarded(s.mem, s'.mem) && s.inPos <= s'.inPos && s.out <= s'.out
  {
    hide TablesBuilt, TrapDone;
    var mid, f' :| TrapDone(input, s, f, mid, f') && SameButStack(mid.mem, s'.mem) && s' == mid.(mem := s'.mem);
    TrapEffect(input, s, f, mid, f');
  }

  lemma StepEffect(input: nat -> Byte, ad: AdPolicy, s: State, e: Event, s': State)
    requires TablesBuilt(s.mem) && EventOk(e) && Step(input, ad, s, e, s')
    ensures Guarded(s.mem, s'.mem)
    ensures s.inPos <= s'.inPos && s.out <= s'.out
  {
    hide TablesBuilt, Walk, Traps;
    match e
    case UserFetch(va, f) =>
      if !Walk(s.mem, SATP, va, Fetch, USER, ad).Translated? {
        TrapsEffect(input, s, Faulted(f, CAUSE_PAGE_FAULT_I, va), s');
      }
    case UserLoad(va, f) =>
      if !Walk(s.mem, SATP, va, Load, USER, ad).Translated? {
        TrapsEffect(input, s, Faulted(f, CAUSE_PAGE_FAULT_L, va), s');
      }
    case UserStore(va, data, f) =>
      UserAddresses(s.mem, va, Store, ad);
      if va < USER_TOP {
        AlignedStaysInside(va, |data|);
      } else {
        TrapsEffect(input, s, Faulted(f, CAUSE_PAGE_FAULT_S, va), s');
      }
    case UserTrap(f) => TrapsEffect(input, s, f, s');
  }

  lemma AlignedStaysInside(va: Word, width: nat)
    requires va < USER_TOP && width in {1, 2, 4} && va % width == 0
    ensures va + width <= USER_TOP
  {
  }

  /** In every run of every user program the guarded memory is as it was at the start,
      so the tables stand and every address translates as documented, at any time. */
  lemma {:induction false} RunKeepsMap(input: nat -> Byte, ad: AdPolicy, s: State, es: seq<Event>, s': State)
    requires forall e :: e in es ==> EventOk(e)
    requires TablesBuilt(s.mem) && Run(input, ad, s, es, s')
    ensures Guarded(s.mem, s'.mem) && TablesBuilt(s'.mem)
    ensures forall va, acc, cx, ad' :: Walk(s'.mem, SATP, va, acc, cx, ad') == Promise(s'.mem, va, acc, cx)
    ensures s.inPos <= s'.inPos && s.out <= s'.out
    decreases |es|
  {
    hide TablesBuilt, Walk, Promise, Step;
    if es != [] {
      var mid :| Step(input, ad, s, es[0], mid) && Run(input, ad, mid, es[1..], s');
      StepEffect(input, ad, s, es[0], mid);
      GuardedKeepsTables(s.mem, mid.mem);
      RunKeepsMap(input, ad, mid, es[1..], s');
    } else {
      forall va, acc, cx, ad'
        ensures Walk(s'.mem, SATP, va, acc, cx, ad') == Promise(s'.mem, va, acc, cx)
      {
        WalkIsDocumented(s'.mem, va, acc, cx, ad');
      }
    }
  }
}
