/** What SYS_read can overwrite when a caller passes any buffer at all: the store loop of
    dev/os/kernel/syscall.c:76-83, byte by byte through the page tables as they are at that
    moment. The kernel checks no address. */
module SyscallReach {
  import opened Arith
  import opened Words
  import opened Sv32
  import opened PageTables
  import opened Kernel

  /** Memory after some stores, and whether one of them has faulted. */
  datatype Progress = Progress(mem: Mem, faulted: bool)

  /** The i-th byte's address translated by the memory as it is. */
  ghost function Target(m: Mem, va: Word, i: nat, ad: AdPolicy): Outcome {
    Walk(m, SATP, Alias(Nth(va, i)), Store, SUPERVISOR, ad)
  }

  /** The first n stores of a read of `data` to va. A device takes a byte without a trace in
      memory; after a fault nothing more is stored. */
  ghost function Stores(m: Mem, va: Word, data: seq<Byte>, ad: AdPolicy, n: nat): Progress
    requires n <= |data|
  {
    if n == 0 then Progress(m, false)
    else
      var p := Stores(m, va, data, ad, n - 1);
      if p.faulted then p
      else
        match Target(p.mem, va, n - 1, ad)
        case Translated(pa, mem) =>
          if RAM_BASE <= pa < RAM_BASE + |mem| then Progress(mem[pa - RAM_BASE := data[n - 1]], false)
          else Progress(mem, false)
        case _ => Progress(p.mem, true)
  }

  /** Store number n goes to a page table. */
  ghost predicate Hits(m: Mem, va: Word, data: seq<Byte>, ad: AdPolicy, n: nat) {
    n < |data| &&
    var p := Stores(m, va, data, ad, n);
    !p.faulted && Target(p.mem, va, n, ad).Translated?
    && RAM_BASE <= Target(p.mem, va, n, ad).pa < RAM_BASE + 0x3000
  }

  /** Buffers whose alias starts in a page table. */
  predicate AliasesTables(va: Word) {
    0xFFFF_8000 <= va < 0xFFFF_B000
  }

  /** Where a run of stores that has not faulted is: in RAM above the tables, or in the UART's
      megapage; it cannot go round from one to the other. */
  predicate OnTrack(a: nat, n: nat) {
    n > 0 ==> (RAM_BASE + 0x3000 <= a && a + n <= RAM_BASE + RAM_USED) || (0x1000_0000 <= a && a + n <= 0x1040_0000)
  }

  lemma NthAlias(va: Word, i: nat)
    ensures Alias(Nth(va, i)) == (Alias(va) + i) % 0x1_0000_0000
  {
    AddModulo(va + i, PA_USER_PROG);
    AddModulo(va + PA_USER_PROG, i);
  }

  lemma AddModulo(a: nat, b: nat)
    ensures (a % 0x1_0000_0000 + b) % 0x1_0000_0000 == (a + b) % 0x1_0000_0000
  {
    var q, r := (a + b) / 0x1_0000_0000, (a + b) % 0x1_0000_0000;
    QuotientIs(a % 0x1_0000_0000 + b, 0x1_0000_0000, q - a / 0x1_0000_0000, r);
  }

  lemma AliasInTables(va: Word)
    ensures AliasesTables(va) <==> RAM_BASE <= Alias(va) < RAM_BASE + 0x3000
  {
  }

  lemma TargetIs(m: Mem, va: Word, i: nat, ad: AdPolicy)
    requires TablesBuilt(m)
    ensures var x := (Alias(va) + i) % 0x1_0000_0000;
            Target(m, va, i, ad) ==
            if 0x1000_0000 <= x < 0x1040_0000 || RAM_BASE <= x < RAM_BASE + RAM_USED then Translated(x, m) else PageFault
  {
    NthAlias(va, i);
    var w := Nth(va, i);
    hide Walk, TablesBuilt;
    AliasWalk(m, w, Store, ad);
    UserAddresses(m, w, Store, ad);
  }

  lemma StoreAbove(m: Mem, o: nat, b: Byte)
    requires TablesBuilt(m) && 0x3000 <= o < |m|
    ensures TablesBuilt(m[o := b])
  {
    hide TablesBuilt;
    RamIsLargeEnough(m);
    assert m[o := b][..0x3000] == m[..0x3000];
    TablesFramed(m, m[o := b]);
  }

  lemma StoreKeepsTrack(m: Mem, va: Word, data: seq<Byte>, ad: AdPolicy, n: nat)
    requires n < |data| && !AliasesTables(va)
    requires var p := Stores(m, va, data, ad, n);
             TablesBuilt(p.mem) && (!p.faulted ==> OnTrack(Alias(va), n))
    ensures var p := Stores(m, va, data, ad, n + 1);
            TablesBuilt(p.mem) && (!p.faulted ==> OnTrack(Alias(va), n + 1))
    ensures !Hits(m, va, data, ad, n)
  {
    hide TablesBuilt, Target;
    var p := Stores(m, va, data, ad, n);
    if !p.faulted {
      AliasInTables(va);
      TargetIs(p.mem, va, n, ad);
      RamIsLargeEnough(p.mem);
      var x := (Alias(va) + n) % 0x1_0000_0000;
      if RAM_BASE <= x < RAM_BASE + |p.mem| && Target(p.mem, va, n, ad).Translated? {
        StoreAbove(p.mem, x - RAM_BASE, data[n]);
      }
    }
  }

  lemma {:induction false} StaysOnTrack(m: Mem, va: Word, data: seq<Byte>, ad: AdPolicy, n: nat)
    requires n <= |data| && TablesBuilt(m) && !AliasesTables(va)
    ensures var p := Stores(m, va, data, ad, n);
            TablesBuilt(p.mem) && (!p.faulted ==> OnTrack(Alias(va), n))
  {
    hide TablesBuilt;
    if n > 0 {
      StaysOnTrack(m, va, data, ad, n - 1);
      StoreKeepsTrack(m, va, data, ad, n - 1);
    }
  }

  /** Exactly the non-empty reads into [0xFFFF8000, 0xFFFFB000) store into a page table, and
      with the first byte. */
  lemma ReadsThatReachTables(m: Mem, va: Word, data: seq<Byte>, ad: AdPolicy)
    requires TablesBuilt(m)
    ensures (exists n :: Hits(m, va, data, ad, n)) <==> data != [] && AliasesTables(va)
  {
    hide TablesBuilt, Target;
    if data != [] && AliasesTables(va) {
      AliasInTables(va);
      TargetIs(m, va, 0, ad);
      assert Hits(m, va, data, ad, 0);
    } else if data != [] {
      forall n: nat
        ensures !Hits(m, va, data, ad, n)
      {
        if n < |data| {
          StaysOnTrack(m, va, data, ad, n);
          StoreKeepsTrack(m, va, data, ad, n);
        }
      }
    }
  }

  // ---------------------------------------------------------------------------
  // Reads that leave the tables standing
  // ---------------------------------------------------------------------------

  /** Byte i, if it goes to the tables, is the one that is there. */
  predicate Repeated(m: Mem, va: Word, data: seq<Byte>, i: nat)
    requires i < |data|
  {
    var o := Alias(va) + i - RAM_BASE;
    0 <= o < 0x3000 ==> o < |m| && data[i] == m[o]
  }

  ghost predicate Repeats(m: Mem, va: Word, data: seq<Byte>, n: nat)
    requires n <= |data|
  {
    forall i :: 0 <= i < n ==> Repeated(m, va, data, i)
  }

  lemma NextStore(m: Mem, va: Word, data: seq<Byte>, ad: AdPolicy, n: nat)
    requires n < |data| && !Stores(m, va, data, ad, n).faulted
    requires var t := Target(Stores(m, va, data, ad, n).mem, va, n, ad);
             t.Translated? ==> RAM_BASE <= t.pa < RAM_BASE + |t.mem|
    ensures var t := Target(Stores(m, va, data, ad, n).mem, va, n, ad);
            Stores(m, va, data, ad, n + 1) ==
            if t.Translated? then Progress(t.mem[t.pa - RAM_BASE := data[n]], false)
            else Progress(Stores(m, va, data, ad, n).mem, true)
  {
    hide Target;
  }

  /** From the tables upwards byte after byte goes to memory, to the end of the user's pages. */
  lemma StoreUpwards(m: Mem, va: Word, data: seq<Byte>, ad: AdPolicy, n: nat)
    requires n < |data| && AliasesTables(va) && Alias(va) + n <= RAM_BASE + RAM_USED
    requires var p := Stores(m, va, data, ad, n); !p.faulted && TablesBuilt(p.mem)
    ensures var p := Stores(m, va, data, ad, n);
            var o := Alias(va) + n - RAM_BASE;
            0 <= o <= RAM_USED <= |p.mem| &&
            Stores(m, va, data, ad, n + 1) ==
            if o < RAM_USED then Progress(p.mem[o := data[n]], false) else Progress(p.mem, true)
  {
    hide TablesBuilt, Target, Alias, AliasesTables, Stores;
    AliasInTables(va);
    var p := Stores(m, va, data, ad, n);
    RamIsLargeEnough(p.mem);
    TargetIs(p.mem, va, n, ad);
    NextStore(m, va, data, ad, n);
  }

  ghost predicate Undisturbed(m: Mem, va: Word, n: nat, p: Progress) {
    && TablesBuilt(p.mem) && |m| >= 0x3000 && p.mem[..0x3000] == m[..0x3000]
    && (if p.faulted then Alias(va) + n > RAM_BASE + RAM_USED else Alias(va) + n <= RAM_BASE + RAM_USED)
  }

  lemma RepeatedByte(m: Mem, m': Mem, o: nat, b: Byte)
    requires TablesBuilt(m) && TablesBuilt(m') && m'[..0x3000] == m[..0x3000] && o < |m'|
    requires o < 0x3000 ==> b == m[o]
    ensures TablesBuilt(m'[o := b]) && m'[o := b][..0x3000] == m[..0x3000]
  {
    hide TablesBuilt;
    RamIsLargeEnough(m);
    RamIsLargeEnough(m');
    if o < 0x3000 {
      assert m'[..0x3000][o] == m[..0x3000][o];
      assert m'[o := b] == m';
    } else {
      StoreAbove(m', o, b);
      assert m'[o := b][..0x3000] == m'[..0x3000];
    }
  }

  lemma RepeatKeeps(m: Mem, va: Word, data: seq<Byte>, ad: AdPolicy, n: nat)
    requires n < |data| && TablesBuilt(m) && AliasesTables(va) && Repeated(m, va, data, n)
    requires Undisturbed(m, va, n, Stores(m, va, data, ad, n)) && !Stores(m, va, data, ad, n).faulted
    ensures Undisturbed(m, va, n + 1, Stores(m, va, data, ad, n + 1))
  {
    hide TablesBuilt, Alias, AliasesTables, Stores;
    StoreUpwards(m, va, data, ad, n);
    var p := Stores(m, va, data, ad, n);
    var o := Alias(va) + n - RAM_BASE;
    if o < RAM_USED {
      RepeatedByte(m, p.mem, o, data[n]);
    }
  }

  lemma NothingStored(m: Mem, va: Word, data: seq<Byte>, ad: AdPolicy)
    requires TablesBuilt(m) && AliasesTables(va)
    ensures Undisturbed(m, va, 0, Stores(m, va, data, ad, 0))
  {
    hide TablesBuilt;
    AliasInTables(va);
    RamIsLargeEnough(m);
  }

  lemma FaultStays(m: Mem, va: Word, data: seq<Byte>, ad: AdPolicy, n: nat)
    requires n < |data| && Stores(m, va, data, ad, n).faulted && Undisturbed(m, va, n, Stores(m, va, data, ad, n))
    ensures Undisturbed(m, va, n + 1, Stores(m, va, data, ad, n + 1))
  {
    hide TablesBuilt, Alias;
  }

  lemma {:induction false} RepeatsKeep(m: Mem, va: Word, data: seq<Byte>, ad: AdPolicy, n: nat)
    requires n <= |data| && TablesBuilt(m) && AliasesTables(va) && Repeats(m, va, data, n)
    ensures Undisturbed(m, va, n, Stores(m, va, data, ad, n))
  {
    hide TablesBuilt, Alias, AliasesTables, Repeated, Stores, Undisturbed;
    if n == 0 {
      NothingStored(m, va, data, ad);
    } else {
      RepeatsKeep(m, va, data, ad, n - 1);
      if Stores(m, va, data, ad, n - 1).faulted {
        FaultStays(m, va, data, ad, n - 1);
      } else {
        RepeatKeeps(m, va, data, ad, n - 1);
      }
    }
  }

  /** The first byte that differs breaks them. */
  lemma DifferentByteBreaks(m: Mem, va: Word, data: seq<Byte>, ad: AdPolicy, n: nat)
    requires n < |data| && TablesBuilt(m) && AliasesTables(va)
    requires Repeats(m, va, data, n) && !Repeated(m, va, data, n)
    ensures !TablesBuilt(Stores(m, va, data, ad, n + 1).mem)
  {
    AliasInTables(va);
    RamIsLargeEnough(m);
    hide TablesBuilt, Target, Alias, AliasesTables, Stores;
    RepeatsKeep(m, va, data, ad, n);
    StoreUpwards(m, va, data, ad, n);
    var p := Stores(m, va, data, ad, n);
    var o := Alias(va) + n - RAM_BASE;
    assert p.mem[..0x3000][o] == m[..0x3000][o];
    OtherByteOtherEntry(p.mem, o, data[n]);
  }

  /** The tables stand at every moment of a read. */
  ghost predicate TablesStand(m: Mem, va: Word, data: seq<Byte>, ad: AdPolicy) {
    forall n: nat :: n <= |data| ==> TablesBuilt(Stores(m, va, data, ad, n).mem)
  }

  lemma {:induction false} FirstDifference(m: Mem, va: Word, data: seq<Byte>, n: nat) returns (i: nat)
    requires n <= |data| && !Repeats(m, va, data, n)
    ensures i < n && Repeats(m, va, data, i) && !Repeated(m, va, data, i)
  {
    hide Repeated;
    if Repeats(m, va, data, n - 1) {
      i := n - 1;
    } else {
      i := FirstDifference(m, va, data, n - 1);
    }
  }

  /** Exactly when a read of these bytes, of any length to any address, leaves the tables
      standing throughout: the buffer does not start in [0xFFFF8000, 0xFFFFB000), or what goes
      to the tables is what is there. */
  lemma ReadsThatSpareTables(m: Mem, va: Word, data: seq<Byte>, ad: AdPolicy)
    requires TablesBuilt(m)
    ensures TablesStand(m, va, data, ad) <==> !AliasesTables(va) || Repeats(m, va, data, |data|)
  {
    hide TablesBuilt, Stores, AliasesTables, Repeated;
    if !AliasesTables(va) {
      forall n: nat | n <= |data|
        ensures TablesBuilt(Stores(m, va, data, ad, n).mem)
      {
        StaysOnTrack(m, va, data, ad, n);
      }
    } else if Repeats(m, va, data, |data|) {
      forall n: nat | n <= |data|
        ensures TablesBuilt(Stores(m, va, data, ad, n).mem)
      {
        assert Repeats(m, va, data, n);
        RepeatsKeep(m, va, data, ad, n);
      }
    } else {
      var i := FirstDifference(m, va, data, |data|);
      DifferentByteBreaks(m, va, data, ad, i);
    }
  }

  lemma OtherByteOtherEntry(m: Mem, o: nat, b: Byte)
    requires TablesBuilt(m) && o < 0x3000 && b != m[o]
    ensures !TablesBuilt(m[o := b])
  {
    hide TablesBuilt, Le32;
    RamIsLargeEnough(m);
    var m' := m[o := b];
    var t, i := (o / 0x1000) * 0x1000, (o % 0x1000) / 4;
    EntryTellsBytes(m, m', t + 4 * i, o - (t + 4 * i));
    if TablesBuilt(m') {
      SameEntries(m, m', t, i);
    }
  }

  lemma SameEntries(m: Mem, m': Mem, t: nat, i: nat)
    requires TablesBuilt(m) && TablesBuilt(m') && t in {0, 0x1000, 0x2000} && i < 0x400
    ensures Le32(m', t + 4 * i) == Le32(m, t + 4 * i)
  {
    hide Le32, L1Entry, KernelEntry, UserEntry;
    assert Entry(m', t, i) == Entry(m, t, i);
  }

  lemma EntryTellsBytes(m: Mem, m': Mem, e: nat, k: nat)
    requires |m'| == |m| && e + 4 <= |m| && k < 4 && m'[e + k] != m[e + k]
    ensures Le32(m', e) != Le32(m, e)
  {
    PackUnpack(m[e..e + 4]);
    PackUnpack(m'[e..e + 4]);
    assert m[e..e + 4][k] != m'[e..e + 4][k];
  }
}
