/** The session directories of tools/vivado_core/session.py:484-720: listing, creation under
    a cap with eviction of the least recently used, cleanup, and lookup by task.

    Timestamps are integers (ISO 8601 text of one time zone sorts the same way). The order in
    which a directory lists its entries is left open; it matters only between equal times. */
module SessionStore {

  datatype Meta = Meta(task: string, lastUsed: int)
  datatype Entry = Entry(name: string, meta: Meta)
  type Dir = map<string, Meta>

  // ---------------------------------------------------------------------------
  // Stable sort by a key
  // ---------------------------------------------------------------------------

  /** Sort key: last_used_at, or its negative for reverse=True (which keeps ties in order). */
  function Key(e: Entry, reverse: bool): int {
    if reverse then -e.meta.lastUsed else e.meta.lastUsed
  }

  function Insert(e: Entry, s: seq<Entry>, reverse: bool): seq<Entry> {
    if s == [] || Key(e, reverse) <= Key(s[0], reverse) then [e] + s else [s[0]] + Insert(e, s[1..], reverse)
  }

  function Sorted(s: seq<Entry>, reverse: bool): seq<Entry> {
    if s == [] then [] else Insert(s[0], Sorted(s[1..], reverse), reverse)
  }

  ghost predicate Ordered(s: seq<Entry>, reverse: bool) {
    forall i, j :: 0 <= i < j < |s| ==> Key(s[i], reverse) <= Key(s[j], reverse)
  }

  lemma {:induction false} InsertPermutes(e: Entry, s: seq<Entry>, reverse: bool)
    ensures multiset(Insert(e, s, reverse)) == multiset(s) + multiset{e}
  {
    hide Key;
    if s != [] {
      InsertPermutes(e, s[1..], reverse);
      assert s == [s[0]] + s[1..];
    }
  }

  lemma InsertUnfolds(e: Entry, s: seq<Entry>, reverse: bool)
    ensures Insert(e, s, reverse) ==
            if s == [] || Key(e, reverse) <= Key(s[0], reverse) then [e] + s else [s[0]] + Insert(e, s[1..], reverse)
  {
  }

  lemma {:induction false} InsertOrders(e: Entry, s: seq<Entry>, reverse: bool)
    requires Ordered(s, reverse)
    ensures Ordered(Insert(e, s, reverse), reverse)
  {
    hide Key, Insert;
    InsertUnfolds(e, s, reverse);
    if s != [] && !(Key(e, reverse) <= Key(s[0], reverse)) {
      var t := Insert(e, s[1..], reverse);
      InsertOrders(e, s[1..], reverse);
      InsertPermutes(e, s[1..], reverse);
      forall k | 0 <= k < |t|
        ensures Key(s[0], reverse) <= Key(t[k], reverse)
      {
        assert t[k] in multiset(t);
      }
    }
  }

  lemma {:induction false} SortedWorks(s: seq<Entry>, reverse: bool)
    ensures Ordered(Sorted(s, reverse), reverse) && multiset(Sorted(s, reverse)) == multiset(s)
  {
    if s != [] {
      SortedWorks(s[1..], reverse);
      InsertPermutes(s[0], Sorted(s[1..], reverse), reverse);
      InsertOrders(s[0], Sorted(s[1..], reverse), reverse);
      assert s == [s[0]] + s[1..];
    }
  }

  // ---------------------------------------------------------------------------
  // Listings
  // ---------------------------------------------------------------------------

  ghost predicate Distinct(s: seq<Entry>) {
    forall i, j :: 0 <= i < j < |s| ==> s[i].name != s[j].name
  }

  ghost function Entries(dir: Dir, names: set<string>): set<Entry> {
    set n | n in names && n in dir :: Entry(n, dir[n])
  }

  /** s lists every entry of the directory once. */
  ghost predicate Lists(s: seq<Entry>, dir: Dir) {
    && |s| == |dir|
    && multiset(s) == multiset(Entries(dir, dir.Keys))
  }

  ghost function Names(s: seq<Entry>): set<string> {
    set e | e in s :: e.name
  }

  lemma ListingIn(s: seq<Entry>, dir: Dir, e: Entry)
    requires Lists(s, dir)
    ensures e in s <==> e.name in dir && dir[e.name] == e.meta
  {
    assert e in s <==> e in multiset(s);
  }

  /** A listing has no name twice. */
  lemma ListingDistinct(s: seq<Entry>, dir: Dir)
    requires Lists(s, dir)
    ensures Distinct(s)
  {
    forall i, j | 0 <= i < j < |s|
      ensures s[i].name != s[j].name
    {
      if s[i].name == s[j].name {
        ListingIn(s, dir, s[i]);
        ListingIn(s, dir, s[j]);
        Twice(s, i, j);
        assert false;
      }
    }
  }

  lemma Twice(s: seq<Entry>, i: nat, j: nat)
    requires i < j < |s| && s[i] == s[j]
    ensures multiset(s)[s[i]] >= 2
  {
    assert s == s[..i] + [s[i]] + s[i + 1..j] + [s[j]] + s[j + 1..];
  }

  lemma {:induction false} NamesCount(s: seq<Entry>)
    requires Distinct(s)
    ensures |Names(s)| == |s|
  {
    if s != [] {
      var n := |s| - 1;
      NamesCount(s[..n]);
      assert s == s[..n] + [s[n]];
      assert Names(s) == Names(s[..n]) + {s[n].name};
    } else {
      assert Names(s) == {};
    }
  }

  // ---------------------------------------------------------------------------
  // What cleanup and create do
  // ---------------------------------------------------------------------------

  /** `gone` are the oldest entries of the directory beyond the `keep` most recently used. */
  ghost predicate Oldest(dir: Dir, keep: nat, gone: set<string>) {
    && gone <= dir.Keys && |gone| == (if |dir| <= keep then 0 else |dir| - keep)
    && forall r, k :: r in gone && k in dir.Keys - gone ==> dir[r].lastUsed <= dir[k].lastUsed
  }

  /** After cleanup exactly those are gone, except the ones whose files could not be removed. */
  ghost predicate CleanedUp(dir: Dir, keep: nat, stuck: set<string>, dir': Dir) {
    exists gone :: Oldest(dir, keep, gone) && dir' == dir - (gone - stuck)
  }

  datatype CreateResult = Created | SessionLimit | DiskLimit

  ghost predicate CreateDone(dir: Dir, max: nat, stuck: set<string>, name: string, task: string, now: int,
                             r: CreateResult, dir': Dir) {
    exists base ::
      && MadeRoom(dir, max, stuck, base)
      && (r == SessionLimit <==> |base| >= max)
      && dir' == if r == Created then base[name := Meta(task, now)] else base
  }

  /** The directory a creation starts from: at the cap, one place is cleared first. */
  ghost predicate MadeRoom(dir: Dir, max: nat, stuck: set<string>, base: Dir) {
    if |dir| >= max then CleanedUp(dir, if max > 0 then max - 1 else 0, stuck, base) else base == dir
  }

  lemma CleanupShrinks(dir: Dir, keep: nat, stuck: set<string>, dir': Dir)
    requires CleanedUp(dir, keep, stuck, dir')
    ensures dir'.Keys <= dir.Keys && forall n :: n in dir' ==> dir'[n] == dir[n]
    ensures stuck !! dir.Keys && |dir| >= keep ==> |dir'| == keep
  {
    var gone :| Oldest(dir, keep, gone) && dir' == dir - (gone - stuck);
    OldestSize(dir, keep, gone);
    if stuck !! dir.Keys && |dir| >= keep {
      assert gone - stuck == gone;
      hide Oldest;
      assert dir'.Keys == dir.Keys - gone;
      SizeOfDifference(dir.Keys, gone);
    }
  }

  lemma OldestSize(dir: Dir, keep: nat, gone: set<string>)
    requires Oldest(dir, keep, gone)
    ensures gone <= dir.Keys && |gone| == (if |dir| <= keep then 0 else |dir| - keep)
  {
  }

  lemma SizeOfDifference(a: set<string>, b: set<string>)
    requires b <= a
    ensures |a - b| == |a| - |b|
  {
    assert a == (a - b) + b;
  }

  /** After every successful creation the count is within the cap; a creation that fails on
      the cap does so only because files could not be removed, or the cap is zero. */
  lemma CreateRespectsCap(dir: Dir, max: nat, stuck: set<string>, name: string, task: string, now: int,
                          r: CreateResult, dir': Dir)
    requires CreateDone(dir, max, stuck, name, task, now, r, dir')
    ensures r == Created ==> |dir'| <= max && name in dir' && dir'[name] == Meta(task, now)
    ensures r == SessionLimit && stuck !! dir.Keys ==> max == 0
  {
    var base :| && MadeRoom(dir, max, stuck, base)
                && (r == SessionLimit <==> |base| >= max)
                && dir' == if r == Created then base[name := Meta(task, now)] else base;
    if r == Created {
      AddOne(base, name, Meta(task, now));
    }
    if |dir| >= max {
      CleanupShrinks(dir, if max > 0 then max - 1 else 0, stuck, base);
    }
  }

  lemma AddOne(dir: Dir, name: string, m: Meta)
    ensures |dir[name := m]| <= |dir| + 1
  {
    assert dir[name := m].Keys == dir.Keys + {name};
  }

  // ---------------------------------------------------------------------------
  // A round of creations never evicts its own sessions
  // ---------------------------------------------------------------------------

  /** The sessions of the round are there, and newer than `since`; all others are older. */
  ghost predicate RoundSafe(dir: Dir, round: set<string>, since: int) {
    round <= dir.Keys && forall n :: n in dir ==> (n in round <==> dir[n].lastUsed >= since)
  }

  lemma CleanupSparesRound(dir: Dir, keep: nat, stuck: set<string>, dir': Dir, round: set<string>, since: int)
    requires CleanedUp(dir, keep, stuck, dir') && RoundSafe(dir, round, since) && |round| <= keep
    ensures RoundSafe(dir', round, since)
  {
    var gone :| Oldest(dir, keep, gone) && dir' == dir - (gone - stuck);
    var kept := dir.Keys - gone;
    SizeOfDifference(dir.Keys, gone);
    if r :| r in gone && r in round {
      assert kept <= round - {r};
      Smaller(kept, round - {r});
      assert false;
    }
  }

  lemma {:induction false} Smaller(a: set<string>, b: set<string>)
    requires a <= b
    ensures |a| <= |b|
  {
    SizeOfDifference(b, a);
  }

  datatype Event =
    | Create(name: string, task: string, now: int, r: CreateResult)
    | Touch(name: string, now: int)   // update_last_used of a session of the round

  ghost predicate Happens(dir: Dir, max: nat, stuck: set<string>, round: set<string>, e: Event, dir': Dir) {
    match e
    case Create(name, task, now, r) => CreateDone(dir, max, stuck, name, task, now, r, dir')
    case Touch(name, now) => name in round && name in dir && dir' == dir[name := dir[name].(lastUsed := now)]
  }

  function RoundAfter(round: set<string>, e: Event): set<string> {
    if e.Create? && e.r == Created then round + {e.name} else round
  }

  function RoundEnd(round: set<string>, es: seq<Event>): set<string>
    decreases |es|
  {
    if es == [] then round else RoundEnd(RoundAfter(round, es[0]), es[1..])
  }

  ghost predicate Happen(dir: Dir, max: nat, stuck: set<string>, round: set<string>, es: seq<Event>, dir': Dir)
    decreases |es|
  {
    if es == [] then dir' == dir
    else exists mid :: Happens(dir, max, stuck, round, es[0], mid) && Happen(mid, max, stuck, RoundAfter(round, es[0]), es[1..], dir')
  }

  lemma RoomSparesRound(dir: Dir, max: nat, stuck: set<string>, base: Dir, round: set<string>, since: int)
    requires MadeRoom(dir, max, stuck, base) && RoundSafe(dir, round, since) && |round| < max
    ensures RoundSafe(base, round, since)
  {
    hide CleanedUp, RoundSafe;
    if |dir| >= max {
      CleanupSparesRound(dir, max - 1, stuck, base, round, since);
    }
  }

  lemma TouchSparesRound(dir: Dir, round: set<string>, name: string, now: int, since: int)
    requires RoundSafe(dir, round, since) && name in round && name in dir && now >= since
    ensures RoundSafe(dir[name := dir[name].(lastUsed := now)], round, since)
  {
  }

  lemma AddSparesRound(dir: Dir, round: set<string>, name: string, m: Meta, since: int)
    requires RoundSafe(dir, round, since) && m.lastUsed >= since
    ensures RoundSafe(dir[name := m], round + {name}, since)
  {
  }

  lemma StepSparesRound(dir: Dir, max: nat, stuck: set<string>, round: set<string>, e: Event, dir': Dir, since: int)
    requires Happens(dir, max, stuck, round, e, dir') && RoundSafe(dir, round, since)
    requires e.now >= since && |round| <= max && (e.Create? ==> |round| < max)
    ensures RoundSafe(dir', RoundAfter(round, e), since)
  {
    hide RoundSafe, MadeRoom;
    match e
    case Touch(name, now) =>
      TouchSparesRound(dir, round, name, now, since);
    case Create(name, task, now, r) =>
      var base :| && MadeRoom(dir, max, stuck, base)
                  && (r == SessionLimit <==> |base| >= max)
                  && dir' == if r == Created then base[name := Meta(task, now)] else base;
      RoomSparesRound(dir, max, stuck, base, round, since);
      AddSparesRound(base, round, name, Meta(task, now), since);
  }

  function Creates(es: seq<Event>): nat {
    if es == [] then 0 else (if es[0].Create? then 1 else 0) + Creates(es[1..])
  }

  /** Serialised creations, at most max_sessions of them, all later than everything that was
      there before: whatever uses of the round's sessions happen in between, and whatever
      files cannot be removed, every session the round created is still there at the end. */
  lemma {:induction false} RoundKeepsItsSessions(dir: Dir, max: nat, stuck: set<string>, round: set<string>,
                                                 es: seq<Event>, dir': Dir, since: int)
    requires Happen(dir, max, stuck, round, es, dir') && RoundSafe(dir, round, since)
    requires |round| + Creates(es) <= max
    requires forall e :: e in es ==> e.now >= since
    ensures RoundSafe(dir', RoundEnd(round, es), since) && RoundEnd(round, es) <= dir'.Keys
    decreases |es|
  {
    hide Happens, RoundSafe;
    if es != [] {
      var mid :| Happens(dir, max, stuck, round, es[0], mid) && Happen(mid, max, stuck, RoundAfter(round, es[0]), es[1..], dir');
      StepSparesRound(dir, max, stuck, round, es[0], mid, since);
      RoundKeepsItsSessions(mid, max, stuck, RoundAfter(round, es[0]), es[1..], dir', since);
    } else {
      RoundIsThere(dir, round, since);
    }
  }

  lemma RoundIsThere(dir: Dir, round: set<string>, since: int)
    requires RoundSafe(dir, round, since)
    ensures round <= dir.Keys
  {
  }

  // ---------------------------------------------------------------------------
  // The session manager
  // ---------------------------------------------------------------------------

  lemma EntriesGrow(dir: Dir, names: set<string>, n: string)
    requires n in dir && n !in names
    ensures Entries(dir, names + {n}) == Entries(dir, names) + {Entry(n, dir[n])}
    ensures Entry(n, dir[n]) !in Entries(dir, names)
  {
  }

  lemma EntriesOfNone(dir: Dir)
    ensures Entries(dir, {}) == {}
  {
  }

  class SessionManager {
    const maxSessions: nat
    const stuck: set<string>   // directories whose files cannot be removed
    var dir: Dir

    constructor (maxSessions: nat, stuck: set<string>, dir: Dir)
      ensures this.maxSessions == maxSessions && this.stuck == stuck && this.dir == dir
    {
      this.maxSessions, this.stuck, this.dir := maxSessions, stuck, dir;
    }

    method ListSessions() returns (s: seq<Entry>)
      ensures Lists(s, dir) && |s| == |dir|
    {
      hide Entries;
      s := [];
      var todo := dir.Keys;
      EntriesOfNone(dir);
      assert dir.Keys - todo == {};
      while todo != {}
        invariant todo <= dir.Keys && |s| == |dir| - |todo|
        invariant multiset(s) == multiset(Entries(dir, dir.Keys - todo))
        decreases |todo|
      {
        var n :| n in todo;
        EntriesGrow(dir, dir.Keys - todo, n);
        assert dir.Keys - (todo - {n}) == dir.Keys - todo + {n};
        s := s + [Entry(n, dir[n])];
        todo := todo - {n};
      }
      assert dir.Keys - {} == dir.Keys;
    }

    /** find_session_for_task: the most recently used session of a task. */
    method FindSessionForTask(task: string) returns (r: seq<Entry>)
      ensures |r| <= 1
      ensures r == [] <==> forall n :: n in dir ==> dir[n].task != task
      ensures r != [] ==> var e := r[0];
                && e.name in dir && dir[e.name] == e.meta && e.meta.task == task
                && forall n :: n in dir && dir[n].task == task ==> dir[n].lastUsed <= e.meta.lastUsed
    {
      var all := ListSessions();
      var candidates: seq<Entry> := [];
      for i := 0 to |all|
        invariant forall e :: e in candidates <==> e in all[..i] && e.meta.task == task
      {
        if all[i].meta.task == task {
          candidates := candidates + [all[i]];
        }
      }
      forall n | n in dir
        ensures Entry(n, dir[n]) in all
      {
        ListingIn(all, dir, Entry(n, dir[n]));
      }
      if candidates == [] {
        return [];
      }
      SortedWorks(candidates, true);
      var best := Sorted(candidates, true);
      assert |multiset(best)| == |multiset(candidates)|;
      assert best[0] in multiset(candidates);
      ListingIn(all, dir, best[0]);
      forall n | n in dir && dir[n].task == task
        ensures dir[n].lastUsed <= best[0].meta.lastUsed
      {
        assert Entry(n, dir[n]) in multiset(best);
      }
      r := [best[0]];
    }

    /** destroy_session: removal errors are ignored. */
    method DestroySession(name: string) returns (found: bool)
      modifies this`dir
      ensures found == (name in old(dir))
      ensures dir == old(dir) - ({name} - stuck)
    {
      found := name in dir;
      if found && name !in stuck {
        dir := dir - {name};
      }
    }

    /** cleanup. */
    method Cleanup(keep: nat) returns (removed: seq<string>)
      modifies this`dir
      ensures CleanedUp(old(dir), keep, stuck, dir)
      ensures |removed| == if |old(dir)| <= keep then 0 else |old(dir)| - keep
    {
      hide Lists, Oldest, Ordered, Sorted, CleanedUp, Names, Distinct;
      removed := [];
      var sessions := ListSessions();
      if |sessions| <= keep {
        NothingToClean(dir, keep, stuck);
        return;
      }
      SortedWorks(sessions, false);
      SameLength(Sorted(sessions, false), sessions);
      var toRemove := Sorted(sessions, false)[..|sessions| - keep];
      OldestFirst(dir, keep, sessions, Sorted(sessions, false));
      IsCleanedUp(dir, keep, stuck, Names(toRemove), dir - (Names(toRemove) - stuck));
      removed := RemoveAll(toRemove);
    }

    /** The removal loop of cleanup. */
    method RemoveAll(toRemove: seq<Entry>) returns (removed: seq<string>)
      requires Distinct(toRemove) && Names(toRemove) <= dir.Keys
      modifies this`dir
      ensures dir == old(dir) - (Names(toRemove) - stuck) && |removed| == |toRemove|
    {
      hide Names, Distinct;
      removed := [];
      NoNames();
      for i := 0 to |toRemove|
        invariant dir == old(dir) - (Names(toRemove[..i]) - stuck) && |removed| == i
      {
        NextName(toRemove, i);
        OneMoreGone(old(dir), Names(toRemove[..i]), toRemove[i].name, stuck);
        var found := DestroySession(toRemove[i].name);
        if found {
          removed := removed + [toRemove[i].name];
        }
      }
      assert toRemove[..|toRemove|] == toRemove;
    }

    /** create_session under its resource guards. */
    method CreateSession(name: string, task: string, now: int, diskFull: bool) returns (r: CreateResult)
      modifies this`dir
      ensures CreateDone(old(dir), maxSessions, stuck, name, task, now, r, dir)
      ensures diskFull ==> r != Created
      ensures r == DiskLimit ==> diskFull
      ensures !diskFull && r != SessionLimit ==> r == Created
    {
      hide Lists, CleanedUp;
      var existing := ListSessions();
      if |existing| >= maxSessions {
        var removed := Cleanup(if maxSessions - 1 > 0 then maxSessions - 1 else 0);
        existing := ListSessions();
        if |existing| >= maxSessions {
          assert MadeRoom(old(dir), maxSessions, stuck, dir);
          return SessionLimit;
        }
      }
      assert MadeRoom(old(dir), maxSessions, stuck, dir);
      if diskFull {
        return DiskLimit;
      }
      dir := dir[name := Meta(task, now)];
      r := Created;
    }
  }

  lemma NothingToClean(dir: Dir, keep: nat, stuck: set<string>)
    requires |dir| <= keep
    ensures CleanedUp(dir, keep, stuck, dir)
  {
    assert Oldest(dir, keep, {}) && dir == dir - ({} - stuck);
  }

  lemma IsCleanedUp(dir: Dir, keep: nat, stuck: set<string>, gone: set<string>, dir': Dir)
    requires Oldest(dir, keep, gone) && dir' == dir - (gone - stuck)
    ensures CleanedUp(dir, keep, stuck, dir')
  {
  }

  lemma OneMoreGone(dir: Dir, gone: set<string>, n: string, stuck: set<string>)
    requires n in dir && n !in gone
    ensures n in dir - (gone - stuck)
    ensures dir - (gone - stuck) - ({n} - stuck) == dir - (gone + {n} - stuck)
  {
  }

  lemma NoNames()
    ensures Names([]) == {}
  {
  }

  lemma NextName(s: seq<Entry>, i: nat)
    requires i < |s| && Distinct(s)
    ensures Names(s[..i + 1]) == Names(s[..i]) + {s[i].name} && s[i].name !in Names(s[..i])
    ensures s[i].name in Names(s)
  {
    assert s[..i + 1] == s[..i] + [s[i]];
  }

  lemma SameLength(s: seq<Entry>, t: seq<Entry>)
    requires multiset(s) == multiset(t)
    ensures |s| == |t|
  {
    assert |multiset(s)| == |s| && |multiset(t)| == |t|;
  }

  lemma OldestFirst(dir: Dir, keep: nat, sessions: seq<Entry>, sorted: seq<Entry>)
    requires Lists(sessions, dir) && |dir| > keep
    requires Ordered(sorted, false) && multiset(sorted) == multiset(sessions) && |sorted| == |sessions|
    ensures Oldest(dir, keep, Names(sorted[..|dir| - keep]))
    ensures Distinct(sorted[..|dir| - keep])
    ensures Names(sorted[..|dir| - keep]) <= dir.Keys
  {
    var cut := |dir| - keep;
    var gone := Names(sorted[..cut]);
    assert Lists(sorted, dir);
    ListingDistinct(sorted, dir);
    NamesCount(sorted[..cut]);
    forall n | n in gone
      ensures exists i :: 0 <= i < cut && sorted[i].name == n && n in dir && dir[n] == sorted[i].meta
    {
      var e :| e in sorted[..cut] && e.name == n;
      ListingIn(sorted, dir, e);
    }
    forall i | 0 <= i < cut
      ensures sorted[i].name in gone
    {
      assert sorted[i] == sorted[..cut][i];
    }
    forall k | k in dir.Keys - gone
      ensures exists j :: cut <= j < |sorted| && sorted[j] == Entry(k, dir[k])
    {
      ListingIn(sorted, dir, Entry(k, dir[k]));
    }
  }
}
