/** Process permits of tools/vivado_core/session.py:219-280 and 283-432: sessions share a
    counting semaphore; starting Vivado takes a permit, stopping it gives the permit back.

    Each Session object belongs to one thread at a time; the threads of different objects
    interleave between the single actions below, and processes die when they like. A process
    identifier is never used twice. */
module Permits {

  import opened Wrappers

  type Pid = nat

  /** Where a thread is inside start_vivado or stop_vivado. */
  datatype Control =
    | Idle         // in neither
    | Admitting    // start: found no live process, permit not yet looked at
    | Acquired     // start: semaphore taken, _sem_held not yet set
    | Spawning     // start: permit held, Popen not yet called
    | Stopping     // stop: found a process, not yet killed
    | Dropping     // stop: killed and waited, _process not yet cleared
    | Releasing    // either: about to release the semaphore
    | Clearing     // either: semaphore released, _sem_held not yet cleared

  /** A Session object: _process, _sem_held, meta.vivado_pid and the control point. */
  datatype Session = Session(process: Option<Pid>, held: bool, metaPid: Option<Pid>, at: Control)

  /** What the sessions share. `alive` are the running processes this manager spawned or
      found recorded on disk; `lost` are those a stop gave up on. */
  datatype Shared = Shared(permits: nat, alive: set<Pid>, used: set<Pid>, lost: set<Pid>)

  /** One action of one session. */
  datatype Action =
    | StartCheck
    | TryAcquire
    | MarkHeld
    | SpawnOk(pid: Pid)
    | SpawnFail
    | StopCheck
    | Kill(gone: bool)   // gone: the process ended within quit, kill and the waits
    | Drop
    | Release
    | Clear

  predicate IsAlive(g: Shared, s: Session) {
    match s.process
    case Some(p) => p in g.alive
    case None => s.metaPid.Some? && s.metaPid.value in g.alive
  }

  predicate Enabled(g: Shared, s: Session, a: Action) {
    match a
    case StartCheck => s.at == Idle
    case TryAcquire => s.at == Admitting
    case MarkHeld => s.at == Acquired
    case SpawnOk(pid) => s.at == Spawning && pid !in g.used
    case SpawnFail => s.at == Spawning
    case StopCheck => s.at == Idle
    case Kill(_) => s.at == Stopping
    case Drop => s.at == Dropping && s.process.Some?
    case Release => s.at == Releasing
    case Clear => s.at == Clearing
  }

  function Act(g: Shared, s: Session, a: Action): (Shared, Session)
    requires Enabled(g, s, a)
  {
    match a
    case StartCheck => (g, if IsAlive(g, s) then s else s.(at := Admitting))
    case TryAcquire =>
      if s.held then (g, s.(at := Spawning))
      else if g.permits > 0 then (g.(permits := g.permits - 1), s.(at := Acquired))
      else (g, s.(at := Idle))
    case MarkHeld => (g, s.(held := true, at := Spawning))
    case SpawnOk(pid) =>
      (g.(alive := g.alive + {pid}, used := g.used + {pid}), s.(process := Some(pid), metaPid := Some(pid), at := Idle))
    case SpawnFail => (g, s.(at := if s.held then Releasing else Idle))
    case StopCheck => (g, if s.process.None? then s else s.(at := Stopping))
    case Kill(gone) =>
      (if IsAlive(g, s) && gone && s.process.Some? then g.(alive := g.alive - {s.process.value}) else g, s.(at := Dropping))
    case Drop =>
      (if s.process.value in g.alive then g.(lost := g.lost + {s.process.value}) else g,
       s.(process := None, metaPid := None, at := if s.held then Releasing else Idle))
    case Release => (g.(permits := g.permits + 1), s.(at := Clearing))
    case Clear => (g, s.(held := false, at := Idle))
  }

  // ---------------------------------------------------------------------------
  // The whole system
  // ---------------------------------------------------------------------------

  datatype System = System(shared: Shared, sessions: seq<Session>)

  datatype Event = Does(who: nat, action: Action) | Dies(pid: Pid)

  predicate Possible(y: System, e: Event) {
    match e
    case Does(i, a) => i < |y.sessions| && Enabled(y.shared, y.sessions[i], a)
    case Dies(pid) => pid in y.shared.alive
  }

  function Next(y: System, e: Event): System
    requires Possible(y, e)
  {
    match e
    case Does(i, a) =>
      var (g, s) := Act(y.shared, y.sessions[i], a);
      System(g, y.sessions[i := s])
    case Dies(pid) => y.(shared := y.shared.(alive := y.shared.alive - {pid}))
  }

  ghost predicate Run(y: System, es: seq<Event>, y': System)
    decreases |es|
  {
    if es == [] then y' == y else Possible(y, es[0]) && Run(Next(y, es[0]), es[1..], y')
  }

  /** Sessions as the manager hands them out: no process, no permit. A process identifier
      recorded on disk may still be running. */
  predicate Initial(y: System, max: nat) {
    && y.shared.permits == max && y.shared.lost == {} && y.shared.alive <= y.shared.used
    && forall i :: 0 <= i < |y.sessions| ==>
         y.sessions[i].process == None && !y.sessions[i].held && y.sessions[i].at == Idle
  }

  /** A session holds a permit from the moment the semaphore is taken until it is released. */
  predicate Holds(s: Session) {
    s.at == Acquired || (s.held && s.at != Clearing)
  }

  function Holders(ss: seq<Session>): nat {
    if ss == [] then 0 else Holders(ss[..|ss| - 1]) + if Holds(ss[|ss| - 1]) then 1 else 0
  }

  predicate OwnsLive(g: Shared, s: Session) {
    s.process.Some? && s.process.value in g.alive
  }

  /** What holds of each session at every moment. */
  predicate SessionOk(g: Shared, s: Session) {
    && (OwnsLive(g, s) ==> Holds(s))
    && (s.process.Some? ==> s.process.value in g.used)
    && (s.at in {Admitting, Acquired, Spawning, Releasing, Clearing} ==> !OwnsLive(g, s))
    && (s.at in {Spawning, Releasing} ==> s.held)
    && (s.at == Acquired ==> !s.held)
    && (s.at in {Stopping, Dropping} ==> s.process.Some?)
  }

  ghost predicate Inv(y: System, max: nat) {
    && y.shared.permits + Holders(y.sessions) == max
    && y.shared.alive <= y.shared.used
    && forall i :: 0 <= i < |y.sessions| ==> SessionOk(y.shared, y.sessions[i])
  }

  lemma {:induction false} HoldersUpdate(ss: seq<Session>, i: nat, s: Session)
    requires i < |ss|
    ensures Holders(ss[i := s]) + (if Holds(ss[i]) then 1 else 0) == Holders(ss) + if Holds(s) then 1 else 0
  {
    hide Holds;
    var n := |ss| - 1;
    if i == n {
      assert ss[i := s][..n] == ss[..n];
    } else {
      assert ss[i := s][..n] == ss[..n][i := s];
      HoldersUpdate(ss[..n], i, s);
    }
  }

  /** One action keeps its session in order, moves permits exactly as it moves the
      session's hold, and disturbs no other session. */
  lemma ActKeeps(g: Shared, s: Session, a: Action)
    requires Enabled(g, s, a) && SessionOk(g, s) && g.alive <= g.used
    ensures var (g', s') := Act(g, s, a);
            && SessionOk(g', s') && g'.alive <= g'.used
            && g'.permits + (if Holds(s') then 1 else 0) == g.permits + (if Holds(s) then 1 else 0)
            && forall o: Session :: SessionOk(g, o) ==> SessionOk(g', o)
  {
  }

  lemma StepKeeps(y: System, e: Event, max: nat)
    requires Inv(y, max) && Possible(y, e)
    ensures Inv(Next(y, e), max)
  {
    match e
    case Does(i, a) =>
      hide Act, SessionOk, Holds;
      ActKeeps(y.shared, y.sessions[i], a);
      HoldersUpdate(y.sessions, i, Act(y.shared, y.sessions[i], a).1);
    case Dies(pid) =>
  }

  lemma {:induction false} RunKeeps(y: System, es: seq<Event>, y': System, max: nat)
    requires Inv(y, max) && Run(y, es, y')
    ensures Inv(y', max)
    decreases |es|
  {
    hide Inv;
    if es != [] {
      StepKeeps(y, es[0], max);
      RunKeeps(Next(y, es[0]), es[1..], y', max);
    }
  }

  // ---------------------------------------------------------------------------
  // How many processes live
  // ---------------------------------------------------------------------------

  /** The running processes that some session owns. */
  function Owned(g: Shared, ss: seq<Session>): set<Pid> {
    if ss == [] then {} else
      var s := ss[|ss| - 1];
      Owned(g, ss[..|ss| - 1]) + if OwnsLive(g, s) then {s.process.value} else {}
  }

  lemma {:induction false} OwnedIs(g: Shared, ss: seq<Session>, p: Pid)
    ensures p in Owned(g, ss) <==> exists i :: 0 <= i < |ss| && OwnsLive(g, ss[i]) && ss[i].process.value == p
  {
    if ss != [] {
      var n := |ss| - 1;
      OwnedIs(g, ss[..n], p);
      assert ss == ss[..n] + [ss[n]];
    }
  }

  /** No more owned live processes than permits in hand. */
  lemma {:induction false} OwnedFewerThanHolders(g: Shared, ss: seq<Session>)
    requires forall i :: 0 <= i < |ss| ==> SessionOk(g, ss[i])
    ensures |Owned(g, ss)| <= Holders(ss)
  {
    if ss != [] {
      OwnedFewerThanHolders(g, ss[..|ss| - 1]);
    }
  }

  /** Every running process is owned, was given up by a stop, or ran before we came. */
  ghost predicate Accounted(y: System, before: set<Pid>) {
    forall p :: p in y.shared.alive ==> p in before || p in y.shared.lost || OwnedBy(y, p)
  }

  ghost predicate OwnedBy(y: System, p: Pid) {
    exists i :: 0 <= i < |y.sessions| && y.sessions[i].process == Some(p)
  }

  lemma StepAccounts(y: System, e: Event, before: set<Pid>)
    requires Accounted(y, before) && Possible(y, e)
    requires forall i :: 0 <= i < |y.sessions| ==> SessionOk(y.shared, y.sessions[i])
    ensures Accounted(Next(y, e), before)
  {
    var y' := Next(y, e);
    match e
    case Dies(_) =>
    case Does(i, a) =>
      forall p | p in y'.shared.alive && p !in before && p !in y'.shared.lost
        ensures OwnedBy(y', p)
      {
        if y'.sessions[i].process == Some(p) {
          assert OwnedBy(y', p);
        } else {
          assert p in y.shared.alive && OwnedBy(y, p);
          var j :| 0 <= j < |y.sessions| && y.sessions[j].process == Some(p);
          assert j != i;
          assert y'.sessions[j] == y.sessions[j];
        }
      }
  }

  /** A stop drops its handle although quit, kill and the waits have not ended the process. */
  predicate GivesUp(y: System, e: Event) {
    e.Does? && e.action == Drop && e.who < |y.sessions| && OwnsLive(y.shared, y.sessions[e.who])
  }

  ghost predicate GivesUpIn(y: System, es: seq<Event>)
    decreases |es|
  {
    es != [] && Possible(y, es[0]) && (GivesUp(y, es[0]) || GivesUpIn(Next(y, es[0]), es[1..]))
  }

  lemma {:induction false} RunAccounts(y: System, es: seq<Event>, y': System, max: nat, before: set<Pid>)
    requires Inv(y, max) && Run(y, es, y') && Accounted(y, before)
    ensures Inv(y', max) && Accounted(y', before) && y.shared.lost <= y'.shared.lost
    ensures if GivesUpIn(y, es) then y'.shared.lost != {} else y'.shared.lost == y.shared.lost
    decreases |es|
  {
    if es != [] {
      hide Inv, Accounted, GivesUp;
      InvSessions(y, max);
      StepKeeps(y, es[0], max);
      StepAccounts(y, es[0], before);
      StepLoses(y, es[0]);
      hide Next, Possible;
      RunAccounts(Next(y, es[0]), es[1..], y', max, before);
    }
  }

  lemma StepLoses(y: System, e: Event)
    requires Possible(y, e)
    ensures y.shared.lost <= Next(y, e).shared.lost
    ensures if GivesUp(y, e) then Next(y, e).shared.lost != {} else Next(y, e).shared.lost == y.shared.lost
  {
  }

  lemma InvSessions(y: System, max: nat)
    requires Inv(y, max)
    ensures forall i :: 0 <= i < |y.sessions| ==> SessionOk(y.shared, y.sessions[i])
    ensures Holders(y.sessions) <= max && y.shared.permits <= max
  {
  }

  /** Over every interleaving: permits are conserved, a live process that a session owns
      implies a held permit, and the live processes started here number at most
      max_concurrent plus the live ones a stop gave up on; none of these exactly when no stop
      dropped a process that was still alive. */
  lemma ProcessesAreBounded(y: System, es: seq<Event>, y': System, max: nat)
    requires Initial(y, max) && Run(y, es, y')
    ensures y'.shared.permits + Holders(y'.sessions) == max
    ensures forall i :: 0 <= i < |y'.sessions| && OwnsLive(y'.shared, y'.sessions[i]) ==> Holds(y'.sessions[i])
    ensures |Owned(y'.shared, y'.sessions)| <= max
    ensures y'.shared.alive - y.shared.alive <= Owned(y'.shared, y'.sessions) + y'.shared.lost
    ensures |y'.shared.alive - y.shared.alive| <= max + |y'.shared.lost * y'.shared.alive|
    ensures y'.shared.lost == {} <==> !GivesUpIn(y, es)
  {
    NobodyHolds(y.sessions);
    var before := y.shared.alive;
    RunAccounts(y, es, y', max, before);
    InvSessions(y', max);
    OwnedFewerThanHolders(y'.shared, y'.sessions);
    var owned, lost := Owned(y'.shared, y'.sessions), y'.shared.lost * y'.shared.alive;
    forall p | p in y'.shared.alive - before
      ensures p in owned + lost
    {
      OwnedIs(y'.shared, y'.sessions, p);
      if p !in y'.shared.lost {
        assert OwnedBy(y', p);
      }
    }
    SubsetSize(y'.shared.alive - before, owned + lost);
  }

  lemma {:induction false} NobodyHolds(ss: seq<Session>)
    requires forall i :: 0 <= i < |ss| ==> !Holds(ss[i])
    ensures Holders(ss) == 0
  {
    if ss != [] {
      NobodyHolds(ss[..|ss| - 1]);
    }
  }

  lemma {:induction false} SubsetSize(a: set<Pid>, b: set<Pid>)
    requires a <= b
    ensures |a| <= |b|
  {
    if a != {} {
      var p :| p in a;
      SubsetSize(a - {p}, b - {p});
    }
  }

  lemma {:induction false} RunAppend(y: System, es: seq<Event>, m: System, fs: seq<Event>, y': System)
    requires Run(y, es, m) && Run(m, fs, y')
    ensures Run(y, es + fs, y')
    decreases |es|
  {
    if es == [] {
      assert es + fs == fs;
    } else {
      assert (es + fs)[1..] == es[1..] + fs;
      RunAppend(Next(y, es[0]), es[1..], m, fs, y');
    }
  }

  const IDLE := Session(None, false, None, Idle)

  // ---------------------------------------------------------------------------
  // The methods, run by one thread without interruption, are runs of those actions
  // ---------------------------------------------------------------------------

  ghost predicate Acts(g: Shared, s: Session, actions: seq<Action>, g': Shared, s': Session)
    decreases |actions|
  {
    if actions == [] then g' == g && s' == s
    else Enabled(g, s, actions[0]) && var (g1, s1) := Act(g, s, actions[0]); Acts(g1, s1, actions[1..], g', s')
  }

  lemma {:induction false} ActsAppend(g: Shared, s: Session, xs: seq<Action>, g1: Shared, s1: Session,
                                      ys: seq<Action>, g2: Shared, s2: Session)
    requires Acts(g, s, xs, g1, s1) && Acts(g1, s1, ys, g2, s2)
    ensures Acts(g, s, xs + ys, g2, s2)
    decreases |xs|
  {
    if xs == [] {
      assert xs + ys == ys;
    } else {
      assert (xs + ys)[1..] == xs[1..] + ys;
      var (ga, sa) := Act(g, s, xs[0]);
      ActsAppend(ga, sa, xs[1..], g1, s1, ys, g2, s2);
    }
  }

  /** A session's thread acting alone. */
  function Doing(i: nat, actions: seq<Action>): (es: seq<Event>)
    ensures |es| == |actions|
  {
    seq(|actions|, k requires 0 <= k < |actions| => Does(i, actions[k]))
  }

  /** It is a run of the system. */
  lemma {:induction false} ActsAreARun(y: System, i: nat, actions: seq<Action>, g': Shared, s': Session)
    requires i < |y.sessions| && Acts(y.shared, y.sessions[i], actions, g', s')
    ensures Run(y, Doing(i, actions), System(g', y.sessions[i := s']))
    decreases |actions|
  {
    var es := Doing(i, actions);
    if actions == [] {
      assert es == [];
    } else {
      var (g1, s1) := Act(y.shared, y.sessions[i], actions[0]);
      var y1 := System(g1, y.sessions[i := s1]);
      ActsAreARun(y1, i, actions[1..], g', s');
      assert es[1..] == Doing(i, actions[1..]);
      assert y1.sessions[i := s'] == y.sessions[i := s'];
    }
  }

  datatype StartResult = Started | AlreadyAlive | LimitReached | SpawnFailed
  datatype ExecuteResult = Finished | TimedOut | NotStarted(why: StartResult) | NoHandle

  /** The actions of one start: `spawn` is the process Popen yields, if it yields one. */
  function StartActions(g: Shared, s: Session, spawn: Option<Pid>): seq<Action> {
    if IsAlive(g, s) then [StartCheck]
    else if !s.held && g.permits == 0 then [StartCheck, TryAcquire]
    else [StartCheck, TryAcquire] + (if s.held then [] else [MarkHeld])
         + (if spawn.Some? then [SpawnOk(spawn.value)] else [SpawnFail, Release, Clear])
  }

  function StopActions(s: Session, gone: bool): seq<Action> {
    if s.process.None? then [StopCheck]
    else [StopCheck, Kill(gone), Drop] + if s.held then [Release, Clear] else []
  }

  /** The actions of one command: a start if need be, and a stop when the command times out. */
  function ExecuteActions(g: Shared, s: Session, spawn: Option<Pid>, timesOut: bool, gone: bool): seq<Action> {
    if IsAlive(g, s) then
      if s.process.Some? && timesOut then StopActions(s, gone) else []
    else
      StartActions(g, s, spawn)
      + if (s.held || g.permits > 0) && spawn.Some? && timesOut then StopActions(Session(spawn, true, spawn, Idle), gone)
        else []
  }

  /** The semaphore of the session manager, and the operating system's process table. */
  class Manager {
    var permits: nat
    var alive: set<Pid>
    var used: set<Pid>
    var lost: set<Pid>

    constructor (maxConcurrent: nat)
      ensures Value() == Shared(maxConcurrent, {}, {}, {})
    {
      permits, alive, used, lost := maxConcurrent, {}, {}, {};
    }

    function Value(): Shared
      reads this
    {
      Shared(permits, alive, used, lost)
    }
  }

  class VivadoSession {
    const manager: Manager
    var process: Option<Pid>
    var semHeld: bool
    var vivadoPid: Option<Pid>

    constructor (manager: Manager, recorded: Option<Pid>)
      ensures this.manager == manager && Value() == Session(None, false, recorded, Idle)
    {
      this.manager := manager;
      process, semHeld, vivadoPid := None, false, recorded;
    }

    function Value(): Session
      reads this
    {
      Session(process, semHeld, vivadoPid, Idle)
    }

    /** start_vivado. */
    method StartVivado(spawn: Option<Pid>) returns (r: StartResult)
      requires spawn.Some? ==> spawn.value !in manager.used
      modifies this, manager
      ensures Acts(old(manager.Value()), old(Value()), StartActions(old(manager.Value()), old(Value()), spawn),
                   manager.Value(), Value())
      ensures r == AlreadyAlive <==> old(IsAlive(manager.Value(), Value()))
      ensures r == LimitReached <==> !old(IsAlive(manager.Value(), Value())) && !old(semHeld) && old(manager.permits) == 0
      ensures r == Started <==> !old(IsAlive(manager.Value(), Value())) && (old(semHeld) || old(manager.permits) > 0)
                                && spawn.Some?
      ensures r == Started ==>
                && Value() == Session(spawn, true, spawn, Idle)
                && manager.alive == old(manager.alive) + {spawn.value}
                && manager.permits + (if old(semHeld) then 0 else 1) == old(manager.permits)
      ensures r == SpawnFailed ==>
                && !semHeld && process == old(process)
                && manager.alive == old(manager.alive)
                && manager.permits == old(manager.permits) + (if old(semHeld) then 1 else 0)
      ensures r in {AlreadyAlive, LimitReached} ==> Value() == old(Value()) && manager.Value() == old(manager.Value())
      ensures manager.lost == old(manager.lost)
    {
      ghost var g, s := manager.Value(), Value();
      if IsAlive(manager.Value(), Value()) {
        return AlreadyAlive;
      }
      if !semHeld {
        if manager.permits == 0 {
          StartRefused(g, s);
          return LimitReached;
        }
        manager.permits := manager.permits - 1;
        semHeld := true;
      }
      if spawn.None? {
        manager.permits := manager.permits + 1;
        semHeld := false;
        StartFails(g, s);
        return SpawnFailed;
      }
      process := spawn;
      manager.alive := manager.alive + {spawn.value};
      manager.used := manager.used + {spawn.value};
      vivadoPid := spawn;
      StartSpawns(g, s, spawn.value);
      r := Started;
    }

    /** stop_vivado: quit, kill and wait; `gone` tells whether the process ended by then. */
    method StopVivado(gone: bool)
      modifies this, manager
      ensures Acts(old(manager.Value()), old(Value()), StopActions(old(Value()), gone), manager.Value(), Value())
      ensures old(process) == None ==> Value() == old(Value()) && manager.Value() == old(manager.Value())
      ensures old(process) != None ==>
                var pid, lives := old(process.value), old(process.value in manager.alive);
                && process == None && vivadoPid == None && !semHeld
                && manager.permits == old(manager.permits) + (if old(semHeld) then 1 else 0)
                && manager.alive == (if gone then old(manager.alive) - {pid} else old(manager.alive))
                && manager.lost == (if lives && !gone then old(manager.lost) + {pid} else old(manager.lost))
    {
      ghost var g, s := manager.Value(), Value();
      if process.None? {
        return;
      }
      var pid := process.value;
      var wasAlive := IsAlive(manager.Value(), Value());
      if wasAlive {
        if gone {
          manager.alive := manager.alive - {pid};
        } else {
          manager.lost := manager.lost + {pid};
        }
      }
      process := None;
      vivadoPid := None;
      if semHeld {
        manager.permits := manager.permits + 1;
        semHeld := false;
      }
      StopEnds(g, s, gone);
    }

    /** execute: start if need be, run the command, stop the process on a timeout. The command
        runs on the live process of the session, or on the one a start has spawned. It times
        out exactly when it was given a process and takes too long; the process is then gone,
        or has been given up on, and the session's permit is back. */
    method Execute(spawn: Option<Pid>, timesOut: bool, gone: bool) returns (r: ExecuteResult)
      requires spawn.Some? ==> spawn.value !in manager.used
      modifies this, manager
      ensures var g, s := old(manager.Value()), old(Value());
              Acts(g, s, ExecuteActions(g, s, spawn, timesOut, gone), manager.Value(), Value())
      ensures r.NotStarted? <==> !old(IsAlive(manager.Value(), Value()))
                                 && (spawn == None || (!old(semHeld) && old(manager.permits) == 0))
      ensures var owned := old(process.Some? && process.value in manager.alive);
              var starts := !old(IsAlive(manager.Value(), Value())) && (old(semHeld) || old(manager.permits) > 0) && spawn.Some?;
              && (r == TimedOut <==> (owned || starts) && timesOut)
              && (r == Finished <==> (owned || starts) && !timesOut)
              && (r == TimedOut ==>
                    var pid := if owned then old(process.value) else spawn.value;
                    && process == None && !semHeld
                    && manager.permits == old(manager.permits) + (if old(semHeld) then 1 else 0)
                    && (if gone then pid !in manager.alive else pid in manager.alive && pid in manager.lost))
              && (r == Finished ==>
                    && process == (if owned then old(process) else spawn) && process.value in manager.alive
                    && manager.lost == old(manager.lost)
                    && manager.permits + (if starts && !old(semHeld) then 1 else 0) == old(manager.permits))
      ensures r == NoHandle <==> old(process) == None && old(IsAlive(manager.Value(), Value()))
    {
      hide Acts;
      ghost var g, s := manager.Value(), Value();
      ghost var actions: seq<Action> := [];
      NothingDone(g, s);
      if !IsAlive(manager.Value(), Value()) {
        var started := StartVivado(spawn);
        actions := StartActions(g, s, spawn);
        assert actions + [] == actions;
        if started != Started {
          return NotStarted(started);
        }
      }
      if process.None? {
        return NoHandle;
      }
      if timesOut {
        ghost var g1, s1 := manager.Value(), Value();
        StopVivado(gone);
        ActsAppend(g, s, actions, g1, s1, StopActions(s1, gone), manager.Value(), Value());
        return TimedOut;
      }
      r := Finished;
    }
  }

  lemma NothingDone(g: Shared, s: Session)
    ensures Acts(g, s, [], g, s)
  {
  }

  lemma StartRefused(g: Shared, s: Session)
    requires s.at == Idle && !IsAlive(g, s) && !s.held && g.permits == 0
    ensures Acts(g, s, StartActions(g, s, None), g, s)
    ensures forall p :: StartActions(g, s, p) == StartActions(g, s, None)
  {
    assert Acts(g, s.(at := Admitting), [TryAcquire], g, s) by {
      assert Acts(g, s, [], g, s);
    }
  }

  /** The state once the permit is in hand. */
  lemma Admitted(g: Shared, s: Session)
    requires s.at == Idle && !IsAlive(g, s) && (s.held || g.permits > 0)
    ensures Acts(g, s, [StartCheck, TryAcquire] + (if s.held then [] else [MarkHeld]),
                 if s.held then g else g.(permits := g.permits - 1), s.(held := true, at := Spawning))
  {
    var g1 := if s.held then g else g.(permits := g.permits - 1);
    var s1 := s.(held := true, at := Spawning);
    if s.held {
      assert Acts(g, s.(at := Admitting), [TryAcquire], g1, s1);
      assert ([StartCheck, TryAcquire] + [])[1..] == [TryAcquire];
    } else {
      assert Acts(g1, s.(at := Acquired), [MarkHeld], g1, s1);
      assert [TryAcquire, MarkHeld][1..] == [MarkHeld];
      assert Acts(g, s.(at := Admitting), [TryAcquire, MarkHeld], g1, s1);
      assert ([StartCheck, TryAcquire] + [MarkHeld])[1..] == [TryAcquire, MarkHeld];
    }
  }

  lemma StartSpawns(g: Shared, s: Session, pid: Pid)
    requires s.at == Idle && !IsAlive(g, s) && (s.held || g.permits > 0) && pid !in g.used
    ensures Acts(g, s, StartActions(g, s, Some(pid)),
                 (if s.held then g else g.(permits := g.permits - 1)).(alive := g.alive + {pid}, used := g.used + {pid}),
                 Session(Some(pid), true, Some(pid), Idle))
  {
    var g1 := if s.held then g else g.(permits := g.permits - 1);
    var s1 := s.(held := true, at := Spawning);
    var (g2, s2) := Act(g1, s1, SpawnOk(pid));
    Admitted(g, s);
    assert Acts(g1, s1, [SpawnOk(pid)], g2, s2);
    ActsAppend(g, s, [StartCheck, TryAcquire] + (if s.held then [] else [MarkHeld]), g1, s1, [SpawnOk(pid)], g2, s2);
  }

  lemma StartFails(g: Shared, s: Session)
    requires s.at == Idle && !IsAlive(g, s) && (s.held || g.permits > 0)
    ensures Acts(g, s, StartActions(g, s, None), if s.held then g.(permits := g.permits + 1) else g, s.(held := false))
  {
    var g1 := if s.held then g else g.(permits := g.permits - 1);
    var s1 := s.(held := true, at := Spawning);
    var g2, s2 := g1.(permits := g1.permits + 1), s.(held := false);
    Admitted(g, s);
    LetGo(g1, s1.(at := Releasing));
    assert [SpawnFail, Release, Clear][1..] == [Release, Clear];
    assert Acts(g1, s1, [SpawnFail, Release, Clear], g2, s2);
    ActsAppend(g, s, [StartCheck, TryAcquire] + (if s.held then [] else [MarkHeld]), g1, s1,
               [SpawnFail, Release, Clear], g2, s2);
  }

  lemma LetGo(g: Shared, s: Session)
    requires s.at == Releasing
    ensures Acts(g, s, [Release, Clear], g.(permits := g.permits + 1), s.(held := false, at := Idle))
  {
    var g1 := g.(permits := g.permits + 1);
    assert Acts(g1, s.(at := Clearing), [Clear], g1, s.(held := false, at := Idle));
    assert [Release, Clear][1..] == [Clear];
  }

  lemma StopEnds(g: Shared, s: Session, gone: bool)
    requires s.at == Idle && s.process.Some?
    ensures var pid, live := s.process.value, OwnsLive(g, s);
            var g' := g.(alive := if live && gone then g.alive - {pid} else g.alive,
                         lost := if live && !gone then g.lost + {pid} else g.lost,
                         permits := g.permits + if s.held then 1 else 0);
            Acts(g, s, StopActions(s, gone), g', Session(None, false, None, Idle))
  {
    var s1 := s.(at := Stopping);
    var (g2, s2) := Act(g, s1, Kill(gone));
    var (g3, s3) := Act(g2, s2, Drop);
    var rest := if s.held then [Release, Clear] else [];
    if s.held {
      LetGo(g3, s3);
    }
    var g' := g3.(permits := g.permits + if s.held then 1 else 0);
    assert Acts(g3, s3, rest, g', IDLE);
    assert ([Drop] + rest)[1..] == rest;
    assert Acts(g2, s2, [Drop] + rest, g', IDLE);
    assert ([Kill(gone), Drop] + rest)[1..] == [Drop] + rest;
    assert Acts(g, s1, [Kill(gone), Drop] + rest, g', IDLE);
    assert ([StopCheck, Kill(gone), Drop] + rest)[1..] == [Kill(gone), Drop] + rest;
  }

  // ---------------------------------------------------------------------------
  // How the limit is exceeded
  // ---------------------------------------------------------------------------

  /** Session i stops its live process in vain, and starts another. */
  function GiveUpAndRestart(y: System, i: nat, pid: Pid): seq<Event>
    requires i < |y.sessions|
  {
    Doing(i, StopActions(y.sessions[i], false)) + Doing(i, StartActions(Released(y.shared, y.sessions[i]), IDLE, Some(pid)))
  }

  /** After the stop: the permit is back, the process lives on. */
  function Released(g: Shared, s: Session): Shared {
    g.(lost := if s.process.Some? then g.lost + {s.process.value} else g.lost, permits := g.permits + 1)
  }

  function Restarted(y: System, i: nat, pid: Pid): System
    requires i < |y.sessions| && y.sessions[i].process.Some?
  {
    var g := y.shared;
    System(g.(alive := g.alive + {pid}, used := g.used + {pid}, lost := g.lost + {y.sessions[i].process.value}),
           y.sessions[i := Session(Some(pid), true, Some(pid), Idle)])
  }

  /** From every reachable state: a session that gives up on its live process and starts again
      adds one to the live processes, without another permit. At the limit that exceeds it. */
  lemma GivingUpExceeds(y: System, i: nat, pid: Pid, max: nat, before: set<Pid>)
    requires Inv(y, max) && before <= y.shared.used
    requires i < |y.sessions| && y.sessions[i].at == Idle && OwnsLive(y.shared, y.sessions[i]) && pid !in y.shared.used
    ensures var y' := Restarted(y, i, pid);
            && Run(y, GiveUpAndRestart(y, i, pid), y') && y'.shared.permits == y.shared.permits
            && |y'.shared.alive - before| == |y.shared.alive - before| + 1
            && y.sessions[i].process.value in y'.shared.lost * y'.shared.alive
  {
    hide Run, Doing, Acts, StopActions, StartActions;
    var g, s := y.shared, y.sessions[i];
    InvSessions(y, max);
    StopEnds(g, s, false);
    var g1 := Released(g, s);
    var m := System(g1, y.sessions[i := IDLE]);
    ActsAreARun(y, i, StopActions(s, false), g1, IDLE);
    StartSpawns(g1, IDLE, pid);
    var y' := Restarted(y, i, pid);
    assert m.sessions[i := Session(Some(pid), true, Some(pid), Idle)] == y'.sessions;
    ActsAreARun(m, i, StartActions(g1, IDLE, Some(pid)), y'.shared, y'.sessions[i]);
    RunAppend(y, Doing(i, StopActions(s, false)), m, Doing(i, StartActions(g1, IDLE, Some(pid))), y');
    assert y'.shared.alive - before == (g.alive - before) + {pid};
  }

  lemma {:induction false} FreshPid(s: set<Pid>) returns (p: Pid)
    ensures p !in s && forall q :: q in s ==> q < p
  {
    if s == {} {
      p := 0;
    } else {
      var q :| q in s;
      p := FreshPid(s - {q});
      assert forall x :: x in s ==> x in s - {q} || x == q;
      if p <= q {
        p := q + 1;
      }
    }
  }

  /** Session i idles with a live process, and n have been started here that still live. */
  ghost predicate Living(y: System, i: nat, before: set<Pid>, n: nat) {
    && i < |y.sessions| && y.sessions[i].at == Idle && OwnsLive(y.shared, y.sessions[i])
    && before <= y.shared.used && |y.shared.alive - before| == n
  }

  lemma FirstProcess(y: System, i: nat, max: nat) returns (es: seq<Event>, y': System)
    requires Initial(y, max) && max > 0 && i < |y.sessions| && !IsAlive(y.shared, y.sessions[i])
    ensures Run(y, es, y') && Living(y', i, y.shared.alive, 1)
  {
    hide Run, Doing, Acts, StartActions;
    var pid := FreshPid(y.shared.used);
    var g := y.shared;
    var s' := Session(Some(pid), true, Some(pid), Idle);
    y' := System(g.(permits := g.permits - 1, alive := g.alive + {pid}, used := g.used + {pid}), y.sessions[i := s']);
    es := Doing(i, StartActions(g, y.sessions[i], Some(pid)));
    StartSpawns(g, y.sessions[i], pid);
    ActsAreARun(y, i, StartActions(g, y.sessions[i], Some(pid)), y'.shared, s');
    assert y'.shared.alive - g.alive == {pid};
  }

  lemma OneMoreProcess(y: System, i: nat, max: nat, before: set<Pid>, n: nat) returns (es: seq<Event>, y': System)
    requires Inv(y, max) && Living(y, i, before, n)
    ensures Run(y, es, y') && Living(y', i, before, n + 1)
  {
    hide Run, Inv, GiveUpAndRestart;
    var pid := FreshPid(y.shared.used);
    GivingUpExceeds(y, i, pid, max, before);
    es, y' := GiveUpAndRestart(y, i, pid), Restarted(y, i, pid);
  }

  /** So with stops that give up there is no bound at all: one session and one permit are
      enough for any number of live processes. */
  lemma {:induction false} NoLimitWithGiveUps(y: System, i: nat, max: nat, n: nat) returns (es: seq<Event>, y': System)
    requires Initial(y, max) && max > 0 && i < |y.sessions| && !IsAlive(y.shared, y.sessions[i])
    ensures Run(y, es, y') && Living(y', i, y.shared.alive, n + 1)
  {
    hide Run, Inv, Living, Initial;
    if n == 0 {
      es, y' := FirstProcess(y, i, max);
    } else {
      var fs, m := NoLimitWithGiveUps(y, i, max, n - 1);
      InitialIsInv(y, max);
      RunKeeps(y, fs, m, max);
      var gs;
      gs, y' := OneMoreProcess(m, i, max, y.shared.alive, n);
      es := fs + gs;
      RunAppend(y, fs, m, gs, y');
    }
  }

  lemma InitialIsInv(y: System, max: nat)
    requires Initial(y, max)
    ensures Inv(y, max)
  {
    NobodyHolds(y.sessions);
  }
}
