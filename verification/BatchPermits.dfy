/** Workers of a batch round and process permits: a worker starts Vivado in the session of its
    task and stops it before the task ends (tools/vivado_core/batch.py:552-587 and 858-870),
    and starting asks the semaphore without waiting (tools/vivado_core/session.py:236-244). */
module BatchPermits {
  import opened Wrappers
  import opened Permits

  /** The number of workers of a round. */
  function MaxWorkers(maxParallel: int, maxConcurrent: int): nat {
    var m := if maxParallel < maxConcurrent then maxParallel else maxConcurrent;
    if m > 1 then m else 1
  }

  /** Never more workers than permits, as long as there is a permit at all. */
  lemma WorkersFit(maxParallel: int, maxConcurrent: int)
    ensures MaxWorkers(maxParallel, maxConcurrent) <= maxConcurrent <==> maxConcurrent >= 1
  {
  }

  /** The system of Permits, and the sessions whose tasks a worker is running. */
  datatype Pool = Pool(system: System, active: set<nat>)

  datatype PoolEvent =
    | Enter(i: nat)       // a free worker takes the task of session i
    | Leave(i: nat)       // the task ends, after stop_vivado
    | Inside(e: Event)    // an action of a running task, or the death of a process

  predicate PoolPossible(p: Pool, workers: nat, e: PoolEvent) {
    match e
    case Enter(i) => i < |p.system.sessions| && i !in p.active && |p.active| < workers
    case Leave(i) =>
      i in p.active && i < |p.system.sessions| && p.system.sessions[i].at == Idle && p.system.sessions[i].process == None
    case Inside(e) => Possible(p.system, e) && (e.Does? ==> e.who in p.active)
  }

  function PoolNext(p: Pool, e: PoolEvent): Pool
    requires e.Inside? ==> Possible(p.system, e.e)
  {
    match e
    case Enter(i) => p.(active := p.active + {i})
    case Leave(i) => p.(active := p.active - {i})
    case Inside(e) => p.(system := Next(p.system, e))
  }

  ghost predicate PoolRun(p: Pool, workers: nat, es: seq<PoolEvent>, p': Pool)
    decreases |es|
  {
    if es == [] then p' == p
    else PoolPossible(p, workers, es[0]) && PoolRun(PoolNext(p, es[0]), workers, es[1..], p')
  }

  /** A permit in hand goes with a process, except on the way there or back. */
  predicate Tidy(s: Session) {
    s.held && s.process.None? ==> s.at in {Spawning, Releasing, Clearing}
  }

  /** Only running tasks hold permits. */
  ghost predicate PoolOk(p: Pool, workers: nat, max: nat) {
    && Inv(p.system, max) && |p.active| <= workers
    && forall i :: 0 <= i < |p.system.sessions| ==>
         Tidy(p.system.sessions[i]) && (Holds(p.system.sessions[i]) ==> i in p.active)
  }

  lemma ActIsTidy(g: Shared, s: Session, a: Action)
    requires Enabled(g, s, a) && SessionOk(g, s) && Tidy(s)
    ensures Tidy(Act(g, s, a).1)
  {
  }

  lemma PoolStep(p: Pool, workers: nat, e: PoolEvent, max: nat)
    requires PoolOk(p, workers, max) && PoolPossible(p, workers, e)
    ensures PoolOk(PoolNext(p, e), workers, max)
  {
    match e
    case Enter(_) => hide Inv;
    case Leave(_) => hide Inv;
    case Inside(f) => ActionInside(p, workers, f, max);
  }

  lemma ActionInside(p: Pool, workers: nat, e: Event, max: nat)
    requires PoolOk(p, workers, max) && Possible(p.system, e) && (e.Does? ==> e.who in p.active)
    ensures PoolOk(p.(system := Next(p.system, e)), workers, max)
  {
    InvSessions(p.system, max);
    hide Inv, Act, Enabled, Tidy, Holds, SessionOk;
    StepKeeps(p.system, e, max);
    if e.Does? {
      ActionIsTidy(p.system, e.who, e.action);
    }
  }

  lemma ActionIsTidy(y: System, i: nat, a: Action)
    requires i < |y.sessions| && Enabled(y.shared, y.sessions[i], a) && Tidy(y.sessions[i])
    requires forall j :: 0 <= j < |y.sessions| ==> SessionOk(y.shared, y.sessions[j])
    ensures Tidy(Act(y.shared, y.sessions[i], a).1)
  {
    hide Act, Enabled, Tidy, SessionOk;
    ActIsTidy(y.shared, y.sessions[i], a);
  }

  lemma {:induction false} PoolRunKeeps(p: Pool, workers: nat, es: seq<PoolEvent>, p': Pool, max: nat)
    requires PoolOk(p, workers, max) && PoolRun(p, workers, es, p')
    ensures PoolOk(p', workers, max)
    decreases |es|
  {
    hide PoolOk;
    if es != [] {
      PoolStep(p, workers, es[0], max);
      PoolRunKeeps(PoolNext(p, es[0]), workers, es[1..], p', max);
    }
  }

  lemma {:induction false} HoldersAmong(ss: seq<Session>, a: set<nat>)
    requires forall i :: 0 <= i < |ss| && Holds(ss[i]) ==> i in a
    ensures Holders(ss) <= |a|
  {
    hide Holds;
    if ss != [] {
      var n := |ss| - 1;
      if Holds(ss[n]) {
        HoldersAmong(ss[..n], a - {n});
      } else {
        HoldersAmong(ss[..n], a);
      }
    }
  }

  lemma PermitsLeft(y: System, workers: nat, es: seq<PoolEvent>, p: Pool, max: nat, i: nat)
    requires Initial(y, max) && PoolRun(Pool(y, {}), workers, es, p)
    requires i in p.active && i < |p.system.sessions| && !Holds(p.system.sessions[i])
    ensures workers <= max ==> p.system.shared.permits > 0
    ensures max == 0 ==> p.system.shared.permits == 0
  {
    hide PoolRun;
    InitialIsInv(y, max);
    PoolRunKeeps(Pool(y, {}), workers, es, p, max);
    HoldersAmong(p.system.sessions, p.active - {i});
  }

  /** In every interleaving of a round with the source's number of workers a running task that
      holds no permit finds one exactly when there are permits at all: no start inside a batch
      meets the limit, whatever --max-parallel asks for. */
  lemma NoStartIsRefused(y: System, maxParallel: int, es: seq<PoolEvent>, p: Pool, max: nat, i: nat)
    requires Initial(y, max) && PoolRun(Pool(y, {}), MaxWorkers(maxParallel, max), es, p)
    requires i in p.active && i < |p.system.sessions| && !Holds(p.system.sessions[i])
    ensures p.system.shared.permits > 0 <==> max >= 1
  {
    hide PoolRun;
    WorkersFit(maxParallel, max);
    PermitsLeft(y, MaxWorkers(maxParallel, max), es, p, max, i);
  }
}
