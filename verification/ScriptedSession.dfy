/** create, refresh and sim of tools/vivado_core/operations.py:933-1307 as methods of a
    session: each is a run of the events of SessionRuns, with others editing the sources
    between the steps of its script. */
module ScriptedSession {
  import opened Wrappers
  import opened Staleness
  import opened SessionRuns

  /** Step i of a script finds the sources at(i), whatever others did to them meanwhile. */
  function StepEvents(steps: seq<TclStep>, at: nat -> Sources, k: nat): seq<Event>
    requires k <= |steps|
  {
    if k == 0 then [] else StepEvents(steps, at, k - 1) + [Edit(at(k - 1)), DoStep(steps[k - 1])]
  }

  /** One operation; a recording sees at(|steps|). `left` is what a failing script leaves. */
  function ScriptEvents(begin: Event, steps: seq<TclStep>, at: nat -> Sources, left: Option<Project>): seq<Event> {
    [begin] + (if left.Some? then [Breaks(left.value)] else StepEvents(steps, at, |steps|))
      + [Edit(at(|steps|)), if begin.BeginSim? then End else Record]
  }

  /** The project after k steps. */
  function Scripted(c: Setup, q: Project, at: nat -> Sources, config: nat, steps: seq<TclStep>, k: nat): Project
    requires k <= |steps|
  {
    if k == 0 then q else StepDone(c, Scripted(c, q, at, config, steps, k - 1), at(k - 1), config, steps[k - 1])
  }

  lemma ScriptedNext(c: Setup, q: Project, at: nat -> Sources, config: nat, steps: seq<TclStep>, k: nat, p: Part)
    requires k < |steps|
    ensures var x, y := Scripted(c, q, at, config, steps, k), Scripted(c, q, at, config, steps, k + 1);
            if p in Reads(c, steps[k]) then Has(y, p, Taken(at(k), config, p))
            else if p in Clears(c, steps[k]) then p !in y
            else Same(x, y, p)
  {
    StepEffect(c, Scripted(c, q, at, config, steps, k), at(k), config, steps[k], p);
  }

  /** In sources that keep still the steps do what StepsDone says. */
  lemma {:induction false} StillScripted(c: Setup, q: Project, at: nat -> Sources, config: nat, steps: seq<TclStep>, k: nat)
    requires k <= |steps| && forall i :: at(i) == at(0)
    ensures Scripted(c, q, at, config, steps, k) == StepsDone(c, q, at(0), config, steps[..k])
  {
    hide StepDone;
    if k > 0 {
      StillScripted(c, q, at, config, steps, k - 1);
      assert steps[..k] == steps[..k - 1] + [steps[k - 1]];
      StepsInTurn(c, q, at(0), config, steps[..k - 1], [steps[k - 1]]);
      FewSteps(c, StepsDone(c, q, at(0), config, steps[..k - 1]), at(0), config, steps[k - 1], steps[k - 1]);
      assert at(k - 1) == at(0);
    }
  }

  // ---------------------------------------------------------------------------
  // The events of a script
  // ---------------------------------------------------------------------------

  lemma RanOne(c: Setup, s: State, a: Event)
    ensures Ran(c, s, [a]) <==> Possible(c, s, a)
    ensures After(c, s, [a]) == Next(c, s, a)
  {
    RanSnoc(c, s, [], a);
    assert [] + [a] == [a];
  }

  lemma RanTwo(c: Setup, s: State, es: seq<Event>, a: Event, b: Event)
    requires Ran(c, s, es) && Possible(c, After(c, s, es), a) && Possible(c, Next(c, After(c, s, es), a), b)
    ensures Ran(c, s, es + [a, b])
    ensures After(c, s, es + [a, b]) == Next(c, Next(c, After(c, s, es), a), b)
  {
    hide Possible, Next;
    RanSnoc(c, s, es, a);
    RanSnoc(c, s, es + [a], b);
    assert es + [a] + [b] == es + [a, b];
  }

  lemma StepRuns(c: Setup, s0: State, es: seq<Event>, s: State, to: Sources)
    requires Ran(c, s0, es) && After(c, s0, es) == s && s.job.Script? && s.job.todo != []
    ensures var fs := es + [Edit(to), DoStep(s.job.todo[0])];
            && Ran(c, s0, fs)
            && After(c, s0, fs) == State(to, s.recorded, StepDone(c, s.project, to, s.job.config, s.job.todo[0]),
                                         s.job.(todo := s.job.todo[1..]))
  {
    hide StepDone, Ran, After;
    RanTwo(c, s0, es, Edit(to), DoStep(s.job.todo[0]));
  }

  lemma LastRuns(c: Setup, s0: State, es: seq<Event>, s: State, to: Sources)
    requires Ran(c, s0, es) && After(c, s0, es) == s && s.job.Script? && s.job.todo == []
    ensures var fs := es + [Edit(to), if s.job.records then Record else End];
            && Ran(c, s0, fs)
            && After(c, s0, fs) == State(to, if s.job.records then Some(to) else s.recorded, s.project, Idle)
  {
    hide Ran, After;
    RanTwo(c, s0, es, Edit(to), if s.job.records then Record else End);
  }

  lemma BreaksRuns(c: Setup, s0: State, es: seq<Event>, s: State, left: Project)
    requires Ran(c, s0, es) && After(c, s0, es) == s && s.job.Script?
    ensures Ran(c, s0, es + [Breaks(left)])
    ensures After(c, s0, es + [Breaks(left)]) == s.(project := left, job := s.job.(todo := []))
  {
    hide Ran, After;
    RanSnoc(c, s0, es, Breaks(left));
  }

  // ---------------------------------------------------------------------------
  // The session
  // ---------------------------------------------------------------------------

  /** What a simulation came to: stopped by preflight, or for want of a file; failed; run on
      this project. */
  datatype SimResult = Stopped | Missing | Failed | Simulated(project: Project)

  class Session {
    const setup: Setup
    var hashes: Hashes
    var project: Project
    ghost var recorded: Option<Sources>

    ghost predicate Valid()
      reads this
    {
      hashes == HashesOf(setup, recorded)
    }

    constructor (setup: Setup)
      ensures this.setup == setup && Valid() && recorded == None && project == map[]
    {
      this.setup, hashes, project, recorded := setup, map[], map[], None;
    }

    ghost function Value(now: Sources, job: Job): State
      reads this
    {
      State(now, recorded, project, job)
    }

    /** session.execute of the script, and _update_hashes for create and refresh. */
    method RunScript(steps: seq<TclStep>, at: nat -> Sources, config: nat, records: bool, left: Option<Project>,
                     ghost begin: Event)
      requires Valid() && Possible(setup, Value(at(0), Idle), begin) && (begin.BeginSim? <==> !records)
      requires Next(setup, Value(at(0), Idle), begin) == Value(at(0), Script(steps, config, records))
      modifies this
      ensures Valid()
      ensures var es := ScriptEvents(begin, steps, at, left);
              Ran(setup, old(Value(at(0), Idle)), es)
              && After(setup, old(Value(at(0), Idle)), es) == Value(at(|steps|), Idle)
      ensures left.None? ==> project == Scripted(setup, old(project), at, config, steps, |steps|)
      ensures recorded == if records then Some(at(|steps|)) else old(recorded)
    {
      hide StepDone, Current, Ran, After, Possible, Next;
      ghost var s0 := Value(at(0), Idle);
      ghost var es := [begin];
      RanOne(setup, s0, begin);
      if left.Some? {
        BreaksRuns(setup, s0, es, Value(at(0), Script(steps, config, records)), left.value);
        project := left.value;
        es := es + [Breaks(left.value)];
      } else {
        assert [begin] + StepEvents(steps, at, 0) == [begin];
        var i := 0;
        while i < |steps|
          invariant 0 <= i <= |steps| && es == [begin] + StepEvents(steps, at, i)
          invariant hashes == old(hashes) && recorded == old(recorded)
          invariant Ran(setup, s0, es)
          invariant After(setup, s0, es) == Value(at(if i == 0 then 0 else i - 1), Script(steps[i..], config, records))
          invariant project == Scripted(setup, old(project), at, config, steps, i)
        {
          StepRuns(setup, s0, es, After(setup, s0, es), at(i));
          project := StepDone(setup, project, at(i), config, steps[i]);
          es := es + [Edit(at(i)), DoStep(steps[i])];
          assert es == [begin] + (StepEvents(steps, at, i) + [Edit(at(i)), DoStep(steps[i])]);
          assert steps[i..][1..] == steps[i + 1..];
          i := i + 1;
        }
        assert steps[|steps|..] == [];
      }
      LastRuns(setup, s0, es, After(setup, s0, es), at(|steps|));
      if records {
        hashes := Current(setup.hash, at(|steps|));
        recorded := Some(at(|steps|));
      }
    }

    /** create: `missing` when a required file is missing. If the script succeeds, what is
        recorded of firmware or constraints is what the project has exactly when it is the
        same at the step that takes it and at the recording; of IP, exactly when the loaded
        configuration is then on disk. HDL is listed, not copied. */
    method Create(at: nat -> Sources, config: nat, missing: bool, left: Option<Project>)
      requires Valid()
      modifies this
      ensures Valid()
      ensures missing ==> hashes == old(hashes) && project == old(project) && recorded == old(recorded)
      ensures !missing ==>
                var es := ScriptEvents(BeginCreate(config), CREATE_STEPS, at, left);
                Ran(setup, old(Value(at(0), Idle)), es)
                && After(setup, old(Value(at(0), Idle)), es) == Value(at(3), Idle)
      ensures !missing && left.None? ==>
                var s := Value(at(3), Idle);
                && (Matches(s, Ip) <==> config == at(3).ip)
                && (Matches(s, Rom) <==> at(1).rom == at(3).rom)
                && (Matches(s, Constrs) <==> at(2).constrs == at(3).constrs)
                && Listing in project && Hdl !in project && Bench !in project && Hex !in project
    {
      hide Ran, After, Current, ScriptEvents, Scripted;
      if missing {
        return;
      }
      RunScript(CREATE_STEPS, at, config, true, left, BeginCreate(config));
      if left.None? {
        CreateScripted(setup, old(project), at, config);
      }
    }

    /** refresh: nothing happens when at most src needs it. Otherwise nothing is stale at the
        recording, even if the script failed. If it succeeds and nobody edits meanwhile, what
        is recorded of IP, firmware or constraints becomes what the project has where the plan
        renews it (IP: from the configuration on disk), and stays so where it was so. */
    method Refresh(at: nat -> Sources, forced: set<Layer>, config: nat, left: Option<Project>)
      requires Valid()
      modifies this
      ensures Valid()
      ensures var todo := Todo(setup, old(Value(at(0), Idle)), forced);
              if todo <= {Src} then hashes == old(hashes) && project == old(project) && recorded == old(recorded)
              else
                var steps := PlanFor(todo).steps;
                var es := ScriptEvents(BeginRefresh(forced, config), steps, at, left);
                && Ran(setup, old(Value(at(0), Idle)), es)
                && After(setup, old(Value(at(0), Idle)), es) == Value(at(|steps|), Idle)
                && (forall l :: !Stale(setup.hash, at(|steps|), hashes, l))
                && (left.None? && Injective(setup.hash) && (forall i :: at(i) == at(0)) ==>
                    forall p :: p in KEPT ==>
                      (Matches(Value(at(|steps|), Idle), p) <==>
                       if Renews(setup, todo, p) then p == Ip ==> config == at(0).ip
                       else old(Matches(Value(at(0), Idle), p))))
    {
      hide Ran, After, Current, ScriptEvents, PlanFor, Serves, Delivers, Matches, Renews, Scripted, Stale;
      ghost var s0 := Value(at(0), Idle);
      ghost var todo := Todo(setup, s0, forced);
      var stale := set l: Layer | l in LAYERS && (Stale(setup.hash, at(0), hashes, l) || l in forced);
      assert stale == todo;
      var plan := PlanRefresh(stale);
      EmptyMeans(plan, stale);
      if plan.layers == [] {
        return;
      }
      RunScript(plan.steps, at, config, true, left, BeginRefresh(forced, config));
      CurrentHash(setup.hash, at(|plan.steps|));
      if left.None? && Injective(setup.hash) && forall i :: at(i) == at(0) {
        StillScripted(setup, old(project), at, config, plan.steps, |plan.steps|);
        assert plan.steps[..|plan.steps|] == plan.steps && at(|plan.steps|) == at(0);
        forall p | p in KEPT
          ensures Matches(Value(at(|plan.steps|), Idle), p) <==>
                    if Renews(setup, todo, p) then p == Ip ==> config == at(0).ip else Matches(s0, p)
        {
          RefreshMatches(setup, s0, forced, config, Value(at(|plan.steps|), Idle), p);
        }
      }
    }

    /** sim: if preflight lets it pass, no file is missing and its script succeeds, it runs on
        HDL and testbench as its first step found them, on the hex files its second step found,
        and on the IP that was there; nothing is recorded. */
    method Sim(at: nat -> Sources, missing: bool, left: Option<Project>) returns (r: SimResult)
      requires Valid() && setup.hasTb
      modifies this
      ensures Valid() && hashes == old(hashes) && recorded == old(recorded)
      ensures r == Stopped <==> Preflight(setup.hash, at(0), old(hashes), Operation.Sim) == Error
      ensures r == Missing <==> r != Stopped && missing
      ensures r == Failed <==> r != Stopped && r != Missing && left.Some?
      ensures r == Stopped || r == Missing ==> project == old(project)
      ensures r.Failed? || r.Simulated? ==>
                var es := ScriptEvents(BeginSim, SIM_STEPS, at, left);
                Ran(setup, old(Value(at(0), Idle)), es)
                && After(setup, old(Value(at(0), Idle)), es) == Value(at(3), Idle)
      ensures r.Simulated? ==>
                && r.project == project
                && Has(project, Hdl, at(0).hdl) && Has(project, Bench, at(0).bench)
                && (setup.hasHex ==> Has(project, Hex, at(1).hex))
                && Same(old(project), project, Ip)
                && Listing !in project
    {
      hide Ran, After, Current, ScriptEvents, Preflight, Scripted;
      if Preflight(setup.hash, at(0), hashes, Operation.Sim) == Error {
        return Stopped;
      }
      if missing {
        return Missing;
      }
      RunScript(SIM_STEPS, at, 0, false, left, BeginSim);
      if left.Some? {
        return Failed;
      }
      SimScripted(setup, old(project), at);
      r := Simulated(project);
    }
  }

  lemma EmptyMeans(p: Plan, stale: set<Layer>)
    requires Serves(p, stale)
    ensures p.layers == [] <==> stale <= {Src}
  {
  }

  lemma CurrentHash(hash: Hash, now: Sources)
    ensures forall l :: !Stale(hash, now, Current(hash, now), l)
  {
  }

  lemma ThreeScripted(c: Setup, q: Project, at: nat -> Sources, config: nat, steps: seq<TclStep>, p: Part)
    requires |steps| == 3
    ensures var q' := Scripted(c, q, at, config, steps, 3);
            if p in Reads(c, steps[2]) then Has(q', p, Taken(at(2), config, p))
            else if p in Clears(c, steps[2]) then p !in q'
            else if p in Reads(c, steps[1]) then Has(q', p, Taken(at(1), config, p))
            else if p in Clears(c, steps[1]) then p !in q'
            else if p in Reads(c, steps[0]) then Has(q', p, Taken(at(0), config, p))
            else if p in Clears(c, steps[0]) then p !in q'
            else Same(q, q', p)
  {
    assert Scripted(c, q, at, config, steps, 0) == q;
    hide Scripted, Reads, Clears;
    ScriptedNext(c, q, at, config, steps, 0, p);
    ScriptedNext(c, q, at, config, steps, 1, p);
    ScriptedNext(c, q, at, config, steps, 2, p);
  }

  lemma CreateScripted(c: Setup, q: Project, at: nat -> Sources, config: nat)
    ensures var q' := Scripted(c, q, at, config, CREATE_STEPS, 3);
            && Has(q', Ip, config) && Has(q', Rom, at(1).rom) && Has(q', Constrs, at(2).constrs)
            && Listing in q' && Hdl !in q' && Bench !in q' && Hex !in q'
  {
    hide Scripted;
    ThreeScripted(c, q, at, config, CREATE_STEPS, Ip);
    ThreeScripted(c, q, at, config, CREATE_STEPS, Rom);
    ThreeScripted(c, q, at, config, CREATE_STEPS, Constrs);
    ThreeScripted(c, q, at, config, CREATE_STEPS, Listing);
    ThreeScripted(c, q, at, config, CREATE_STEPS, Hdl);
    ThreeScripted(c, q, at, config, CREATE_STEPS, Bench);
    ThreeScripted(c, q, at, config, CREATE_STEPS, Hex);
  }

  lemma SimScripted(c: Setup, q: Project, at: nat -> Sources)
    requires c.hasTb
    ensures var q' := Scripted(c, q, at, 0, SIM_STEPS, 3);
            && Has(q', Hdl, at(0).hdl) && Has(q', Bench, at(0).bench) && (c.hasHex ==> Has(q', Hex, at(1).hex))
            && Same(q, q', Ip) && Listing !in q'
  {
    hide Scripted;
    ThreeScripted(c, q, at, 0, SIM_STEPS, Hdl);
    ThreeScripted(c, q, at, 0, SIM_STEPS, Bench);
    ThreeScripted(c, q, at, 0, SIM_STEPS, Hex);
    ThreeScripted(c, q, at, 0, SIM_STEPS, Ip);
    ThreeScripted(c, q, at, 0, SIM_STEPS, Listing);
  }

  /** What a successful refresh in sources that keep still makes of part p. */
  lemma RefreshMatches(c: Setup, s: State, forced: set<Layer>, config: nat, s': State, p: Part)
    requires Injective(c.hash) && p in KEPT
    requires s'.project == StepsDone(c, s.project, s.now, config, PlanFor(Todo(c, s, forced)).steps)
    requires s'.recorded == Some(s.now)
    ensures Matches(s', p) <==>
              if Renews(c, Todo(c, s, forced), p) then p == Ip ==> config == s.now.ip else Matches(s, p)
  {
    hide StepsDone, PlanFor, Todo, Injective;
    PlanDelivers(Todo(c, s, forced), c, s.project, s.now, config, p);
    if !Renews(c, Todo(c, s, forced), p) {
      NotRenewed(c, s, forced, p);
    }
  }

  /** A refresh does something exactly when more than src is stale or forced, and what it
      records leaves nothing stale. */
  lemma RefreshLeavesNothingStale(c: Setup, s: State, forced: set<Layer>, config: nat, es: seq<Event>)
    requires s.job == Idle && es != [] && es[0] == BeginRefresh(forced, config) && es[|es| - 1] == Record
    ensures Possible(c, s, es[0]) <==> !(Todo(c, s, forced) <= {Src})
    ensures var s' := After(c, s, es); forall l :: !Stale(c.hash, s'.now, HashesOf(c, s'.recorded), l)
  {
    hide Current, Todo, StepDone;
    PlanServes(Todo(c, s, forced));
    CurrentHash(c.hash, After(c, s, es).now);
  }
}
