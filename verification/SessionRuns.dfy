/** Is what is simulated or built what is in the sources? Create, refresh and sim as scripts
    that run while others edit the sources; create and refresh record the hashes afterwards
    (tools/vivado_core/operations.py:872-1307). A bitstream is built from the project as it is
    (operations.py:1511-1556). */
module SessionRuns {
  import opened Wrappers
  import opened Staleness

  /** What the session is doing: nothing, or running a script with these steps left, composed
      from this memory configuration. Create and refresh record hashes at the end. */
  datatype Job = Idle | Script(todo: seq<TclStep>, config: nat, records: bool)

  /** `recorded` are the sources meta.hashes was computed from; None before the first time. */
  datatype State = State(now: Sources, recorded: Option<Sources>, project: Project, job: Job)

  function HashesOf(c: Setup, recorded: Option<Sources>): Hashes {
    match recorded
    case None => map[]
    case Some(r) => Current(c.hash, r)
  }

  /** An edit may change any number of layers at any time. A refresh with an empty plan is not
      an event: it does nothing. Nor is a create or sim that misses a file, or a sim that
      preflight stops. The header that create writes before its script is an edit. `config` is the
      memory configuration the process has loaded, now or long ago. */
  datatype Event =
    | Edit(to: Sources)
    | BeginCreate(config: nat)
    | BeginRefresh(forced: set<Layer>, config: nat)
    | BeginSim
    | DoStep(step: TclStep)
    | Breaks(left: Project)     // the script fails or times out and leaves whatever it leaves
    | Abandons(left: Project)   // so it does, and an exception skips what comes after
    | Record                    // _update_hashes, after a failed script too
    | End                       // of a sim

  /** The layers refresh works on: the stale ones and the forced ones. */
  function ToRefresh(hash: Hash, now: Sources, hashes: Hashes, forced: set<Layer>): set<Layer> {
    set l: Layer | l in LAYERS && (Stale(hash, now, hashes, l) || l in forced)
  }

  function Todo(c: Setup, s: State, forced: set<Layer>): set<Layer> {
    ToRefresh(c.hash, s.now, HashesOf(c, s.recorded), forced)
  }

  predicate Possible(c: Setup, s: State, e: Event) {
    match e
    case Edit(_) => true
    case BeginCreate(_) => s.job == Idle
    case BeginRefresh(forced, _) => s.job == Idle && PlanFor(Todo(c, s, forced)).layers != []
    case BeginSim => s.job == Idle && c.hasTb && Preflight(c.hash, s.now, HashesOf(c, s.recorded), Sim) != Error
    case DoStep(step) => s.job.Script? && s.job.todo != [] && s.job.todo[0] == step
    case Breaks(_) => s.job.Script?
    case Abandons(_) => s.job.Script?
    case Record => s.job.Script? && s.job.todo == [] && s.job.records
    case End => s.job.Script? && s.job.todo == [] && !s.job.records
  }

  function Next(c: Setup, s: State, e: Event): State {
    match e
    case Edit(to) => s.(now := to)
    case BeginCreate(config) => s.(job := Script(CREATE_STEPS, config, true))
    case BeginRefresh(forced, config) => s.(job := Script(PlanFor(Todo(c, s, forced)).steps, config, true))
    case BeginSim => s.(job := Script(SIM_STEPS, 0, false))
    case DoStep(step) =>
      if s.job.Script? && s.job.todo != [] then
        s.(project := StepDone(c, s.project, s.now, s.job.config, step), job := s.job.(todo := s.job.todo[1..]))
      else s
    case Breaks(left) => s.(project := left, job := if s.job.Script? then s.job.(todo := []) else s.job)
    case Abandons(left) => s.(project := left, job := Idle)
    case Record => s.(recorded := Some(s.now), job := Idle)
    case End => s.(job := Idle)
  }

  function After(c: Setup, s: State, es: seq<Event>): State
    decreases |es|
  {
    if es == [] then s else Next(c, After(c, s, es[..|es| - 1]), es[|es| - 1])
  }

  predicate Ran(c: Setup, s: State, es: seq<Event>)
    decreases |es|
  {
    es == [] ||
    (Ran(c, s, es[..|es| - 1]) && Possible(c, After(c, s, es[..|es| - 1]), es[|es| - 1]))
  }

  function New(now: Sources): State {
    State(now, None, map[], Idle)
  }

  lemma RanSnoc(c: Setup, s: State, es: seq<Event>, e: Event)
    ensures After(c, s, es + [e]) == Next(c, After(c, s, es), e)
    ensures Ran(c, s, es + [e]) <==> Ran(c, s, es) && Possible(c, After(c, s, es), e)
  {
    assert (es + [e])[..|es|] == es;
  }

  // ---------------------------------------------------------------------------
  // When the recorded hashes can be believed
  // ---------------------------------------------------------------------------

  /** The parts that no operation takes anew before it uses them: the generated IP, in
      simulations and bitstreams, the boot ROM and the constraints, in bitstreams. */
  const KEPT: set<Part> := {Ip, Rom, Constrs}

  /** What was recorded is what the project was made from. */
  predicate Matches(s: State, p: Part) {
    s.recorded.Some? && Has(s.project, p, s.recorded.value.Of(p))
  }

  /** Part p on disk is as it was recorded. */
  predicate AsRecorded(s: State, p: Part) {
    s.recorded.Some? && s.recorded.value.Of(p) == s.now.Of(p)
  }

  /** A script that generates IP is composed. */
  predicate Composes(c: Setup, s: State, e: Event) {
    e.BeginCreate? || (e.BeginRefresh? && Rtl in Todo(c, s, e.forced))
  }

  /** The event takes p into the project such that the record, or the record the script ends
      with if nothing more happens, is right: a step of a create or refresh does; a step of a
      sim does when p is as recorded; IP is taken from the loaded configuration, and must be
      that on disk. */
  predicate Takes(c: Setup, s: State, e: Event, p: Part) {
    if p == Ip then Composes(c, s, e) && e.config == s.now.ip
    else e.DoStep? && p in Reads(c, e.step) && s.job.Script? && (s.job.records || AsRecorded(s, p))
  }

  predicate Fails(e: Event) {
    e.Breaks? || e.Abandons?
  }

  /** The event puts project and record apart: a script fails; p is edited while a create or
      refresh runs; a sim takes p edited since it was recorded; IP is generated from a
      configuration that is not on disk. */
  predicate Spoils(c: Setup, s: State, e: Event, p: Part) {
    || Fails(e)
    || (e.Edit? && s.job.Script? && s.job.records && e.to.Of(p) != s.now.Of(p))
    || (p == Ip && Composes(c, s, e) && e.config != s.now.ip)
    || (p != Ip && e.DoStep? && p in Reads(c, e.step) && s.job.Script? && !s.job.records && !AsRecorded(s, p))
  }

  /** Since p was last taken nothing has spoiled it. */
  predicate Vouched(c: Setup, s: State, es: seq<Event>, p: Part)
    decreases |es|
  {
    es != [] &&
    var before, e := es[..|es| - 1], es[|es| - 1];
    Takes(c, After(c, s, before), e, p) || (Vouched(c, s, before, p) && !Spoils(c, After(c, s, before), e, p))
  }

  predicate TakenAt(c: Setup, s: State, es: seq<Event>, i: nat, p: Part)
    requires i < |es|
  {
    Takes(c, After(c, s, es[..i]), es[i], p)
  }

  predicate SpoiledAt(c: Setup, s: State, es: seq<Event>, i: nat, p: Part)
    requires i < |es|
  {
    Spoils(c, After(c, s, es[..i]), es[i], p)
  }

  /** Event i took part p, and no later one spoiled it. */
  ghost predicate TakenUnspoiled(c: Setup, s: State, es: seq<Event>, i: nat, p: Part) {
    i < |es| && TakenAt(c, s, es, i, p) && forall j :: i < j < |es| ==> !SpoiledAt(c, s, es, j, p)
  }

  lemma Prefix(c: Setup, s: State, es: seq<Event>, n: nat, p: Part)
    requires n <= |es|
    ensures forall j :: 0 <= j < n ==> SpoiledAt(c, s, es[..n], j, p) == SpoiledAt(c, s, es, j, p)
    ensures forall j :: 0 <= j < n ==> TakenAt(c, s, es[..n], j, p) == TakenAt(c, s, es, j, p)
  {
    hide Spoils, Takes, After;
    assert forall j :: 0 <= j < n ==> es[..n][..j] == es[..j];
  }

  lemma TakesOrSpoils(c: Setup, s: State, e: Event, p: Part)
    ensures !(Takes(c, s, e, p) && Spoils(c, s, e, p))
  {
  }

  /** The same in other words: some event took p, and no later one spoiled it. */
  lemma {:induction false} VouchedMeans(c: Setup, s: State, es: seq<Event>, p: Part)
    ensures Vouched(c, s, es, p) <==> exists i :: TakenUnspoiled(c, s, es, i, p)
    decreases |es|
  {
    hide Takes, Spoils, After;
    if es != [] {
      var n := |es| - 1;
      VouchedMeans(c, s, es[..n], p);
      Prefix(c, s, es, n, p);
      if TakenUnspoiled(c, s, es, n, p) || TakenAt(c, s, es, n, p) {
        assert TakenUnspoiled(c, s, es, n, p);
      } else if SpoiledAt(c, s, es, n, p) {
        assert forall i: nat :: i < n ==> !TakenUnspoiled(c, s, es, i, p);
      } else {
        forall i: nat | i < n
          ensures TakenUnspoiled(c, s, es, i, p) <==> TakenUnspoiled(c, s, es[..n], i, p)
        {
        }
      }
    }
  }

  // ---------------------------------------------------------------------------
  // What the scripts take
  // ---------------------------------------------------------------------------

  ghost predicate WillTake(c: Setup, todo: seq<TclStep>, p: Part) {
    exists k :: 0 <= k < |todo| && p in Reads(c, todo[k])
  }

  /** What a script throws away it takes again later. */
  ghost predicate Restores(c: Setup, todo: seq<TclStep>, p: Part) {
    forall k :: 0 <= k < |todo| && p in Clears(c, todo[k]) ==> WillTake(c, todo[k..], p)
  }

  /** After a step, the rest of the script. */
  lemma StepLeaves(c: Setup, todo: seq<TclStep>, p: Part)
    requires todo != [] && Restores(c, todo, p)
    ensures Restores(c, todo[1..], p)
    ensures WillTake(c, todo, p) <==> p in Reads(c, todo[0]) || WillTake(c, todo[1..], p)
    ensures p in Clears(c, todo[0]) ==> WillTake(c, todo, p)
  {
    hide Reads, Clears;
    assert todo[0..] == todo;
    forall k | 0 <= k < |todo[1..]| && p in Clears(c, todo[1..][k])
      ensures WillTake(c, todo[1..][k..], p)
    {
      assert todo[1..][k..] == todo[k + 1..] && p in Clears(c, todo[k + 1]);
    }
    if WillTake(c, todo, p) && p !in Reads(c, todo[0]) {
      var k :| 0 <= k < |todo| && p in Reads(c, todo[k]);
      assert todo[1..][k - 1] == todo[k];
    }
    if WillTake(c, todo[1..], p) {
      var k :| 0 <= k < |todo[1..]| && p in Reads(c, todo[1..][k]);
      assert todo[k + 1] == todo[1..][k];
    }
  }

  lemma TakesFrom(c: Setup, todo: seq<TclStep>, p: Part, k: nat)
    requires k < |todo| && p in Reads(c, todo[k])
    ensures WillTake(c, todo, p)
    ensures forall j :: 0 <= j <= k ==> WillTake(c, todo[j..], p)
  {
    forall j | 0 <= j <= k
      ensures WillTake(c, todo[j..], p)
    {
      assert todo[j..][k - j] == todo[k];
    }
  }

  lemma NothingCleared(c: Setup, todo: seq<TclStep>, p: Part)
    requires forall k :: 0 <= k < |todo| ==> p !in Clears(c, todo[k])
    ensures Restores(c, todo, p)
  {
  }

  lemma CreateTakes(c: Setup, p: Part)
    requires p in KEPT
    ensures WillTake(c, CREATE_STEPS, p) && Restores(c, CREATE_STEPS, p)
  {
    TakesFrom(c, CREATE_STEPS, p, if p == Constrs then 2 else 1);
  }

  lemma FullTakes(c: Setup, p: Part)
    requires p in KEPT
    ensures WillTake(c, FULL_STEPS, p) && Restores(c, FULL_STEPS, p)
  {
    TakesFrom(c, FULL_STEPS, p, if p == Constrs then 4 else 3);
  }

  /** A simulation takes the boot ROM, which it does not use, and of the others nothing. */
  lemma SimTakes(c: Setup, p: Part)
    requires p in KEPT
    ensures Restores(c, SIM_STEPS, p) && (WillTake(c, SIM_STEPS, p) <==> p == Rom && c.hasTb)
  {
    NothingCleared(c, SIM_STEPS, p);
    if p == Rom && c.hasTb {
      TakesFrom(c, SIM_STEPS, p, 0);
    }
  }

  lemma TakesConcat(c: Setup, a: seq<TclStep>, b: seq<TclStep>, p: Part)
    ensures WillTake(c, a, p) || WillTake(c, b, p) <==> WillTake(c, a + b, p)
    ensures Restores(c, a, p) && Restores(c, b, p) ==> Restores(c, a + b, p)
  {
    hide Reads, Clears;
    TakesEither(c, a, b, p);
    if Restores(c, a, p) && Restores(c, b, p) {
      forall k | 0 <= k < |a + b| && p in Clears(c, (a + b)[k])
        ensures WillTake(c, (a + b)[k..], p)
      {
        if k < |a| {
          assert (a + b)[k..] == a[k..] + b && p in Clears(c, a[k]);
          TakesEither(c, a[k..], b, p);
        } else {
          assert (a + b)[k..] == b[k - |a|..] && p in Clears(c, b[k - |a|]);
        }
      }
    }
  }

  lemma TakesEither(c: Setup, a: seq<TclStep>, b: seq<TclStep>, p: Part)
    ensures WillTake(c, a, p) || WillTake(c, b, p) <==> WillTake(c, a + b, p)
  {
    hide Reads;
    assert forall k :: 0 <= k < |a + b| ==> (a + b)[k] == if k < |a| then a[k] else b[k - |a|];
    if WillTake(c, a, p) {
      var k :| 0 <= k < |a| && p in Reads(c, a[k]);
      assert (a + b)[k] == a[k];
    } else if WillTake(c, b, p) {
      var k :| 0 <= k < |b| && p in Reads(c, b[k]);
      assert (a + b)[|a| + k] == b[k];
    }
  }

  lemma TbTakes(c: Setup, p: Part)
    requires p in KEPT
    ensures Restores(c, TB_STEPS, p) && (WillTake(c, TB_STEPS, p) <==> p == Rom)
  {
    NothingCleared(c, TB_STEPS, p);
    if p == Rom {
      TakesFrom(c, TB_STEPS, p, 4);
    }
  }

  lemma CoeTakes(c: Setup, p: Part)
    requires p in KEPT
    ensures Restores(c, COE_STEPS, p) && (WillTake(c, COE_STEPS, p) <==> p == Rom)
  {
    NothingCleared(c, COE_STEPS, p);
    if p == Rom {
      TakesFrom(c, COE_STEPS, p, 0);
    }
  }

  lemma FpgaTakes(c: Setup, p: Part)
    requires p in KEPT
    ensures Restores(c, FPGA_STEPS, p) && (WillTake(c, FPGA_STEPS, p) <==> p == Constrs)
  {
    if p == Constrs {
      TakesFrom(c, FPGA_STEPS, p, 1);
    } else {
      NothingCleared(c, FPGA_STEPS, p);
    }
  }

  lemma NoSteps(c: Setup, p: Part)
    ensures Restores(c, [], p) && !WillTake(c, [], p)
  {
  }

  /** A refresh takes of these parts exactly those it renews. */
  lemma RefreshTakes(c: Setup, stale: set<Layer>, p: Part)
    requires p in KEPT
    ensures var steps := PlanFor(stale).steps;
            Restores(c, steps, p) && (WillTake(c, steps, p) <==> Renews(c, stale, p))
  {
    if Rtl in stale {
      FullTakes(c, p);
    } else {
      hide WillTake, Restores, TB_STEPS, COE_STEPS, FPGA_STEPS;
      var x := if Tb in stale then TB_STEPS else [];
      var y := if Coe in stale then COE_STEPS else [];
      var z := if Fpga in stale then FPGA_STEPS else [];
      TbTakes(c, p);
      CoeTakes(c, p);
      FpgaTakes(c, p);
      NoSteps(c, p);
      TakesConcat(c, x, y, p);
      TakesConcat(c, x + y, z, p);
    }
  }

  // ---------------------------------------------------------------------------
  // Vouched means matching
  // ---------------------------------------------------------------------------

  /** What vouching for p means at each moment: the record matches; while a create or refresh
      runs, the record it will make would. */
  ghost predicate Stands(c: Setup, s: State, p: Part) {
    if s.job == Idle || !s.job.records then Matches(s, p)
    else if WillTake(c, s.job.todo, p) then s.job.config == s.now.ip
    else Has(s.project, p, s.now.Of(p))
  }

  /** A part other than IP that the running create or refresh is still to take. */
  ghost predicate Pending(c: Setup, s: State, p: Part) {
    p != Ip && s.job.Script? && s.job.records && WillTake(c, s.job.todo, p)
  }

  /** The steps left of a simulation. */
  predicate SimRest(todo: seq<TclStep>) {
    todo == SIM_STEPS || todo == [CopyHex, Launch] || todo == [Launch] || todo == []
  }

  ghost predicate InOrder(c: Setup, s: State, p: Part) {
    s.job.Script? ==> Restores(c, s.job.todo, p) && (!s.job.records ==> SimRest(s.job.todo))
  }

  ghost predicate Sound(c: Setup, s: State, p: Part, vouched: bool) {
    InOrder(c, s, p) && (Pending(c, s, p) || (vouched ==> Stands(c, s, p)))
  }

  ghost predicate Complete(c: Setup, s: State, p: Part, vouched: bool) {
    InOrder(c, s, p) && (Pending(c, s, p) || (Stands(c, s, p) ==> vouched))
  }

  /** What is not stale is as recorded. */
  lemma FreshMeansRecorded(c: Setup, s: State, p: Part)
    requires Injective(c.hash) && !Stale(c.hash, s.now, HashesOf(c, s.recorded), LayerOf(p))
    ensures AsRecorded(s, p)
  {
    if s.recorded.Some? {
      assert c.hash(s.now.Content(LayerOf(p))) == c.hash(s.recorded.value.Content(LayerOf(p)));
      SameLayerSameParts(s.now, s.recorded.value, p);
    }
  }

  /** A refresh that does not renew p found it fresh. */
  lemma NotRenewed(c: Setup, s: State, forced: set<Layer>, p: Part)
    requires Injective(c.hash) && p in KEPT && !Renews(c, Todo(c, s, forced), p)
    ensures AsRecorded(s, p)
  {
    EveryLayer();
    FreshMeansRecorded(c, s, p);
  }

  lemma BeginKeeps(c: Setup, s: State, e: Event, p: Part, v: bool)
    requires Injective(c.hash) && p in KEPT && Possible(c, s, e) && (e.BeginCreate? || e.BeginRefresh? || e.BeginSim?)
    ensures var v' := Takes(c, s, e, p) || (v && !Spoils(c, s, e, p));
            && (Sound(c, s, p, v) ==> Sound(c, Next(c, s, e), p, v'))
            && (Complete(c, s, p, v) ==> Complete(c, Next(c, s, e), p, v'))
  {
    hide Restores, WillTake, PlanFor, Injective, CREATE_STEPS, SIM_STEPS;
    CreateTakes(c, p);
    SimTakes(c, p);
    if e.BeginRefresh? {
      var todo := Todo(c, s, e.forced);
      RefreshTakes(c, todo, p);
      if !Renews(c, todo, p) {
        NotRenewed(c, s, e.forced, p);
      }
      hide ToRefresh, Todo;
    }
  }

  lemma AfterStep(c: Setup, s: State, step: TclStep)
    requires Possible(c, s, DoStep(step))
    ensures s.job.Script? && s.job.todo != [] && s.job.todo[0] == step
    ensures Next(c, s, DoStep(step)) ==
            State(s.now, s.recorded, StepDone(c, s.project, s.now, s.job.config, step),
                  Script(s.job.todo[1..], s.job.config, s.job.records))
  {
  }

  lemma SimStepSpares(c: Setup, step: TclStep, p: Part)
    requires step in {AddTb, CopyHex, Launch} && p in KEPT
    ensures p !in Clears(c, step) && (p in Reads(c, step) ==> p == Rom)
  {
  }

  /** A step of a create or refresh. */
  lemma RecordingStepKeeps(c: Setup, s: State, step: TclStep, p: Part, v: bool)
    requires p in KEPT && Possible(c, s, DoStep(step)) && s.job.records && InOrder(c, s, p)
    ensures var s' := Next(c, s, DoStep(step));
            var v' := v || (p != Ip && p in Reads(c, step));
            && (Sound(c, s, p, v) ==> Sound(c, s', p, v'))
            && (Complete(c, s, p, v) ==> Complete(c, s', p, v'))
  {
    AfterStep(c, s, step);
    hide StepDone, Reads, Clears, SimRest, Restores, WillTake, Next, Possible, Matches;
    StepLeaves(c, s.job.todo, p);
    StepEffect(c, s.project, s.now, s.job.config, step, p);
  }

  /** A step of a simulation. */
  lemma SimStepKeeps(c: Setup, s: State, step: TclStep, p: Part, v: bool)
    requires p in KEPT && Possible(c, s, DoStep(step)) && !s.job.records && InOrder(c, s, p)
    ensures var s' := Next(c, s, DoStep(step));
            var v' := if p in Reads(c, step) then AsRecorded(s, p) else v;
            && (Sound(c, s, p, v) ==> Sound(c, s', p, v'))
            && (Complete(c, s, p, v) ==> Complete(c, s', p, v'))
  {
    AfterStep(c, s, step);
    StepLeaves(c, s.job.todo, p);
    SimStep(s.job.todo);
    SimStepSpares(c, step, p);
    hide StepDone, Restores, WillTake, Next, Possible, SimRest, Reads, Clears;
    StepEffect(c, s.project, s.now, s.job.config, step, p);
  }

  lemma DoStepKeeps(c: Setup, s: State, step: TclStep, p: Part, v: bool)
    requires p in KEPT && Possible(c, s, DoStep(step))
    ensures var e := DoStep(step);
            var v' := Takes(c, s, e, p) || (v && !Spoils(c, s, e, p));
            && (Sound(c, s, p, v) ==> Sound(c, Next(c, s, e), p, v'))
            && (Complete(c, s, p, v) ==> Complete(c, Next(c, s, e), p, v'))
  {
    hide Next, Stands, Pending, StepDone, Restores, WillTake, SimRest, Reads;
    AfterStep(c, s, step);
    if InOrder(c, s, p) {
      if s.job.records {
        RecordingStepKeeps(c, s, step, p, v);
      } else {
        SimStep(s.job.todo);
        SimStepSpares(c, step, p);
        SimStepKeeps(c, s, step, p, v);
      }
    }
  }

  lemma SimStep(todo: seq<TclStep>)
    requires SimRest(todo) && todo != []
    ensures SimRest(todo[1..]) && todo[0] in {AddTb, CopyHex, Launch}
  {
    assert SIM_STEPS[1..] == [CopyHex, Launch] && [CopyHex, Launch][1..] == [Launch] && [Launch][1..] == [];
  }

  lemma RestKeeps(c: Setup, s: State, e: Event, p: Part, v: bool)
    requires p in KEPT && Possible(c, s, e) && (e.Record? || e.End?)
    ensures var v' := Takes(c, s, e, p) || (v && !Spoils(c, s, e, p));
            && (Sound(c, s, p, v) ==> Sound(c, Next(c, s, e), p, v'))
            && (Complete(c, s, p, v) ==> Complete(c, Next(c, s, e), p, v'))
  {
  }

  /** Sound is kept by every event. */
  lemma SoundStep(c: Setup, s: State, e: Event, p: Part, v: bool)
    requires Injective(c.hash) && p in KEPT && Possible(c, s, e) && Sound(c, s, p, v)
    ensures Sound(c, Next(c, s, e), p, Takes(c, s, e, p) || (v && !Spoils(c, s, e, p)))
  {
    hide Injective, PlanFor, Todo;
    match e
    case BeginCreate(_) => BeginKeeps(c, s, e, p, v);
    case BeginRefresh(_, _) => BeginKeeps(c, s, e, p, v);
    case BeginSim => BeginKeeps(c, s, e, p, v);
    case DoStep(step) => DoStepKeeps(c, s, step, p, v);
    case Record => RestKeeps(c, s, e, p, v);
    case End => RestKeeps(c, s, e, p, v);
    case Breaks(_) =>
    case Abandons(_) =>
    case Edit(_) =>
  }

  lemma {:induction false} RunIsSound(c: Setup, now: Sources, es: seq<Event>, p: Part)
    requires Injective(c.hash) && p in KEPT && Ran(c, New(now), es)
    ensures Sound(c, After(c, New(now), es), p, Vouched(c, New(now), es, p))
    decreases |es|
  {
    hide Sound, Next, Possible, Takes, Spoils, Injective;
    if es == [] {
      NothingYet(c, now, p);
    } else {
      var before := es[..|es| - 1];
      RunIsSound(c, now, before, p);
      SoundStep(c, After(c, New(now), before), es[|es| - 1], p, Vouched(c, New(now), before, p));
    }
  }

  lemma NothingYet(c: Setup, now: Sources, p: Part)
    ensures Sound(c, New(now), p, false) && Complete(c, New(now), p, false)
  {
  }

  // ---------------------------------------------------------------------------
  // Matching means vouched, as long as nothing is put back
  // ---------------------------------------------------------------------------

  /** The states the sources went through. */
  function Past(now: Sources, es: seq<Event>): (h: seq<Sources>)
    ensures h != []
  {
    if es == [] then [now]
    else Past(now, es[..|es| - 1]) + if es[|es| - 1].Edit? then [es[|es| - 1].to] else []
  }

  /** No content of p came back once it was gone. */
  ghost predicate NeverReverted(past: seq<Sources>, p: Part) {
    forall i, j, k :: 0 <= i <= j <= k < |past| && past[i].Of(p) == past[k].Of(p) ==> past[j].Of(p) == past[i].Of(p)
  }

  ghost predicate WasOnDisk(past: seq<Sources>, p: Part, content: nat) {
    exists i :: 0 <= i < |past| && past[i].Of(p) == content
  }

  /** Every configuration a script was composed from had been on disk by then. */
  ghost predicate Loaded(now: Sources, es: seq<Event>)
    decreases |es|
  {
    es == [] ||
    var before, e := es[..|es| - 1], es[|es| - 1];
    Loaded(now, before) && (e.BeginCreate? || e.BeginRefresh? ==> WasOnDisk(Past(now, before), Ip, e.config))
  }

  ghost predicate Plausible(now: Sources, es: seq<Event>, p: Part) {
    NeverReverted(Past(now, es), p) && Loaded(now, es)
  }

  /** Failed scripts leave nothing behind. */
  predicate LeavesNothing(e: Event) {
    Fails(e) ==> e.left == map[]
  }

  /** A simulation runs its own steps, with a testbench. */
  predicate SimInOrder(c: Setup, s: State) {
    s.job.Script? && !s.job.records ==> c.hasTb && SimRest(s.job.todo)
  }

  /** What the project holds of p, and the configuration of the running script, were on disk. */
  ghost predicate FromDisk(c: Setup, s: State, p: Part, past: seq<Sources>) {
    && SimInOrder(c, s)
    && past != [] && past[|past| - 1] == s.now
    && (p in s.project ==> WasOnDisk(past, p, s.project[p]))
    && (s.job.Script? && s.job.records ==> WasOnDisk(past, Ip, s.job.config))
  }

  lemma SimInOrderStep(c: Setup, s: State, e: Event)
    requires SimInOrder(c, s) && Possible(c, s, e)
    ensures SimInOrder(c, Next(c, s, e))
  {
    hide StepDone;
    if e.DoStep? && !s.job.records {
      SimStep(s.job.todo);
    }
  }

  lemma OnDiskGrows(past: seq<Sources>, more: seq<Sources>, p: Part, content: nat)
    requires WasOnDisk(past, p, content)
    ensures WasOnDisk(past + more, p, content)
  {
    var i :| 0 <= i < |past| && past[i].Of(p) == content;
    assert (past + more)[i].Of(p) == content;
  }

  lemma OnDiskNow(past: seq<Sources>, p: Part)
    requires past != []
    ensures WasOnDisk(past, p, past[|past| - 1].Of(p))
  {
  }

  lemma FromDiskStep(c: Setup, s: State, e: Event, p: Part, past: seq<Sources>)
    requires FromDisk(c, s, p, past) && Possible(c, s, e) && LeavesNothing(e)
    requires e.BeginCreate? || e.BeginRefresh? ==> WasOnDisk(past, Ip, e.config)
    ensures FromDisk(c, Next(c, s, e), p, past + if e.Edit? then [e.to] else [])
  {
    hide SimInOrder, StepDone, WasOnDisk, PlanFor, Todo;
    SimInOrderStep(c, s, e);
    if e.Edit? {
      if p in s.project {
        OnDiskGrows(past, [e.to], p, s.project[p]);
      }
      if s.job.Script? && s.job.records {
        OnDiskGrows(past, [e.to], Ip, s.job.config);
      }
    } else {
      assert past + [] == past;
      if e.DoStep? {
        StepEffect(c, s.project, s.now, s.job.config, e.step, p);
        OnDiskNow(past, p);
        SimTakesNoIp(c, s);
      }
    }
  }

  lemma SimTakesNoIp(c: Setup, s: State)
    requires SimInOrder(c, s)
    ensures s.job.Script? && !s.job.records && s.job.todo != [] ==> Ip !in Reads(c, s.job.todo[0])
  {
  }

  /** An edit cannot bring back what had been on disk and was gone. */
  lemma NotPutBack(past: seq<Sources>, to: Sources, p: Part, content: nat)
    requires past != [] && WasOnDisk(past, p, content) && NeverReverted(past + [to], p)
    ensures content == to.Of(p) ==> to.Of(p) == past[|past| - 1].Of(p)
  {
    var n := |past|;
    var h := past + [to];
    var i :| 0 <= i < n && past[i].Of(p) == content;
    assert h[i] == past[i] && h[n - 1] == past[n - 1] && h[n] == to;
  }

  lemma EditIsComplete(c: Setup, s: State, to: Sources, p: Part, v: bool, past: seq<Sources>)
    requires p in KEPT && Complete(c, s, p, v) && FromDisk(c, s, p, past) && NeverReverted(past + [to], p)
    ensures Complete(c, Next(c, s, Edit(to)), p, v && !Spoils(c, s, Edit(to), p))
  {
    hide Restores, WillTake, NeverReverted, WasOnDisk;
    if p in s.project {
      NotPutBack(past, to, p, s.project[p]);
    }
    if p == Ip && s.job.Script? && s.job.records {
      NotPutBack(past, to, p, s.job.config);
    }
  }

  lemma CompleteStep(c: Setup, s: State, e: Event, p: Part, v: bool, past: seq<Sources>)
    requires Injective(c.hash) && p in KEPT && Possible(c, s, e) && Complete(c, s, p, v) && LeavesNothing(e)
    requires FromDisk(c, s, p, past) && (e.Edit? ==> NeverReverted(past + [e.to], p))
    ensures Complete(c, Next(c, s, e), p, Takes(c, s, e, p) || (v && !Spoils(c, s, e, p)))
  {
    hide Injective, PlanFor, Todo, NeverReverted, FromDisk;
    match e
    case BeginCreate(_) => BeginKeeps(c, s, e, p, v);
    case BeginRefresh(_, _) => BeginKeeps(c, s, e, p, v);
    case BeginSim => BeginKeeps(c, s, e, p, v);
    case DoStep(step) => DoStepKeeps(c, s, step, p, v);
    case Record => RestKeeps(c, s, e, p, v);
    case End => RestKeeps(c, s, e, p, v);
    case Breaks(_) => NoSteps(c, p);
    case Abandons(_) =>
    case Edit(to) => EditIsComplete(c, s, to, p, v, past);
  }

  lemma PastPrefix(now: Sources, es: seq<Event>, p: Part)
    requires es != [] && Plausible(now, es, p)
    ensures Plausible(now, es[..|es| - 1], p)
    ensures Past(now, es) ==
            Past(now, es[..|es| - 1]) + if es[|es| - 1].Edit? then [es[|es| - 1].to] else []
    ensures var e := es[|es| - 1];
            e.BeginCreate? || e.BeginRefresh? ==> WasOnDisk(Past(now, es[..|es| - 1]), Ip, e.config)
  {
    var past, h := Past(now, es[..|es| - 1]), Past(now, es);
    assert past <= h;
    hide Past;
    forall i, j, k | 0 <= i <= j <= k < |past| && past[i].Of(p) == past[k].Of(p)
      ensures past[j].Of(p) == past[i].Of(p)
    {
      assert past[i] == h[i] && past[j] == h[j] && past[k] == h[k];
    }
  }

  lemma NothingOnDisk(c: Setup, now: Sources, p: Part)
    ensures FromDisk(c, New(now), p, Past(now, []))
  {
  }

  lemma {:induction false} RunIsFromDisk(c: Setup, now: Sources, es: seq<Event>, p: Part)
    requires Ran(c, New(now), es) && Plausible(now, es, p) && forall e :: e in es ==> LeavesNothing(e)
    ensures FromDisk(c, After(c, New(now), es), p, Past(now, es))
    decreases |es|
  {
    hide FromDisk, Next, Possible, Plausible, WasOnDisk, LeavesNothing;
    if es == [] {
      NothingOnDisk(c, now, p);
    } else {
      var before, e := es[..|es| - 1], es[|es| - 1];
      PastPrefix(now, es, p);
      hide Past;
      RunIsFromDisk(c, now, before, p);
      FromDiskStep(c, After(c, New(now), before), e, p, Past(now, before));
    }
  }

  lemma EditNotReverted(now: Sources, es: seq<Event>, p: Part)
    requires es != [] && Plausible(now, es, p)
    ensures var e := es[|es| - 1]; e.Edit? ==> NeverReverted(Past(now, es[..|es| - 1]) + [e.to], p)
  {
    PastPrefix(now, es, p);
  }

  lemma {:induction false} RunIsComplete(c: Setup, now: Sources, es: seq<Event>, p: Part)
    requires Injective(c.hash) && p in KEPT && Ran(c, New(now), es)
    requires Plausible(now, es, p) && forall e :: e in es ==> LeavesNothing(e)
    ensures Complete(c, After(c, New(now), es), p, Vouched(c, New(now), es, p))
    decreases |es|
  {
    hide Complete, FromDisk, Next, Possible, Takes, Spoils, Injective, Plausible, NeverReverted, LeavesNothing;
    if es == [] {
      NothingYet(c, now, p);
    } else {
      var before, e := es[..|es| - 1], es[|es| - 1];
      PastPrefix(now, es, p);
      EditNotReverted(now, es, p);
      hide Past;
      RunIsComplete(c, now, before, p);
      RunIsFromDisk(c, now, before, p);
      CompleteStep(c, After(c, New(now), before), e, p, Vouched(c, New(now), before, p), Past(now, before));
    }
  }

  // ---------------------------------------------------------------------------
  // Whatever failed scripts leave behind
  // ---------------------------------------------------------------------------

  /** The same events, but for what failed scripts leave behind. */
  ghost predicate SameButLeftovers(es: seq<Event>, fs: seq<Event>) {
    |es| == |fs| && forall i :: 0 <= i < |es| ==>
      if Fails(es[i]) then Fails(fs[i]) && fs[i] == es[i].(left := fs[i].left) else fs[i] == es[i]
  }

  /** Leftovers change the project and nothing else. */
  lemma StepSameCourse(c: Setup, s: State, s': State, e: Event, f: Event, p: Part)
    requires s' == s.(project := s'.project)
    requires if Fails(e) then Fails(f) && f == e.(left := f.left) else f == e
    ensures Next(c, s', f) == Next(c, s, e).(project := Next(c, s', f).project)
    ensures Possible(c, s', f) == Possible(c, s, e)
    ensures Takes(c, s', f, p) == Takes(c, s, e, p) && Spoils(c, s', f, p) == Spoils(c, s, e, p)
    ensures Arrives(c, s', f, p) == Arrives(c, s, e, p) && Departs(c, s', f, p) == Departs(c, s, e, p)
  {
    hide PlanFor, ToRefresh, StepDone, Reads, Clears, Preflight, HashesOf;
  }

  lemma {:induction false} SameCourse(c: Setup, s: State, es: seq<Event>, fs: seq<Event>, p: Part)
    requires SameButLeftovers(es, fs)
    ensures After(c, s, fs) == After(c, s, es).(project := After(c, s, fs).project)
    ensures Ran(c, s, fs) == Ran(c, s, es) && Vouched(c, s, fs, p) == Vouched(c, s, es, p)
    ensures Untouched(c, s, fs, p) == Untouched(c, s, es, p)
    decreases |es|
  {
    hide Next, Possible, Takes, Spoils, Arrives, Departs;
    if es != [] {
      var n := |es| - 1;
      SameCourse(c, s, es[..n], fs[..n], p);
      StepSameCourse(c, After(c, s, es[..n]), After(c, s, fs[..n]), es[n], fs[n], p);
    }
  }

  lemma {:induction false} SamePast(now: Sources, es: seq<Event>, fs: seq<Event>, p: Part)
    requires SameButLeftovers(es, fs)
    ensures Past(now, es) == Past(now, fs) && Loaded(now, es) == Loaded(now, fs)
    decreases |es|
  {
    hide WasOnDisk;
    if es != [] {
      SamePast(now, es[..|es| - 1], fs[..|es| - 1], p);
    }
  }

  function Emptied(es: seq<Event>): (fs: seq<Event>)
    ensures SameButLeftovers(es, fs) && forall f :: f in fs ==> LeavesNothing(f)
  {
    seq(|es|, i requires 0 <= i < |es| => if Fails(es[i]) then es[i].(left := map[]) else es[i])
  }

  lemma {:induction false} RecordedOrNot(c: Setup, s: State, es: seq<Event>)
    requires s.recorded == None
    ensures After(c, s, es).recorded.Some? <==> Record in es
    decreases |es|
  {
    hide StepDone, PlanFor, Todo;
    if es != [] {
      var n := |es| - 1;
      RecordedOrNot(c, s, es[..n]);
      assert es == es[..n] + [es[n]];
    }
  }

  // ---------------------------------------------------------------------------
  // When staleness tells the truth
  // ---------------------------------------------------------------------------

  /** An operation that preflight lets pass with these sources, and whose layer of part p is
      not stale, finds p in the project as it is in the sources. For IP the second condition
      follows from the first. */
  ghost predicate Reliable(c: Setup, s: State, now: Sources, op: Operation, p: Part) {
    var hashes := HashesOf(c, s.recorded);
    Preflight(c.hash, now, hashes, op) != Error && !Stale(c.hash, now, hashes, LayerOf(p)) ==> Has(s.project, p, now.Of(p))
  }

  lemma PassingMeansFreshIp(c: Setup, s: State, now: Sources, op: Operation)
    ensures Preflight(c.hash, now, HashesOf(c, s.recorded), op) != Error ==>
              !Stale(c.hash, now, HashesOf(c, s.recorded), LayerOf(Ip))
  {
    EveryLayer();
  }

  /** So it is whatever the failed scripts of a run left and whatever is edited after it. */
  ghost predicate AlwaysReliable(c: Setup, src: Sources, es: seq<Event>, op: Operation, p: Part) {
    forall fs, now :: SameButLeftovers(es, fs) ==> Reliable(c, After(c, New(src), fs), now, op, p)
  }

  /** Whatever the sources become: exactly when the record matches; the sources as they were
      recorded pass. */
  lemma ReliableMeansMatches(c: Setup, s: State, op: Operation, p: Part)
    requires Injective(c.hash) && s.recorded.Some?
    ensures (forall now :: Reliable(c, s, now, op, p)) <==> Matches(s, p)
  {
    EveryLayer();
    var r := s.recorded.value;
    if forall now :: Reliable(c, s, now, op, p) {
      assert Rtl in Current(c.hash, r);
      assert Reliable(c, s, r, op, p);
    }
    if Matches(s, p) {
      forall now
        ensures Reliable(c, s, now, op, p)
      {
        if !Stale(c.hash, now, HashesOf(c, s.recorded), LayerOf(p)) {
          FreshMeansRecorded(c, s.(now := now), p);
        }
      }
    }
  }

  lemma NothingRecorded(c: Setup, s: State, now: Sources, op: Operation, p: Part)
    requires s.recorded == None
    ensures Reliable(c, s, now, op, p)
  {
  }

  lemma IdleMeansMatches(c: Setup, s: State, p: Part, v: bool)
    requires s.job == Idle
    ensures Sound(c, s, p, v) ==> v ==> Matches(s, p)
    ensures Complete(c, s, p, v) ==> Matches(s, p) ==> v
  {
  }

  /** Exactly when staleness can be believed about the generated IP, the boot ROM and the
      constraints. In every run of edits, creates, refreshes and simulations, failed and
      abandoned scripts and edits made while scripts run included: if since p was last taken
      nothing spoiled it, every later operation that passes preflight and is not told that p
      is stale finds it as it is in the sources. If not, and no content was ever put back,
      there are leftovers and sources with which one finds something else. */
  lemma StalenessCanBeTrusted(c: Setup, src: Sources, es: seq<Event>, op: Operation, p: Part)
    requires Injective(c.hash) && p in KEPT
    requires Ran(c, New(src), es) && After(c, New(src), es).job == Idle
    ensures Vouched(c, New(src), es, p) || Record !in es ==> AlwaysReliable(c, src, es, op, p)
    ensures Plausible(src, es, p) ==>
              (AlwaysReliable(c, src, es, op, p) <==> Vouched(c, New(src), es, p) || Record !in es)
  {
    hide Plausible, Reliable, Injective, Ran, After, Vouched;
    if Record !in es || Vouched(c, New(src), es, p) {
      forall fs, now | SameButLeftovers(es, fs)
        ensures Reliable(c, After(c, New(src), fs), now, op, p)
      {
        ReliableWhenVouched(c, src, es, fs, now, op, p);
      }
    } else if Plausible(src, es, p) {
      var fs := Emptied(es);
      var now := Betrayed(c, src, es, op, p);
      assert !Reliable(c, After(c, New(src), fs), now, op, p);
    }
  }

  lemma ReliableWhenVouched(c: Setup, src: Sources, es: seq<Event>, fs: seq<Event>, now: Sources, op: Operation, p: Part)
    requires Injective(c.hash) && p in KEPT && SameButLeftovers(es, fs)
    requires Ran(c, New(src), es) && After(c, New(src), es).job == Idle
    requires Vouched(c, New(src), es, p) || Record !in es
    ensures Reliable(c, After(c, New(src), fs), now, op, p)
  {
    hide Reliable, Injective, Ran, After, Vouched, Matches, Sound, Complete;
    var s := After(c, New(src), fs);
    SameCourse(c, New(src), es, fs, p);
    RecordedOrNot(c, New(src), fs);
    if Record !in fs {
      NothingRecorded(c, s, now, op, p);
    } else {
      assert Record in es;
      RunIsSound(c, src, fs, p);
      IdleMeansMatches(c, s, p, Vouched(c, New(src), fs, p));
      ReliableMeansMatches(c, s, op, p);
    }
  }

  /** Sources with which an operation is misled, when failed scripts leave nothing. */
  lemma Betrayed(c: Setup, src: Sources, es: seq<Event>, op: Operation, p: Part) returns (now: Sources)
    requires Injective(c.hash) && p in KEPT && Plausible(src, es, p)
    requires Ran(c, New(src), es) && After(c, New(src), es).job == Idle
    requires !Vouched(c, New(src), es, p) && Record in es
    ensures !Reliable(c, After(c, New(src), Emptied(es)), now, op, p)
  {
    hide Reliable, Injective, Ran, After, Vouched, Matches, Sound, Complete, NeverReverted, Past, Loaded;
    var fs := Emptied(es);
    var s := After(c, New(src), fs);
    SameCourse(c, New(src), es, fs, p);
    SamePast(src, es, fs, p);
    RecordedOrNot(c, New(src), fs);
    RecordStays(es);
    RunIsComplete(c, src, fs, p);
    IdleMeansMatches(c, s, p, Vouched(c, New(src), fs, p));
    ReliableMeansMatches(c, s, op, p);
    now :| !Reliable(c, s, now, op, p);
  }

  lemma RecordStays(es: seq<Event>)
    ensures Record in es ==> Record in Emptied(es)
  {
    if Record in es {
      var i :| 0 <= i < |es| && es[i] == Record;
      assert Emptied(es)[i] == Record;
    }
  }

  /** A failed create or refresh records the current hashes all the same. What repairs that for
      part p is exactly a later event that takes p and is not spoiled in turn; for IP a new
      project composed from the configuration on disk, for the boot ROM also any refresh of
      firmware or testbench, for the constraints one of constraints (RefreshTakes, CreateTakes,
      SimTakes). */
  lemma FailureIsRecordedAsFresh(c: Setup, src: Sources, es: seq<Event>, i: nat, op: Operation, p: Part)
    requires Injective(c.hash) && p in KEPT && Plausible(src, es, p)
    requires Ran(c, New(src), es) && After(c, New(src), es).job == Idle && Record in es
    requires i < |es| && Fails(es[i])
    ensures AlwaysReliable(c, src, es, op, p) <==> exists j :: j > i && TakenUnspoiled(c, New(src), es, j, p)
  {
    hide After, AlwaysReliable, Vouched, Plausible, Injective, Ran, TakenUnspoiled;
    StalenessCanBeTrusted(c, src, es, op, p);
    VouchedMeans(c, New(src), es, p);
    FailureCutsOff(c, New(src), es, i, p);
  }

  lemma FailureCutsOff(c: Setup, s: State, es: seq<Event>, i: nat, p: Part)
    requires i < |es| && Fails(es[i])
    ensures forall j: nat :: j <= i ==> !TakenUnspoiled(c, s, es, j, p)
  {
    hide After, Todo, AsRecorded;
    assert SpoiledAt(c, s, es, i, p) && !TakenAt(c, s, es, i, p);
  }

  // ---------------------------------------------------------------------------
  // Quiet runs
  // ---------------------------------------------------------------------------

  /** The part is vouched from its first script on, as long as nothing spoils it. */
  ghost predicate Settled(c: Setup, s: State, p: Part, v: bool) {
    if s.job == Idle || !s.job.records then s.recorded == None || v
    else (p != Ip && WillTake(c, s.job.todo, p)) || v
  }

  lemma SettledBegin(c: Setup, s: State, e: Event, p: Part, v: bool)
    requires p in KEPT && Possible(c, s, e) && Settled(c, s, p, v) && !Spoils(c, s, e, p)
    requires e.BeginCreate? || e.BeginRefresh?
    ensures Settled(c, Next(c, s, e), p, Takes(c, s, e, p) || v)
  {
    hide Restores, WillTake, PlanFor, CREATE_STEPS;
    EveryLayer();
    CreateTakes(c, p);
    if e.BeginRefresh? {
      RefreshTakes(c, Todo(c, s, e.forced), p);
    }
  }

  lemma SettledStep(c: Setup, s: State, e: Event, p: Part, v: bool)
    requires p in KEPT && Possible(c, s, e) && InOrder(c, s, p) && Settled(c, s, p, v) && !Spoils(c, s, e, p)
    ensures Settled(c, Next(c, s, e), p, Takes(c, s, e, p) || v)
  {
    hide Restores, WillTake, StepDone, Reads, Todo, PlanFor, Preflight;
    match e
    case BeginCreate(_) => SettledBegin(c, s, e, p, v);
    case BeginRefresh(_, _) => SettledBegin(c, s, e, p, v);
    case DoStep(_) => StepLeaves(c, s.job.todo, p);
    case _ => NoSteps(c, p);
  }

  lemma {:induction false} QuietRunSettles(c: Setup, src: Sources, es: seq<Event>, p: Part)
    requires Injective(c.hash) && p in KEPT && Ran(c, New(src), es)
    requires forall i :: 0 <= i < |es| ==> !SpoiledAt(c, New(src), es, i, p)
    ensures Settled(c, After(c, New(src), es), p, Vouched(c, New(src), es, p))
    decreases |es|
  {
    hide Settled, Takes, Spoils, Next, Possible, InOrder, Injective;
    if es == [] {
      NothingSettled(c, src, p);
    } else {
      var n := |es| - 1;
      Prefix(c, New(src), es, n, p);
      assert !SpoiledAt(c, New(src), es, n, p);
      QuietRunSettles(c, src, es[..n], p);
      RunIsSound(c, src, es[..n], p);
      SettledStep(c, After(c, New(src), es[..n]), es[n], p, Vouched(c, New(src), es[..n], p));
    }
  }

  lemma NothingSettled(c: Setup, src: Sources, p: Part)
    ensures Settled(c, New(src), p, false)
  {
  }

  /** As long as nothing spoils p, staleness can always be believed. */
  lemma QuietRunsAreSafe(c: Setup, src: Sources, es: seq<Event>, op: Operation, p: Part)
    requires Injective(c.hash) && p in KEPT
    requires Ran(c, New(src), es) && After(c, New(src), es).job == Idle
    requires forall i :: 0 <= i < |es| ==> !SpoiledAt(c, New(src), es, i, p)
    ensures AlwaysReliable(c, src, es, op, p)
  {
    hide Ran, After, Vouched, AlwaysReliable, SpoiledAt, Injective;
    QuietRunSettles(c, src, es, p);
    RecordedOrNot(c, New(src), es);
    StalenessCanBeTrusted(c, src, es, op, p);
  }

  // ---------------------------------------------------------------------------
  // What a bitstream is built from
  // ---------------------------------------------------------------------------

  /** The event leaves in the project what is on disk. */
  predicate Arrives(c: Setup, s: State, e: Event, p: Part) {
    e.DoStep? && p in Reads(c, e.step) && (p == Ip ==> s.job.Script? && s.job.config == s.now.ip)
  }

  /** The event parts project and disk: a failure, any edit of p, a step that drops p or takes
      something else for it. */
  predicate Departs(c: Setup, s: State, e: Event, p: Part) {
    || Fails(e)
    || (e.Edit? && e.to.Of(p) != s.now.Of(p))
    || (e.DoStep? && !Arrives(c, s, e, p) && p in Reads(c, e.step) + Clears(c, e.step))
  }

  /** Since p was last taken as it was on disk, nothing parted the two. */
  predicate Untouched(c: Setup, s: State, es: seq<Event>, p: Part)
    decreases |es|
  {
    es != [] &&
    var before, e := es[..|es| - 1], es[|es| - 1];
    Arrives(c, After(c, s, before), e, p) || (Untouched(c, s, before, p) && !Departs(c, After(c, s, before), e, p))
  }

  lemma HasStep(c: Setup, s: State, e: Event, p: Part, u: bool)
    requires Possible(c, s, e) && (u ==> Has(s.project, p, s.now.Of(p)))
    ensures var s' := Next(c, s, e);
            Arrives(c, s, e, p) || (u && !Departs(c, s, e, p)) ==> Has(s'.project, p, s'.now.Of(p))
  {
    hide StepDone, Reads, Clears, PlanFor, Todo;
    if e.DoStep? {
      StepEffect(c, s.project, s.now, s.job.config, e.step, p);
    }
  }

  lemma {:induction false} UntouchedHolds(c: Setup, now: Sources, es: seq<Event>, p: Part)
    requires Ran(c, New(now), es) && Untouched(c, New(now), es, p)
    ensures var s := After(c, New(now), es); Has(s.project, p, s.now.Of(p))
    decreases |es|
  {
    hide Next, Possible, Arrives, Departs;
    var before, e := es[..|es| - 1], es[|es| - 1];
    if Untouched(c, New(now), before, p) {
      UntouchedHolds(c, now, before, p);
    }
    HasStep(c, After(c, New(now), before), e, p, Untouched(c, New(now), before, p));
  }

  lemma LacksStep(c: Setup, s: State, e: Event, p: Part, u: bool, past: seq<Sources>)
    requires Possible(c, s, e) && LeavesNothing(e) && FromDisk(c, s, p, past)
    requires e.Edit? ==> NeverReverted(past + [e.to], p)
    requires Has(s.project, p, s.now.Of(p)) ==> u
    ensures var s' := Next(c, s, e);
            Has(s'.project, p, s'.now.Of(p)) ==> Arrives(c, s, e, p) || (u && !Departs(c, s, e, p))
  {
    hide StepDone, Reads, Clears, PlanFor, Todo, NeverReverted, WasOnDisk;
    if e.DoStep? {
      StepEffect(c, s.project, s.now, s.job.config, e.step, p);
    }
    if e.Edit? && p in s.project {
      NotPutBack(past, e.to, p, s.project[p]);
    }
  }

  lemma {:induction false} HeldIsUntouched(c: Setup, now: Sources, es: seq<Event>, p: Part)
    requires Ran(c, New(now), es) && Plausible(now, es, p) && forall e :: e in es ==> LeavesNothing(e)
    ensures var s := After(c, New(now), es); Has(s.project, p, s.now.Of(p)) ==> Untouched(c, New(now), es, p)
    decreases |es|
  {
    hide Next, Possible, Arrives, Departs, FromDisk, Plausible, NeverReverted, LeavesNothing;
    if es != [] {
      var before, e := es[..|es| - 1], es[|es| - 1];
      PastPrefix(now, es, p);
      EditNotReverted(now, es, p);
      hide Past;
      RunIsFromDisk(c, now, before, p);
      HeldIsUntouched(c, now, before, p);
      LacksStep(c, After(c, New(now), before), e, p, Untouched(c, New(now), before, p), Past(now, before));
    }
  }

  /** Whatever failed scripts left: what is built now has part p as it is on disk. */
  ghost predicate BuiltFromSources(c: Setup, src: Sources, es: seq<Event>, p: Part) {
    forall fs :: SameButLeftovers(es, fs) ==>
      var s := After(c, New(src), fs); Has(s.project, p, s.now.Of(p))
  }

  /** Exactly when a bitstream is built from the sources' firmware, constraints and IP: since
      the part was last taken, be it by a create, a refresh or the first step of a simulation,
      no script has failed and the part has not been edited. Listing is there to be built from
      exactly when the last create_project came after the last add_tb. */
  lemma BitstreamHolds(c: Setup, src: Sources, es: seq<Event>, p: Part)
    requires Ran(c, New(src), es)
    ensures Untouched(c, New(src), es, p) ==> BuiltFromSources(c, src, es, p)
    ensures Plausible(src, es, p) ==> (BuiltFromSources(c, src, es, p) <==> Untouched(c, New(src), es, p))
  {
    hide Ran, After, Untouched, Plausible;
    if Untouched(c, New(src), es, p) {
      forall fs | SameButLeftovers(es, fs)
        ensures var s := After(c, New(src), fs); Has(s.project, p, s.now.Of(p))
      {
        SameCourse(c, New(src), es, fs, p);
        UntouchedHolds(c, src, fs, p);
      }
    } else if Plausible(src, es, p) {
      var fs := Emptied(es);
      SameCourse(c, New(src), es, fs, p);
      StillPlausible(src, es, fs, p);
      HeldIsUntouched(c, src, fs, p);
    }
  }

  lemma StillPlausible(now: Sources, es: seq<Event>, fs: seq<Event>, p: Part)
    requires SameButLeftovers(es, fs) && Plausible(now, es, p)
    ensures Plausible(now, fs, p)
  {
    SamePast(now, es, fs, p);
  }

  /** Preflight does not ask for that: a passing bitstream still passes after any edit of
      firmware, testbench, program sources or constraints, and then has the old ones. */
  lemma StaleBitstreamPasses(c: Setup, s: State, to: Sources, p: Part)
    requires Preflight(c.hash, s.now, HashesOf(c, s.recorded), Bitstream) != Error
    requires to.hdl == s.now.hdl && to.ip == s.now.ip
    requires p in KEPT && Has(s.project, p, s.now.Of(p)) && to.Of(p) != s.now.Of(p)
    ensures var s' := Next(c, s, Edit(to));
            && Preflight(c.hash, s'.now, HashesOf(c, s'.recorded), Bitstream) != Error
            && !Has(s'.project, p, s'.now.Of(p))
  {
    BitstreamPasses(c.hash, s.now, HashesOf(c, s.recorded));
    BitstreamPasses(c.hash, to, HashesOf(c, s.recorded));
  }

  // ---------------------------------------------------------------------------
  // What a simulation runs
  // ---------------------------------------------------------------------------

  lemma {:induction false} RunKeepsSims(c: Setup, now: Sources, es: seq<Event>)
    requires Ran(c, New(now), es)
    ensures SimInOrder(c, After(c, New(now), es))
    decreases |es|
  {
    hide Next, Possible, SimInOrder;
    if es == [] {
      assert SimInOrder(c, New(now)) by {
        NewInOrder(c, now);
      }
    } else {
      RunKeepsSims(c, now, es[..|es| - 1]);
      SimInOrderStep(c, After(c, New(now), es[..|es| - 1]), es[|es| - 1]);
    }
  }

  lemma NewInOrder(c: Setup, now: Sources)
    ensures SimInOrder(c, New(now))
  {
  }

  predicate Simulating(s: State, todo: seq<TclStep>) {
    s.job.Script? && !s.job.records && s.job.todo == todo
  }

  /** How a simulation comes to have this much left: by its own step, or by an edit since. */
  lemma SimComesFrom(c: Setup, s: State, e: Event)
    requires SimInOrder(c, s) && Possible(c, s, e)
    ensures Simulating(Next(c, s, e), [CopyHex, Launch]) ==>
              (e.Edit? && Simulating(s, [CopyHex, Launch])) || (e == DoStep(AddTb) && s.job.Script? && c.hasTb)
    ensures Simulating(Next(c, s, e), [Launch]) ==>
              (e.Edit? && Simulating(s, [Launch])) || (e == DoStep(CopyHex) && Simulating(s, [CopyHex, Launch]))
  {
    hide StepDone, PlanFor, Todo, Preflight;
    assert [AddTb, CopyHex, Launch][1..] == [CopyHex, Launch] && [CopyHex, Launch][1..] == [Launch] && [Launch][1..] == [];
  }

  lemma {:induction false} HdlOfSim(c: Setup, src: Sources, es: seq<Event>) returns (i: nat)
    requires Ran(c, New(src), es) && Simulating(After(c, New(src), es), [CopyHex, Launch])
    ensures i < |es| && es[i] == DoStep(AddTb) && forall k :: i < k < |es| ==> es[k].Edit?
    ensures var s, tb := After(c, New(src), es), After(c, New(src), es[..i]).now;
            Has(s.project, Hdl, tb.hdl) && Has(s.project, Bench, tb.bench)
    decreases |es|
  {
    hide Next, Possible, SimInOrder, StepDone;
    var n := |es| - 1;
    var before := After(c, New(src), es[..n]);
    RunKeepsSims(c, src, es[..n]);
    SimComesFrom(c, before, es[n]);
    if es[n].Edit? {
      i := HdlOfSim(c, src, es[..n]);
      assert es[..n][..i] == es[..i];
      EditKeepsProject(c, before, es[n].to);
    } else {
      i := n;
      AfterStep(c, before, AddTb);
      StepEffect(c, before.project, before.now, before.job.config, AddTb, Hdl);
      StepEffect(c, before.project, before.now, before.job.config, AddTb, Bench);
    }
  }

  lemma EditKeepsProject(c: Setup, s: State, to: Sources)
    ensures Next(c, s, Edit(to)) == s.(now := to)
  {
  }

  /** Every simulation takes HDL and testbench anew and copies the hex files: when it is
      launched it has the HDL and the testbench of its own add_tb step and the hex files of its
      own copy, whatever was recorded, and only edits have happened since. */
  lemma {:induction false} SimRunsTheSources(c: Setup, src: Sources, es: seq<Event>) returns (i: nat, j: nat)
    requires Ran(c, New(src), es) && Simulating(After(c, New(src), es), [Launch])
    ensures i < j < |es| && es[i] == DoStep(AddTb) && es[j] == DoStep(CopyHex)
    ensures forall k :: i < k < |es| && k != j ==> es[k].Edit?
    ensures var s, tb, hex := After(c, New(src), es), After(c, New(src), es[..i]).now, After(c, New(src), es[..j]).now;
            && Has(s.project, Hdl, tb.hdl) && Has(s.project, Bench, tb.bench)
            && (c.hasHex ==> Has(s.project, Hex, hex.hex))
    decreases |es|
  {
    hide Next, Possible, SimInOrder, StepDone;
    var n := |es| - 1;
    var before := After(c, New(src), es[..n]);
    RunKeepsSims(c, src, es[..n]);
    SimComesFrom(c, before, es[n]);
    if es[n].Edit? {
      i, j := SimRunsTheSources(c, src, es[..n]);
      assert es[..n][..i] == es[..i] && es[..n][..j] == es[..j];
      EditKeepsProject(c, before, es[n].to);
    } else {
      i := HdlOfSim(c, src, es[..n]);
      j := n;
      assert es[..n][..i] == es[..i];
      AfterStep(c, before, CopyHex);
      StepEffect(c, before.project, before.now, before.job.config, CopyHex, Hdl);
      StepEffect(c, before.project, before.now, before.job.config, CopyHex, Bench);
      StepEffect(c, before.project, before.now, before.job.config, CopyHex, Hex);
    }
  }
}
