/** Layer hashes (tools/vivado_core/hash.py:80-111), the preflight check and the refresh plan
    (tools/vivado_core/sync.py:88-259), and what the steps of a script do to a project
    (tools/vivado_core/operations.py:104-258, 464-645).

    Contents and hashes are numbers; the hash is any function, injective where a result says
    so. */
module Staleness {

  datatype Layer = Rtl | Tb | Src | Coe | Fpga
  const LAYERS: seq<Layer> := [Rtl, Tb, Src, Coe, Fpga]

  lemma EveryLayer()
    ensures forall l: Layer :: l in LAYERS
  {
    assert LAYERS[0] == Rtl && LAYERS[1] == Tb && LAYERS[2] == Src && LAYERS[3] == Coe && LAYERS[4] == Fpga;
    forall l: Layer
      ensures l in LAYERS
    {
      match l case Rtl => case Tb => case Src => case Coe => case Fpga =>
    }
  }

  /** What a Vivado project holds copies of. The rtl layer is HDL and the memory configuration
      its IP is made from; the coe layer is the boot ROM's COE and the hex files. Listing is
      not a copy: sources_1 refers to the HDL on disk. */
  datatype Part = Hdl | Ip | Bench | Rom | Hex | Constrs | Listing
  const PARTS: seq<Part> := [Hdl, Ip, Bench, Rom, Hex, Constrs, Listing]

  lemma EveryPart()
    ensures forall p: Part :: p in PARTS
  {
    assert PARTS[0] == Hdl && PARTS[1] == Ip && PARTS[2] == Bench && PARTS[3] == Rom && PARTS[4] == Hex;
    assert PARTS[5] == Constrs && PARTS[6] == Listing;
    forall p: Part
      ensures p in PARTS
    {
      match p case Hdl => case Ip => case Bench => case Rom => case Hex => case Constrs => case Listing =>
    }
  }

  function LayerOf(p: Part): Layer {
    match p
    case Hdl => Rtl
    case Ip => Rtl
    case Listing => Rtl
    case Bench => Tb
    case Rom => Coe
    case Hex => Coe
    case Constrs => Fpga
  }

  /** The sources on disk. */
  datatype Sources = Sources(hdl: nat, ip: nat, bench: nat, src: nat, rom: nat, hex: nat, constrs: nat) {
    function Of(p: Part): nat {
      match p
      case Hdl => hdl
      case Ip => ip
      case Bench => bench
      case Rom => rom
      case Hex => hex
      case Constrs => constrs
      case Listing => 0
    }

    function Content(l: Layer): seq<nat> {
      match l
      case Rtl => [hdl, ip]
      case Tb => [bench]
      case Src => [src]
      case Coe => [rom, hex]
      case Fpga => [constrs]
    }
  }

  lemma SameLayerSameParts(a: Sources, b: Sources, p: Part)
    requires a.Content(LayerOf(p)) == b.Content(LayerOf(p))
    ensures a.Of(p) == b.Of(p)
  {
    var x, y := a.Content(LayerOf(p)), b.Content(LayerOf(p));
    assert x[0] == y[0] && x[|x| - 1] == y[|y| - 1];
  }

  type Hash = seq<nat> -> nat
  type Hashes = map<Layer, nat>   // meta.hashes; empty before the first create

  ghost predicate Injective(hash: Hash) {
    forall a: seq<nat>, b: seq<nat> :: hash(a) == hash(b) ==> a == b
  }

  /** compute_staleness: an unrecorded layer is stale. */
  predicate Stale(hash: Hash, now: Sources, hashes: Hashes, l: Layer) {
    l !in hashes || hashes[l] != hash(now.Content(l))
  }

  /** compute_current. */
  function Current(hash: Hash, now: Sources): (h: Hashes)
    ensures forall l :: l in h && h[l] == hash(now.Content(l))
  {
    EveryLayer();
    map l | l in LAYERS :: hash(now.Content(l))
  }

  // ---------------------------------------------------------------------------
  // Preflight
  // ---------------------------------------------------------------------------

  datatype Operation = Sim | Bitstream | Other
  datatype Verdict = Fine | Warning | Error

  /** preflight_check: the severity. Tests come in the order of the code. */
  function Preflight(hash: Hash, now: Sources, hashes: Hashes, op: Operation): Verdict {
    if hashes == map[] then Error
    else if forall l :: l in LAYERS ==> !Stale(hash, now, hashes, l) then Fine
    else if Stale(hash, now, hashes, Rtl) then Error
    else if Stale(hash, now, hashes, Tb) && op == Sim then Warning
    else if Stale(hash, now, hashes, Src) && !Stale(hash, now, hashes, Coe) && op == Sim then Warning
    else if Stale(hash, now, hashes, Coe) && op == Sim then Error
    else if Stale(hash, now, hashes, Fpga) && op == Bitstream then Warning
    else Fine
  }

  /** What every other operation is told. */
  lemma OthersPass(hash: Hash, now: Sources, hashes: Hashes)
    ensures Preflight(hash, now, hashes, Other) == Error <==> hashes == map[] || Stale(hash, now, hashes, Rtl)
    ensures Preflight(hash, now, hashes, Other) != Warning
  {
    EveryLayer();
  }

  /** Exactly which layers a simulation may find stale: never RTL, and the firmware only when
      the testbench is stale too, because that warning returns first. */
  lemma SimPasses(hash: Hash, now: Sources, hashes: Hashes)
    ensures Preflight(hash, now, hashes, Sim) != Error <==>
              && hashes != map[] && !Stale(hash, now, hashes, Rtl)
              && (Stale(hash, now, hashes, Coe) ==> Stale(hash, now, hashes, Tb))
    ensures Preflight(hash, now, hashes, Sim) == Warning <==>
              && Preflight(hash, now, hashes, Sim) != Error
              && (Stale(hash, now, hashes, Tb) || Stale(hash, now, hashes, Src))
  {
    EveryLayer();
  }

  /** A bitstream may find everything stale but RTL, and only stale constraints, on their own
      or with others, are worth a warning: stale firmware, which goes into it, is not. */
  lemma BitstreamPasses(hash: Hash, now: Sources, hashes: Hashes)
    ensures Preflight(hash, now, hashes, Bitstream) != Error <==> hashes != map[] && !Stale(hash, now, hashes, Rtl)
    ensures Preflight(hash, now, hashes, Bitstream) == Warning <==>
              hashes != map[] && !Stale(hash, now, hashes, Rtl) && Stale(hash, now, hashes, Fpga)
  {
    EveryLayer();
  }

  // ---------------------------------------------------------------------------
  // What the steps of a script do to a project
  // ---------------------------------------------------------------------------

  /** The hash; whether the task has a testbench; whether it has a program hex file. */
  datatype Setup = Setup(hash: Hash, hasTb: bool, hasHex: bool)

  datatype TclStep =
    | CloseProject | DeleteProjectDir | CreateProject | SetupIp | AddConstrs | AddTb
    | RemoveFilesSim1 | SetPropertyTop | UpdateCompileOrder | UpdateCoe | SetPropertyCoe | GenerateTarget
    | RemoveConstrs | CopyHex | Launch

  /** Which content of each part a project was made from. */
  type Project = map<Part, nat>

  predicate Has(q: Project, p: Part, content: nat) {
    p in q && q[p] == content
  }

  /** The parts a step takes. add_tb, skipped without a testbench, imports all HDL. */
  function Reads(c: Setup, step: TclStep): set<Part> {
    match step
    case CreateProject => {Listing}
    case SetupIp => {Ip, Rom}
    case AddConstrs => {Constrs}
    case AddTb => if c.hasTb then {Hdl, Bench, Rom} else {}
    case UpdateCoe => {Rom}
    case SetPropertyCoe => {Rom}
    case CopyHex => if c.hasHex then {Hex} else {}
    case _ => {}
  }

  /** The parts a step throws away; add_tb takes the HDL off the list of sources_1. */
  function Clears(c: Setup, step: TclStep): set<Part> {
    match step
    case DeleteProjectDir => {Hdl, Ip, Bench, Rom, Hex, Constrs, Listing}
    case CreateProject => {Hdl, Ip, Bench, Rom, Hex, Constrs}
    case AddTb => if c.hasTb then {Listing} else {}
    case RemoveConstrs => {Constrs}
    case RemoveFilesSim1 => {Hdl, Bench}
    case _ => {}
  }

  /** What a script with this configuration takes for a part: its text was composed from a
      configuration in memory, everything else is on disk. */
  function Taken(now: Sources, config: nat, p: Part): nat {
    if p == Ip then config else now.Of(p)
  }

  /** One step that succeeds. */
  function StepDone(c: Setup, q: Project, now: Sources, config: nat, step: TclStep): Project {
    map p | p in PARTS && (p in Reads(c, step) || (p in q && p !in Clears(c, step)))
      :: if p in Reads(c, step) then Taken(now, config, p) else q[p]
  }

  predicate Same(q: Project, q': Project, p: Part) {
    (p in q' <==> p in q) && (p in q ==> q'[p] == q[p])
  }

  lemma StepEffect(c: Setup, q: Project, now: Sources, config: nat, step: TclStep, p: Part)
    ensures var q' := StepDone(c, q, now, config, step);
            if p in Reads(c, step) then Has(q', p, Taken(now, config, p))
            else if p in Clears(c, step) then p !in q'
            else Same(q, q', p)
  {
    EveryPart();
  }

  function StepsDone(c: Setup, q: Project, now: Sources, config: nat, steps: seq<TclStep>): Project
    decreases |steps|
  {
    if steps == [] then q else StepsDone(c, StepDone(c, q, now, config, steps[0]), now, config, steps[1..])
  }

  lemma {:induction false} StepsInTurn(c: Setup, q: Project, now: Sources, config: nat, a: seq<TclStep>, b: seq<TclStep>)
    ensures StepsDone(c, q, now, config, a + b) == StepsDone(c, StepsDone(c, q, now, config, a), now, config, b)
    decreases |a|
  {
    if a == [] {
      assert a + b == b;
    } else {
      assert (a + b)[1..] == a[1..] + b;
      StepsInTurn(c, StepDone(c, q, now, config, a[0]), now, config, a[1..], b);
    }
  }

  lemma FewSteps(c: Setup, q: Project, now: Sources, config: nat, a: TclStep, b: TclStep)
    ensures StepsDone(c, q, now, config, []) == q
    ensures StepsDone(c, q, now, config, [a]) == StepDone(c, q, now, config, a)
    ensures StepsDone(c, q, now, config, [a, b]) == StepDone(c, StepDone(c, q, now, config, a), now, config, b)
  {
    assert [a, b][1..] == [b];
    var q1 := StepDone(c, q, now, config, a);
    assert StepsDone(c, q1, now, config, [b]) == StepDone(c, q1, now, config, b);
  }

  lemma TwoSteps(c: Setup, q: Project, now: Sources, config: nat, a: TclStep, b: TclStep, p: Part)
    ensures var q' := StepsDone(c, q, now, config, [a, b]);
            if p in Reads(c, b) || (p in Reads(c, a) && p !in Clears(c, b)) then Has(q', p, Taken(now, config, p))
            else if p in Clears(c, a) + Clears(c, b) then p !in q'
            else Same(q, q', p)
  {
    hide StepsDone, StepDone, Reads, Clears;
    FewSteps(c, q, now, config, a, b);
    StepEffect(c, q, now, config, a, p);
    StepEffect(c, StepDone(c, q, now, config, a), now, config, b, p);
  }

  // ---------------------------------------------------------------------------
  // Refresh plans
  // ---------------------------------------------------------------------------

  datatype Plan = Plan(full: bool, layers: seq<Layer>, steps: seq<TclStep>)

  const CREATE_STEPS := [CreateProject, SetupIp, AddConstrs]
  const FULL_STEPS := [CloseProject, DeleteProjectDir, CreateProject, SetupIp, AddConstrs, AddTb]
  const TB_STEPS := [RemoveFilesSim1, AddTb, SetPropertyTop, UpdateCompileOrder, UpdateCoe]
  const COE_STEPS := [SetPropertyCoe, GenerateTarget]
  const FPGA_STEPS := [RemoveConstrs, AddConstrs]
  const SIM_STEPS := [AddTb, CopyHex, Launch]

  function PlanFor(stale: set<Layer>): Plan {
    if Rtl in stale then Plan(true, StaleList(stale), FULL_STEPS)
    else Plan(false, Only(stale, Tb) + Only(stale, Coe) + Only(stale, Fpga),
              (if Tb in stale then TB_STEPS else []) + (if Coe in stale then COE_STEPS else [])
              + (if Fpga in stale then FPGA_STEPS else []))
  }

  /** The stale layers in the order of LAYERS. */
  function StaleList(stale: set<Layer>): seq<Layer> {
    Only(stale, Rtl) + Only(stale, Tb) + Only(stale, Src) + Only(stale, Coe) + Only(stale, Fpga)
  }

  function Only(stale: set<Layer>, l: Layer): seq<Layer> {
    if l in stale then [l] else []
  }

  /** Which parts of a project a refresh of these layers takes anew. */
  predicate Renews(c: Setup, stale: set<Layer>, p: Part) {
    match p
    case Ip => Rtl in stale
    case Listing => Rtl in stale && !c.hasTb
    case Rom => Rtl in stale || Tb in stale || Coe in stale
    case Constrs => Rtl in stale || Fpga in stale
    case Hex => false
    case _ => c.hasTb && (Rtl in stale || Tb in stale)
  }

  /** And which it drops without taking them anew. */
  predicate Drops(c: Setup, stale: set<Layer>, p: Part) {
    match p
    case Hex => Rtl in stale
    case Listing => c.hasTb && (Rtl in stale || Tb in stale)
    case Hdl => !c.hasTb && (Rtl in stale || Tb in stale)
    case Bench => !c.hasTb && (Rtl in stale || Tb in stale)
    case _ => false
  }

  /** What carrying out a plan makes of part p of any project, in sources that keep still. */
  ghost predicate Delivers(plan: Plan, stale: set<Layer>, c: Setup, q: Project, now: Sources, config: nat, p: Part) {
    var q' := StepsDone(c, q, now, config, plan.steps);
    if Renews(c, stale, p) then Has(q', p, Taken(now, config, p))
    else if Drops(c, stale, p) then p !in q'
    else Same(q, q', p)
  }

  /** A plan that serves: full exactly for stale RTL, empty exactly when at most src is stale;
      whatever the project was made from, its steps renew exactly the parts that need it. */
  ghost predicate Serves(plan: Plan, stale: set<Layer>) {
    && (plan.full <==> Rtl in stale)
    && (plan.layers == [] <==> stale <= {Src}) && (plan.steps == [] <==> plan.layers == [])
    && (forall l :: l in plan.layers <==> l in stale && (l == Src ==> plan.full))
    && (forall c, q, now, config, p :: Delivers(plan, stale, c, q, now, config, p))
  }

  /** plan_refresh, on the layers found stale or forced. */
  method PlanRefresh(stale: set<Layer>) returns (p: Plan)
    ensures Serves(p, stale) && p == PlanFor(stale)
  {
    hide Serves, FULL_STEPS, TB_STEPS, COE_STEPS, FPGA_STEPS;
    PlanServes(stale);
    NothingStale(stale);
    hide StaleList;
    var staleLayers := StaleList(stale);
    if staleLayers == [] {
      return Plan(false, [], []);
    }
    if Rtl in stale {
      return Plan(true, staleLayers, FULL_STEPS);
    }
    var steps: seq<TclStep> := [];
    var layers: seq<Layer> := [];
    if Tb in stale {
      layers := layers + [Tb];
      steps := steps + TB_STEPS;
    }
    if Coe in stale {
      layers := layers + [Coe];
      steps := steps + COE_STEPS;
    }
    if Fpga in stale {
      layers := layers + [Fpga];
      steps := steps + FPGA_STEPS;
    }
    p := Plan(false, layers, steps);
    assert layers == PlanFor(stale).layers && steps == PlanFor(stale).steps;
  }

  lemma ListMeans(stale: set<Layer>)
    ensures forall l :: l in StaleList(stale) <==> l in stale
    ensures StaleList(stale) == [] <==> stale == {}
  {
    EveryLayer();
    forall l
      ensures l in StaleList(stale) <==> l in stale
    {
      match l case Rtl => case Tb => case Src => case Coe => case Fpga =>
    }
    if stale != {} {
      var l :| l in stale;
      assert l in StaleList(stale);
    }
  }

  lemma NothingStale(stale: set<Layer>)
    ensures StaleList(stale) == [] ==> PlanFor(stale) == Plan(false, [], [])
  {
    ListMeans(stale);
  }

  /** A new project, whatever was there before. */
  lemma FullSteps(c: Setup, q: Project, now: Sources, config: nat, p: Part)
    ensures var q' := StepsDone(c, q, now, config, FULL_STEPS);
            if Renews(c, {Rtl}, p) then Has(q', p, Taken(now, config, p)) else p !in q'
  {
    hide StepsDone, StepDone;
    assert FULL_STEPS == [CloseProject, DeleteProjectDir] + ([CreateProject, SetupIp] + [AddConstrs, AddTb]);
    var q2 := StepsDone(c, q, now, config, [CloseProject, DeleteProjectDir]);
    var q4 := StepsDone(c, q2, now, config, [CreateProject, SetupIp]);
    StepsInTurn(c, q, now, config, [CloseProject, DeleteProjectDir], [CreateProject, SetupIp] + [AddConstrs, AddTb]);
    StepsInTurn(c, q2, now, config, [CreateProject, SetupIp], [AddConstrs, AddTb]);
    TwoSteps(c, q, now, config, CloseProject, DeleteProjectDir, p);
    TwoSteps(c, q2, now, config, CreateProject, SetupIp, p);
    TwoSteps(c, q4, now, config, AddConstrs, AddTb, p);
  }

  /** What each incremental part renews, drops, and leaves alone. */
  lemma TbSteps(c: Setup, q: Project, now: Sources, config: nat, p: Part)
    ensures var q' := StepsDone(c, q, now, config, TB_STEPS);
            if Renews(c, {Tb}, p) then Has(q', p, Taken(now, config, p))
            else if Drops(c, {Tb}, p) then p !in q'
            else Same(q, q', p)
  {
    hide StepsDone, StepDone;
    assert TB_STEPS == [RemoveFilesSim1, AddTb] + ([SetPropertyTop, UpdateCompileOrder] + [UpdateCoe]);
    var q2 := StepsDone(c, q, now, config, [RemoveFilesSim1, AddTb]);
    var q4 := StepsDone(c, q2, now, config, [SetPropertyTop, UpdateCompileOrder]);
    StepsInTurn(c, q, now, config, [RemoveFilesSim1, AddTb], [SetPropertyTop, UpdateCompileOrder] + [UpdateCoe]);
    StepsInTurn(c, q2, now, config, [SetPropertyTop, UpdateCompileOrder], [UpdateCoe]);
    TwoSteps(c, q, now, config, RemoveFilesSim1, AddTb, p);
    TwoSteps(c, q2, now, config, SetPropertyTop, UpdateCompileOrder, p);
    FewSteps(c, q4, now, config, UpdateCoe, UpdateCoe);
    StepEffect(c, q4, now, config, UpdateCoe, p);
  }

  lemma CoeFpgaSteps(c: Setup, q: Project, now: Sources, config: nat, p: Part)
    ensures var q' := StepsDone(c, q, now, config, COE_STEPS); if p == Rom then Has(q', p, now.rom) else Same(q, q', p)
    ensures var q' := StepsDone(c, q, now, config, FPGA_STEPS);
            if p == Constrs then Has(q', p, now.constrs) else Same(q, q', p)
    ensures StepsDone(c, q, now, config, []) == q
  {
    hide StepsDone, StepDone;
    FewSteps(c, q, now, config, SetPropertyCoe, GenerateTarget);
    TwoSteps(c, q, now, config, SetPropertyCoe, GenerateTarget, p);
    TwoSteps(c, q, now, config, RemoveConstrs, AddConstrs, p);
  }

  lemma PlanDelivers(stale: set<Layer>, c: Setup, q: Project, now: Sources, config: nat, p: Part)
    ensures Delivers(PlanFor(stale), stale, c, q, now, config, p)
  {
    hide StepsDone;
    if Rtl in stale {
      FullSteps(c, q, now, config, p);
    } else {
      hide FULL_STEPS, TB_STEPS, COE_STEPS, FPGA_STEPS;
      var x := if Tb in stale then TB_STEPS else [];
      var y := if Coe in stale then COE_STEPS else [];
      var z := if Fpga in stale then FPGA_STEPS else [];
      var q1 := StepsDone(c, q, now, config, x);
      var q2 := StepsDone(c, q1, now, config, y);
      StepsInTurn(c, q, now, config, x, y);
      StepsInTurn(c, q, now, config, x + y, z);
      TbSteps(c, q, now, config, p);
      CoeFpgaSteps(c, q, now, config, p);
      CoeFpgaSteps(c, q1, now, config, p);
      CoeFpgaSteps(c, q2, now, config, p);
    }
  }

  /** Every plan of plan_refresh serves. */
  lemma PlanServes(stale: set<Layer>)
    ensures Serves(PlanFor(stale), stale)
  {
    hide Delivers, PlanFor;
    AllDelivered(stale);
    PlanLayers(stale);
  }

  lemma PlanLayers(stale: set<Layer>)
    ensures var plan := PlanFor(stale);
            && (plan.full <==> Rtl in stale)
            && (plan.layers == [] <==> stale <= {Src}) && (plan.steps == [] <==> plan.layers == [])
            && (forall l :: l in plan.layers <==> l in stale && (l == Src ==> plan.full))
  {
    var plan := PlanFor(stale);
    ListMeans(stale);
    if !(stale <= {Src}) {
      var l :| l in stale && l != Src;
      match l case Rtl => case Tb => case Coe => case Fpga =>
    }
    forall l
      ensures l in plan.layers <==> l in stale && (l == Src ==> plan.full)
    {
      match l case Rtl => case Tb => case Src => case Coe => case Fpga =>
    }
  }

  lemma AllDelivered(stale: set<Layer>)
    ensures forall c, q, now, config, p :: Delivers(PlanFor(stale), stale, c, q, now, config, p)
  {
    hide Delivers, PlanFor;
    forall c, q, now, config, p
      ensures Delivers(PlanFor(stale), stale, c, q, now, config, p)
    {
      PlanDelivers(stale, c, q, now, config, p);
    }
  }
}
