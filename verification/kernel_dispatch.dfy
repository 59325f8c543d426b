/** How the shuffler chromosome drives its device kernels: the kernel names each
    stage declares, the buffers `preexecute_kernels` allocates, and the order and
    work sizes in which the `execute_*` stages dispatch their kernels.

    The device is modelled by what the host can observe of it: whether the
    chromosome's own buffers exist, and a log of allocations and kernel
    dispatches. Every dispatch is waited for before the host goes on, so each
    `Launched` event is immediately followed by its `Completed` event. */
module KernelDispatch {
  import opened Outcomes

  const PopulateKernel: string := "shuffler_chromosome_populate"
  const UpdateSurvivorsKernel: string := "shuffler_chromosome_update_survivors"
  const CrossoverKernel: string := "shuffler_chromosome_crossover"
  const MutateKernel: string := "shuffler_chromosome_mutate"

  function PopulateKernelNames(): seq<string> {
    [PopulateKernel]
  }

  function CrossoverKernelNames(): seq<string> {
    [UpdateSurvivorsKernel, CrossoverKernel]
  }

  function MutationKernelNames(): seq<string> {
    [MutateKernel]
  }

  /** A kernel argument. The first three buffers are lent by the caller; best,
      weakest and the survivor mask belong to the chromosome. */
  datatype Arg =
    | DnaBuffer
    | FitnessBuffer
    | RandomBuffer
    | BestSlot
    | WeakestSlot
    | SurvivorMask
    | Probability(p: real)

  /** One kernel invocation: kernel name, global and local work size, arguments in order. */
  datatype Dispatch = Dispatch(kernel: string, globalSize: nat, localSize: nat, args: seq<Arg>)

  /** The chromosome's own device buffers, by slot count: a survivor mask with
      one slot per individual, and best and weakest fitness values. The host
      never reads them back, so their contents are not modelled, except that
      `scalarsInitial` records whether best and weakest still hold the 0 copied
      in at allocation; once a kernel has been handed them they hold
      device-computed values, which may or may not be 0. The mask is created without host data, so it has no known contents. */
  datatype Buffers = Buffers(survivorSlots: nat, bestSlots: nat, weakestSlots: nat, scalarsInitial: bool)

  datatype Event =
    | Allocated(population: nat)
    | Launched(dispatch: Dispatch)
    | Completed(dispatch: Dispatch)

  /** What the host can observe: the chromosome's buffers, if allocated, and the event log. */
  datatype Device = Device(buffers: Option<Buffers>, log: seq<Event>)

  const Initial: Device := Device(None, [])

  /** A call the pipeline driver can make on the chromosome. Program, queue and
      device buffers lent by the driver are not carried: they are the same on every call. */
  datatype Call =
    | Allocate(population: nat)    // `preexecute_kernels`
    | Populate(population: nat)
    | Crossover(population: nat, probCrossover: real)
    | Mutation(population: nat, probMutate: real)

  // ---------------------------------------------------------------- plans

  function PopulatePlan(population: nat): seq<Dispatch> {
    [Dispatch(PopulateKernel, population, 1, [DnaBuffer, RandomBuffer])]
  }

  function CrossoverPlan(population: nat, probCrossover: real): seq<Dispatch> {
    [ Dispatch(UpdateSurvivorsKernel, 1, 1, [FitnessBuffer, BestSlot, WeakestSlot, SurvivorMask]),
      Dispatch(CrossoverKernel, population, 1,
               [DnaBuffer, FitnessBuffer, SurvivorMask, Probability(probCrossover), RandomBuffer]) ]
  }

  function MutationPlan(population: nat, probMutate: real): seq<Dispatch> {
    [Dispatch(MutateKernel, population, 1, [DnaBuffer, Probability(probMutate), RandomBuffer])]
  }

  function KernelsOf(plan: seq<Dispatch>): (names: seq<string>)
    ensures |names| == |plan|
  {
    seq(|plan|, i requires 0 <= i < |plan| => plan[i].kernel)
  }

  // ---------------------------------------------------------------- dispatch

  predicate UsesOwnBuffers(k: Dispatch) {
    BestSlot in k.args || WeakestSlot in k.args || SurvivorMask in k.args
  }

  /** The kernel is handed the best or weakest buffer, which are read-write. */
  predicate WritesScalars(k: Dispatch) {
    BestSlot in k.args || WeakestSlot in k.args
  }

  /** The buffers once every dispatch of `done` has run: best and weakest hold
      device-computed values if any of them was handed those buffers. */
  function AfterDispatches(b: Option<Buffers>, done: seq<Dispatch>): Option<Buffers> {
    if b.Some? && exists i :: 0 <= i < |done| && WritesScalars(done[i])
    then Some(b.value.(scalarsInitial := false))
    else b
  }

  /** One dispatch, waited for. */
  function Perform(d: Device, k: Dispatch): Device {
    Device(AfterDispatches(d.buffers, [k]), d.log + [Launched(k), Completed(k)])
  }

  /** A dispatch can go ahead when the program has its kernel and, if it reads
      the chromosome's own buffers, those have been allocated. */
  predicate CanRun(hasBuffers: bool, program: set<string>, k: Dispatch) {
    k.kernel in program && (UsesOwnBuffers(k) ==> hasBuffers)
  }

  /** Why a dispatch cannot go ahead. The kernel is looked up before its
      arguments are read, so a missing kernel is reported first. */
  function Blocked(program: set<string>, k: Dispatch): Error {
    if k.kernel !in program then MissingKernel(k.kernel) else NotPreexecuted
  }

  /** How many dispatches of `plan`, from the first, can go ahead. */
  function RunnablePrefix(hasBuffers: bool, program: set<string>, plan: seq<Dispatch>): (n: nat)
    ensures n <= |plan|
    ensures forall i :: 0 <= i < n ==> CanRun(hasBuffers, program, plan[i])
    ensures n < |plan| ==> !CanRun(hasBuffers, program, plan[n])
  {
    if |plan| == 0 || !CanRun(hasBuffers, program, plan[0]) then 0
    else 1 + RunnablePrefix(hasBuffers, program, plan[1..])
  }

  /** The events of dispatching `plan` in order and waiting for each. */
  function Serial(plan: seq<Dispatch>): seq<Event> {
    if |plan| == 0 then [] else [Launched(plan[0]), Completed(plan[0])] + Serial(plan[1..])
  }

  /** Dispatches `plan` one kernel at a time, waiting for each, and stops at
      the first dispatch that cannot go ahead. */
  function RunPlan(d: Device, program: set<string>, plan: seq<Dispatch>): (r: Step<Device>)
    decreases |plan|
    ensures var n := RunnablePrefix(d.buffers.Some?, program, plan);
      && r.state == Device(AfterDispatches(d.buffers, plan[..n]), d.log + Serial(plan[..n]))
      && (r.outcome == Done <==> n == |plan|)
      && (n < |plan| ==> r.outcome == Raised(Blocked(program, plan[n])))
  {
    if |plan| == 0 then
      Step(d, Done)
    else if !CanRun(d.buffers.Some?, program, plan[0]) then
      Step(d, Raised(Blocked(program, plan[0])))
    else
      var r := RunPlan(Perform(d, plan[0]), program, plan[1..]);
      ghost var n := RunnablePrefix(d.buffers.Some?, program, plan);
      assert plan[..n][1..] == plan[1..][..n - 1];
      AfterDispatchesStep(d.buffers, plan[..n]);
      r
  }

  /** Running one dispatch and then the rest is running them all. */
  lemma AfterDispatchesStep(b: Option<Buffers>, done: seq<Dispatch>)
    requires |done| > 0
    ensures AfterDispatches(AfterDispatches(b, [done[0]]), done[1..]) == AfterDispatches(b, done)
  {
    if b.Some? && WritesScalars(done[0]) {
      assert WritesScalars([done[0]][0]);
    }
    if exists i :: 0 <= i < |done[1..]| && WritesScalars(done[1..][i]) {
      var i :| 0 <= i < |done[1..]| && WritesScalars(done[1..][i]);
      assert WritesScalars(done[i + 1]);
    }
    if exists i :: 0 <= i < |done| && WritesScalars(done[i]) {
      var i :| 0 <= i < |done| && WritesScalars(done[i]);
      if i > 0 {
        assert WritesScalars(done[1..][i - 1]);
      } else {
        assert WritesScalars([done[0]][0]);
      }
    }
  }

  // ---------------------------------------------------------------- stages

  /** `preexecute_kernels`: allocates a survivor mask of `population` slots and
      single best and weakest slots holding 0. Calling it again allocates
      afresh, dropping whatever a survivor update had written. */
  function Preexecute(d: Device, population: nat): (r: Device)
    ensures r.buffers.Some? && r.buffers.value.survivorSlots == population
    ensures r.buffers.value.bestSlots == 1 && r.buffers.value.weakestSlots == 1
    ensures r.buffers.value.scalarsInitial
    ensures r.log == d.log + [Allocated(population)]
  {
    Device(Some(Buffers(population, 1, 1, true)), d.log + [Allocated(population)])
  }

  /** `execute_populate`: one work item per individual; needs no buffer of the chromosome's own. */
  function ExecutePopulate(d: Device, program: set<string>, population: nat): (r: Step<Device>)
    ensures r.state.buffers == d.buffers
    ensures r.outcome == Done <==> PopulateKernel in program
    ensures r.outcome == Done ==> r.state.log == d.log + Serial(PopulatePlan(population))
    ensures r.outcome != Done ==> r == Step(d, Raised(MissingKernel(PopulateKernel)))
  {
    RunPlan(d, program, PopulatePlan(population))
  }

  /** `execute_crossover`: first the single-work-item survivor update, then
      crossover with one work item per individual. */
  function ExecuteCrossover(d: Device, program: set<string>, population: nat, probCrossover: real)
    : (r: Step<Device>)
    ensures r.state.buffers.Some? == d.buffers.Some?
    ensures d.buffers.Some? ==>
      && r.state.buffers.value.survivorSlots == d.buffers.value.survivorSlots
      && r.state.buffers.value.bestSlots == d.buffers.value.bestSlots
      && r.state.buffers.value.weakestSlots == d.buffers.value.weakestSlots
    ensures UpdateSurvivorsKernel in program && d.buffers.Some? ==> !r.state.buffers.value.scalarsInitial
    ensures r.outcome == Done <==>
      UpdateSurvivorsKernel in program && CrossoverKernel in program && d.buffers.Some?
    ensures r.outcome == Done ==> r.state.log == d.log + Serial(CrossoverPlan(population, probCrossover))
    ensures UpdateSurvivorsKernel !in program ==>
      r == Step(d, Raised(MissingKernel(UpdateSurvivorsKernel)))
    ensures UpdateSurvivorsKernel in program && d.buffers.None? ==>
      r == Step(d, Raised(NotPreexecuted))
    ensures UpdateSurvivorsKernel in program && d.buffers.Some? && CrossoverKernel !in program ==>
      r == Step(Perform(d, CrossoverPlan(population, probCrossover)[0]), Raised(MissingKernel(CrossoverKernel)))
  {
    var plan := CrossoverPlan(population, probCrossover);
    assert plan[..|plan|] == plan;
    assert plan[1..][1..] == [];
    assert plan[..1] == [plan[0]] && plan[..1][1..] == [];
    assert Serial(plan[..1]) == [Launched(plan[0]), Completed(plan[0])];
    RunPlan(d, program, plan)
  }

  /** `execute_mutation`: one work item per individual; the fitness buffer it is handed goes unused. */
  function ExecuteMutation(d: Device, program: set<string>, population: nat, probMutate: real)
    : (r: Step<Device>)
    ensures r.state.buffers == d.buffers
    ensures r.outcome == Done <==> MutateKernel in program
    ensures r.outcome == Done ==> r.state.log == d.log + Serial(MutationPlan(population, probMutate))
    ensures r.outcome != Done ==> r == Step(d, Raised(MissingKernel(MutateKernel)))
  {
    RunPlan(d, program, MutationPlan(population, probMutate))
  }

  function Apply(d: Device, program: set<string>, call: Call): Step<Device> {
    match call
    case Allocate(p) => Step(Preexecute(d, p), Done)
    case Populate(p) => ExecutePopulate(d, program, p)
    case Crossover(p, prob) => ExecuteCrossover(d, program, p, prob)
    case Mutation(p, prob) => ExecuteMutation(d, program, p, prob)
  }

  /** The driver's calls in order; a raise ends the run. */
  function Replay(d: Device, program: set<string>, calls: seq<Call>): Step<Device>
    decreases |calls|
  {
    if |calls| == 0 then Step(d, Done)
    else
      var r := Apply(d, program, calls[0]);
      if r.outcome != Done then r else Replay(r.state, program, calls[1..])
  }

  // ---------------------------------------------------------------- properties

  /** Each stage dispatches exactly the kernels its name list declares, in that
      order; survivors are updated by one work item, everything else by one per individual. */
  lemma StagesDispatchDeclaredKernels(population: nat, probCrossover: real, probMutate: real)
    ensures KernelsOf(PopulatePlan(population)) == PopulateKernelNames()
    ensures KernelsOf(CrossoverPlan(population, probCrossover)) == CrossoverKernelNames()
    ensures KernelsOf(MutationPlan(population, probMutate)) == MutationKernelNames()
    ensures PopulatePlan(population)[0].globalSize == population
    ensures CrossoverPlan(population, probCrossover)[0].globalSize == 1
    ensures CrossoverPlan(population, probCrossover)[1].globalSize == population
    ensures MutationPlan(population, probMutate)[0].globalSize == population
  {
  }

  /** On an allocated device with both kernels present, crossover logs exactly:
      the survivor update launched and completed, then crossover launched and completed. */
  lemma CrossoverOrder(d: Device, program: set<string>, population: nat, probCrossover: real)
    requires d.buffers.Some?
    requires UpdateSurvivorsKernel in program && CrossoverKernel in program
    ensures var r := ExecuteCrossover(d, program, population, probCrossover);
      var e := r.state.log[|d.log|..];
      && r.outcome == Done
      && |e| == 4
      && e[0].Launched? && e[1] == Completed(e[0].dispatch)
      && e[2].Launched? && e[3] == Completed(e[2].dispatch)
      && [e[0].dispatch.kernel, e[2].dispatch.kernel] == CrossoverKernelNames()
      && e[0].dispatch.globalSize == 1 && e[2].dispatch.globalSize == population
      && SurvivorMask in e[0].dispatch.args && SurvivorMask in e[2].dispatch.args
  {
    var r := ExecuteCrossover(d, program, population, probCrossover);
    var plan := CrossoverPlan(population, probCrossover);
    assert Serial(plan) == [Launched(plan[0]), Completed(plan[0]), Launched(plan[1]), Completed(plan[1])] by {
      assert plan[1..][1..] == [];
      assert Serial(plan[1..]) == [Launched(plan[1]), Completed(plan[1])];
    }
    assert r.state.log[|d.log|..] == Serial(plan);
  }

  /** Allocating again with the same population yields the same buffers. */
  lemma PreexecuteIdempotent(d: Device, population: nat)
    ensures Preexecute(Preexecute(d, population), population).buffers == Preexecute(d, population).buffers
  {
  }

  /** A survivor update leaves device-computed values in best and weakest;
      allocating again replaces them with 0 and keeps the slot counts. */
  lemma ReallocationDiscardsSurvivorUpdate(program: set<string>, population: nat, probCrossover: real)
    requires UpdateSurvivorsKernel in program && CrossoverKernel in program
    ensures var d := Preexecute(Initial, population);
      var c := ExecuteCrossover(d, program, population, probCrossover).state;
      && !c.buffers.value.scalarsInitial
      && Preexecute(c, population).buffers.value.scalarsInitial
      && Preexecute(c, population).buffers == d.buffers
  {
  }

  /** The survivor mask is not checked against the population crossover is
      later called with: a mask of 4 slots lets a crossover over 8 individuals run. */
  lemma PopulationMismatchNotRejected(program: set<string>, probCrossover: real)
    requires UpdateSurvivorsKernel in program && CrossoverKernel in program
    ensures var d := Preexecute(Initial, 4);
      && d.buffers.value.survivorSlots == 4
      && ExecuteCrossover(d, program, 8, probCrossover).outcome == Done
  {
  }

  // ---------------------------------------------------------------- log discipline

  /** Every launch is immediately followed by its completion. */
  ghost predicate Serialized(log: seq<Event>)
    decreases |log|
  {
    if |log| == 0 then true
    else if log[0].Allocated? then Serialized(log[1..])
    else |log| >= 2 && log[0].Launched? && log[1] == Completed(log[0].dispatch) && Serialized(log[2..])
  }

  ghost predicate AllocatedBefore(log: seq<Event>, i: int) {
    exists j :: 0 <= j < i && j < |log| && log[j].Allocated?
  }

  /** No launch reads the chromosome's own buffers before they were allocated. */
  ghost predicate OwnBuffersAfterAllocation(log: seq<Event>) {
    forall i :: 0 <= i < |log| && log[i].Launched? && UsesOwnBuffers(log[i].dispatch) ==>
      AllocatedBefore(log, i)
  }

  /** The event right before `i` is a completed single-work-item survivor update. */
  ghost predicate AfterSurvivorUpdate(log: seq<Event>, i: int) {
    && 1 <= i <= |log|
    && log[i - 1].Completed?
    && log[i - 1].dispatch.kernel == UpdateSurvivorsKernel
    && log[i - 1].dispatch.globalSize == 1
  }

  /** Every crossover launch comes right after the survivor update completed. */
  ghost predicate SurvivorsBeforeCrossover(log: seq<Event>) {
    forall i :: 0 <= i < |log| && log[i].Launched? && log[i].dispatch.kernel == CrossoverKernel ==>
      AfterSurvivorUpdate(log, i)
  }

  /** The host-side discipline the stages keep: serialised dispatches, own
      buffers used only after an allocation, and every crossover launch
      immediately preceded by a completed survivor update. */
  ghost predicate Disciplined(d: Device) {
    && Serialized(d.log)
    && (d.buffers.Some? ==> AllocatedBefore(d.log, |d.log|))
    && OwnBuffersAfterAllocation(d.log)
    && SurvivorsBeforeCrossover(d.log)
  }

  lemma {:induction false} SerializedConcat(a: seq<Event>, b: seq<Event>)
    requires Serialized(a) && Serialized(b)
    ensures Serialized(a + b)
    decreases |a|
  {
    if |a| > 0 {
      assert (a + b)[0] == a[0];
      if a[0].Allocated? {
        SerializedConcat(a[1..], b);
        assert (a + b)[1..] == a[1..] + b;
        assert Serialized((a + b)[1..]);
      } else {
        assert (a + b)[1] == a[1];
        SerializedConcat(a[2..], b);
        assert (a + b)[2..] == a[2..] + b;
        assert Serialized((a + b)[2..]);
      }
    } else {
      assert a + b == b;
    }
  }

  /** An allocation seen in a log is still seen once more events are appended. */
  lemma AllocatedBeforeExtends(log: seq<Event>, e: seq<Event>, i: int, i': int)
    requires AllocatedBefore(log, i) && i <= i'
    ensures AllocatedBefore(log + e, i')
  {
    var j :| 0 <= j < i && j < |log| && log[j].Allocated?;
    assert (log + e)[j] == log[j];
  }

  /** Events that are not launches keep the two ordering properties. */
  lemma NoLaunchKeepsOrder(log: seq<Event>, e: seq<Event>)
    requires OwnBuffersAfterAllocation(log) && SurvivorsBeforeCrossover(log)
    requires forall m :: 0 <= m < |e| ==> !e[m].Launched?
    ensures OwnBuffersAfterAllocation(log + e) && SurvivorsBeforeCrossover(log + e)
  {
    var l := log + e;
    forall i | 0 <= i < |l| && l[i].Launched? && UsesOwnBuffers(l[i].dispatch)
      ensures AllocatedBefore(l, i)
    {
      AllocatedBeforeExtends(log, e, i, i);
    }
    forall i | 0 <= i < |l| && l[i].Launched? && l[i].dispatch.kernel == CrossoverKernel
      ensures AfterSurvivorUpdate(l, i)
    {
      assert l[i - 1] == log[i - 1];
    }
  }

  lemma AllocateKeepsDiscipline(d: Device, population: nat)
    requires Disciplined(d)
    ensures Disciplined(Preexecute(d, population))
  {
    var e := [Allocated(population)];
    assert Serialized(e);
    SerializedConcat(d.log, e);
    assert (d.log + e)[|d.log|].Allocated?;
    NoLaunchKeepsOrder(d.log, e);
  }

  /** Appending one waited-for dispatch keeps the discipline, provided the
      dispatch could go ahead and a crossover comes right after a survivor update. */
  lemma DispatchKeepsDiscipline(d: Device, program: set<string>, k: Dispatch)
    requires Disciplined(d)
    requires CanRun(d.buffers.Some?, program, k)
    requires k.kernel == CrossoverKernel ==> AfterSurvivorUpdate(d.log, |d.log|)
    ensures Disciplined(Perform(d, k))
  {
    var e := [Launched(k), Completed(k)];
    var l := d.log + e;
    assert Serialized(e) by {
      assert e[2..] == [];
    }
    SerializedConcat(d.log, e);
    if d.buffers.Some? {
      AllocatedBeforeExtends(d.log, e, |d.log|, |l|);
    }
    forall i | 0 <= i < |l| && l[i].Launched? && UsesOwnBuffers(l[i].dispatch)
      ensures AllocatedBefore(l, i)
    {
      if i < |d.log| {
        assert l[i] == d.log[i];
        AllocatedBeforeExtends(d.log, e, i, i);
      } else {
        AllocatedBeforeExtends(d.log, e, |d.log|, i);
      }
    }
    forall i | 0 <= i < |l| && l[i].Launched? && l[i].dispatch.kernel == CrossoverKernel
      ensures AfterSurvivorUpdate(l, i)
    {
      if i < |d.log| {
        assert l[i] == d.log[i];
        assert l[i - 1] == d.log[i - 1];
      } else {
        assert i == |d.log|;
        assert l[i - 1] == d.log[i - 1];
      }
    }
  }

  /** Runs the plan's dispatches one by one through `DispatchKeepsDiscipline`. */
  lemma {:induction false} RunKeepsDiscipline(d: Device, program: set<string>, plan: seq<Dispatch>)
    requires Disciplined(d)
    requires forall m :: 1 <= m < |plan| && plan[m].kernel == CrossoverKernel ==>
      plan[m - 1].kernel == UpdateSurvivorsKernel && plan[m - 1].globalSize == 1
    requires |plan| > 0 && plan[0].kernel == CrossoverKernel ==> AfterSurvivorUpdate(d.log, |d.log|)
    ensures Disciplined(RunPlan(d, program, plan).state)
    decreases |plan|
  {
    if |plan| > 0 && CanRun(d.buffers.Some?, program, plan[0]) {
      var d' := Perform(d, plan[0]);
      DispatchKeepsDiscipline(d, program, plan[0]);
      assert forall m :: 1 <= m < |plan[1..]| ==> plan[1..][m] == plan[m + 1];
      RunKeepsDiscipline(d', program, plan[1..]);
    }
  }

  lemma ApplyKeepsDiscipline(d: Device, program: set<string>, call: Call)
    requires Disciplined(d)
    ensures Disciplined(Apply(d, program, call).state)
  {
    match call
    case Allocate(p) => AllocateKeepsDiscipline(d, p);
    case Populate(p) => RunKeepsDiscipline(d, program, PopulatePlan(p));
    case Crossover(p, prob) => RunKeepsDiscipline(d, program, CrossoverPlan(p, prob));
    case Mutation(p, prob) => RunKeepsDiscipline(d, program, MutationPlan(p, prob));
  }

  /** Whatever the driver calls, in whatever order, the log keeps the discipline:
      dispatches never overlap, the chromosome's buffers are never used before
      an allocation, and survivors are updated right before every crossover. */
  lemma {:induction false} ReplayKeepsDiscipline(d: Device, program: set<string>, calls: seq<Call>)
    requires Disciplined(d)
    ensures Disciplined(Replay(d, program, calls).state)
    decreases |calls|
  {
    if |calls| > 0 {
      ApplyKeepsDiscipline(d, program, calls[0]);
      var r := Apply(d, program, calls[0]);
      if r.outcome == Done {
        ReplayKeepsDiscipline(r.state, program, calls[1..]);
      }
    }
  }

  /** From a fresh chromosome, any sequence of driver calls leaves a disciplined log. */
  lemma RunFromStartIsDisciplined(program: set<string>, calls: seq<Call>)
    ensures Disciplined(Replay(Initial, program, calls).state)
  {
    ReplayKeepsDiscipline(Initial, program, calls);
  }

  /** A program that has every declared kernel. */
  predicate HasAllKernels(program: set<string>) {
    forall name :: name in PopulateKernelNames() + CrossoverKernelNames() + MutationKernelNames() ==>
      name in program
  }

  /** Once the buffers are allocated and every kernel is present, no call raises. */
  lemma {:induction false} AllocatedRunNeverRaises(d: Device, program: set<string>, calls: seq<Call>)
    requires d.buffers.Some? && HasAllKernels(program)
    ensures Replay(d, program, calls).outcome == Done
    decreases |calls|
  {
    if |calls| > 0 {
      assert PopulateKernel in program && UpdateSurvivorsKernel in program;
      assert CrossoverKernel in program && MutateKernel in program;
      var r := Apply(d, program, calls[0]);
      AllocatedRunNeverRaises(r.state, program, calls[1..]);
    }
  }

  /** Crossover before any `preexecute_kernels` raises and dispatches nothing. */
  lemma CrossoverFirstRaises(program: set<string>, population: nat, probCrossover: real, rest: seq<Call>)
    requires UpdateSurvivorsKernel in program
    ensures Replay(Initial, program, [Crossover(population, probCrossover)] + rest)
         == Step(Initial, Raised(NotPreexecuted))
  {
  }
}
