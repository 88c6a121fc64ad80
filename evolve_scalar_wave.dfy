/**
 * The phase logic and the compile-time selections of the scalar-wave
 * evolution executable (`EvolutionMetavars` in
 * src/Evolution/Executables/ScalarWave/EvolveScalarWave.hpp).
 *
 * The executable's compile-time constants become fields of `Config`, so
 * that both settings of each switch can be reasoned about; `SourceConfig`
 * holds the values the source fixes.
 */
module EvolveScalarWave {
  import opened Wrappers
  import opened Parallel

  // ---------------------------------------------------------------------
  // Phases
  // ---------------------------------------------------------------------

  datatype PhaseError =
    | NextPhaseOfExit       // "Should never call determine_next_phase with ... 'Exit'"
    | UnknownPhase          // the `default` branch of the switch
    | NotAnInputFilePhase   // `phase_name` of a phase other than LoadBalancing

  /** The phases an evolution passes through when no phase change is
      requested, in order. */
  const DefaultOrder: seq<Phase> :=
    [Initialization, InitializeTimeStepperHistory, RegisterWithObserver, Evolve, Exit]

  /** The phase that `VisitAndReturn` of `phase_changes` visits. */
  const PhaseChangeTarget: Phase := LoadBalancing

  /**
   * `determine_next_phase`. `arbitrated` is what phase-change arbitration
   * decided (arbitration itself reads the global cache and is a parameter
   * here). A decided phase wins; otherwise the default order is followed,
   * and Exit or a phase outside the default order is an error.
   */
  function DetermineNextPhase(arbitrated: Option<Phase>, current: Phase): (r: Result<Phase, PhaseError>)
    ensures arbitrated.Some? ==> r == Ok(arbitrated.value)
    ensures arbitrated.None? && current == Exit ==> r == Err(NextPhaseOfExit)
    ensures arbitrated.None? && current !in DefaultOrder ==> r == Err(UnknownPhase)
    ensures arbitrated.None? ==>
      forall k :: 0 <= k < |DefaultOrder| - 1 && current == DefaultOrder[k] ==> r == Ok(DefaultOrder[k + 1])
  {
    match arbitrated
    case Some(next) => Ok(next)
    case None =>
      match current
      case Initialization => Ok(InitializeTimeStepperHistory)
      case InitializeTimeStepperHistory => Ok(RegisterWithObserver)
      case RegisterWithObserver => Ok(Evolve)
      case Evolve => Ok(Exit)
      case Exit => Err(NextPhaseOfExit)
      case _ => Err(UnknownPhase)
  }

  /** The phases visited without any requested phase change, starting at
      `p`, for at most `steps` transitions; the trace stops at an error. */
  function Trace(p: Phase, steps: nat): seq<Phase>
    decreases steps
  {
    if steps == 0 then [p]
    else
      match DetermineNextPhase(None, p)
      case Ok(q) => [p] + Trace(q, steps - 1)
      case Err(_) => [p]
  }

  /** Left alone, an evolution runs through the default order once and
      stops at Exit, however many further steps are allowed. */
  lemma {:induction false} DefaultRunEndsAtExit(steps: nat)
    requires steps >= |DefaultOrder| - 1
    ensures Trace(Initialization, steps) == DefaultOrder
  {
    assert Trace(Exit, steps - 4) == [Exit];
    assert Trace(Evolve, steps - 3) == [Evolve, Exit];
    assert Trace(RegisterWithObserver, steps - 2) == [RegisterWithObserver, Evolve, Exit];
    assert Trace(InitializeTimeStepperHistory, steps - 1)
        == [InitializeTimeStepperHistory, RegisterWithObserver, Evolve, Exit];
  }

  /** Load balancing is entered only through a requested phase change:
      no phase leads to it by default. */
  lemma LoadBalancingOnlyByArbitration(current: Phase)
    ensures DetermineNextPhase(None, current) != Ok(PhaseChangeTarget)
    ensures DetermineNextPhase(Some(PhaseChangeTarget), current) == Ok(PhaseChangeTarget)
  {
  }

  /** `phase_name`: only the phase that a phase change may name in an
      input file has a name; every other phase is an error. */
  function PhaseName(phase: Phase): (r: Result<string, PhaseError>)
    ensures r.Ok? <==> phase == PhaseChangeTarget
    ensures r.Ok? ==> r.value == "LoadBalancing"
    ensures r.Err? ==> r.error == NotAnInputFilePhase
  {
    if phase == LoadBalancing then Ok("LoadBalancing") else Err(NotAnInputFilePhase)
  }

  /** The one phase with a name is exactly the one that default
      sequencing never reaches. */
  lemma NamedPhaseIsOutsideDefaultOrder(phase: Phase)
    ensures PhaseName(phase).Ok? <==> phase !in DefaultOrder
  {
  }

  // ---------------------------------------------------------------------
  // Compile-time selections
  // ---------------------------------------------------------------------

  /** The two properties of the `InitialData` template argument that the
      `static_assert` inspects. */
  datatype InitialData = InitialData(isAnalyticData: bool, isAnalyticSolution: bool)

  /** An instantiation of `EvolutionMetavars<Dim, InitialData>`, with
      `local_time_stepping` made a parameter. */
  datatype Config = Config(volumeDim: nat, localTimeStepping: bool, initialData: InitialData)

  datatype ConfigError = InitialDataNeitherOrBoth

  /** The instantiation the source compiles: local time stepping is on. */
  function SourceConfig(dim: nat, initialData: InitialData): (r: Result<Config, ConfigError>)
    ensures r.Ok? <==> initialData.isAnalyticData != initialData.isAnalyticSolution
    ensures r.Ok? ==> r.value.localTimeStepping && r.value.volumeDim == dim
  {
    if initialData.isAnalyticData != initialData.isAnalyticSolution
    then Ok(Config(dim, true, initialData))
    else Err(InitialDataNeitherOrBoth)
  }

  /** `use_filtering`. */
  function UseFiltering(cfg: Config): bool {
    cfg.volumeDim == 2
  }

  datatype TimeStepperKind = LtsTimeStepper | GlobalTimeStepper

  /** `time_stepper_tag`: the stepper type must support local time
      stepping when it is on. */
  function TimeStepperOf(cfg: Config): (r: TimeStepperKind)
    ensures r == LtsTimeStepper <==> cfg.localTimeStepping
  {
    if cfg.localTimeStepping then LtsTimeStepper else GlobalTimeStepper
  }

  /** The time stepper agrees with the rest of the configuration: step
      choosers exist only for a local-time-stepping stepper, the global
      stepper's history update and `UpdateU` appear exactly in the step
      actions of a global stepper, and every instantiation the source
      accepts uses a local-time-stepping stepper. */
  lemma TimeStepperMatchesStepping(cfg: Config)
    ensures StepChoosers(cfg) != [] ==> TimeStepperOf(cfg) == LtsTimeStepper
    ensures Act("UpdateU") in StepActions(cfg) <==> TimeStepperOf(cfg) == GlobalTimeStepper
    ensures Act("RecordTimeStepperData") in StepActions(cfg) <==> TimeStepperOf(cfg) == GlobalTimeStepper
    ensures forall dim, initialData :: SourceConfig(dim, initialData).Ok? ==>
      TimeStepperOf(SourceConfig(dim, initialData).value) == LtsTimeStepper
  {
  }

  datatype StepChooser = ByBlock | Cfl | Constant | Increase | PreventRapidIncrease | StepToTimes

  const StepChoosersCommon: seq<StepChooser> := [ByBlock, Cfl, Constant, Increase]
  const StepChoosersForStepOnly: seq<StepChooser> := [PreventRapidIncrease]
  const StepChoosersForSlabOnly: seq<StepChooser> := [StepToTimes]

  /** `step_choosers`: with local time stepping, the common choosers and the
      step-only ones; without it, none. */
  function StepChoosers(cfg: Config): (r: seq<StepChooser>)
    ensures !cfg.localTimeStepping ==> r == []
    ensures StepToTimes !in r
  {
    if cfg.localTimeStepping then StepChoosersCommon + StepChoosersForStepOnly else []
  }

  /** `slab_choosers`: the common choosers and the slab-only ones, plus the
      step-only ones when steps are not chosen separately. */
  function SlabChoosers(cfg: Config): (r: seq<StepChooser>)
    ensures StepToTimes in r
    ensures PreventRapidIncrease in r <==> !cfg.localTimeStepping
  {
    if cfg.localTimeStepping then StepChoosersCommon + StepChoosersForSlabOnly
    else StepChoosersCommon + StepChoosersForStepOnly + StepChoosersForSlabOnly
  }

  /** Whichever way time is stepped, every chooser is available to steps or
      to slabs, and the common choosers always choose slabs. */
  lemma ChoosersCoverEveryKind(cfg: Config, c: StepChooser)
    ensures c in StepChoosers(cfg) + SlabChoosers(cfg)
    ensures c in StepChoosersCommon ==> c in SlabChoosers(cfg)
  {
  }

  /** An action of the executable, by name; the aliases each action
      declares are not part of this model. */
  function Act(name: string): Action {
    Action(name, CacheAliases(None, None), None, None)
  }

  /** `step_actions`: the time derivative and the boundary corrections; then
      the history update and the solution update, unless they happen per
      element under local time stepping; then the filter in two
      dimensions. */
  function StepActions(cfg: Config): (r: seq<Action>)
    ensures |r| == 2 + (if cfg.localTimeStepping then 0 else 2) + (if UseFiltering(cfg) then 1 else 0)
    ensures r[..2] == [Act("ComputeTimeDerivative"), Act("ApplyBoundaryCorrections")]
    ensures Act("RecordTimeStepperData") in r <==> !cfg.localTimeStepping
    ensures Act("UpdateU") in r <==> !cfg.localTimeStepping
    ensures Act("Filter") in r <==> UseFiltering(cfg)
  {
    [Act("ComputeTimeDerivative"), Act("ApplyBoundaryCorrections")]
    + (if cfg.localTimeStepping then [] else [Act("RecordTimeStepperData"), Act("UpdateU")])
    + (if UseFiltering(cfg) then [Act("Filter")] else [])
  }

  /** `initialization_actions`: ten distinct actions that start by setting
      up the DataBox and end by removing the options and terminating the
      phase. */
  function InitializationActionsOf(): (r: seq<Action>)
    ensures |r| == 10
    ensures r[0].name == "SetupDataBox"
    ensures r[|r| - 1].name == "RemoveOptionsAndTerminatePhase"
    ensures forall i, j :: 0 <= i < j < |r| ==> r[i].name != r[j].name
  {
    [ Act("SetupDataBox"), Act("TimeAndTimeStep"), Act("Domain"),
      Act("NonconservativeSystem"), Act("SetVariables"), Act("TimeStepperHistory"),
      Act("InitializeConstraints"), Act("AddComputeTags"), Act("Mortars"),
      Act("RemoveOptionsAndTerminatePhase") ]
  }

  /** The phase-dependent action list of `dg_element_array`. The self-start
      procedure stands for one action. */
  function DgElementArrayPdal(cfg: Config): seq<PhaseActions> {
    [ PhaseActions(Initialization, InitializationActionsOf()),
      PhaseActions(InitializeTimeStepperHistory, [Act("SelfStartProcedure")]),
      PhaseActions(RegisterWithObserver, [Act("RegisterEventsWithObservers"), Act("TerminatePhase")]),
      PhaseActions(Evolve,
        [Act("RunEventsAndTriggers"), Act("ChangeSlabSize")] + StepActions(cfg)
        + [Act("AdvanceTime"), Act("ExecutePhaseChange")]) ]
  }

  /** The element array's initialization actions, as the parallel helpers
      extract them, are the executable's `initialization_actions`. */
  lemma ElementArrayInitializationActions(cfg: Config)
    ensures GetInitializationActionsList(DgElementArrayPdal(cfg)) == InitializationActionsOf()
  {
    var pdal := DgElementArrayPdal(cfg);
    InitializationActionsOfSingleEntry(pdal, 0);
  }

  /** Every phase the element array has actions for is a phase of the
      default order, and each appears once. */
  lemma ElementArrayPhasesAreDefaultPhases(cfg: Config)
    ensures forall i :: 0 <= i < |DgElementArrayPdal(cfg)| ==> DgElementArrayPdal(cfg)[i].phase in DefaultOrder
    ensures forall i, j :: 0 <= i < j < |DgElementArrayPdal(cfg)| ==>
      DgElementArrayPdal(cfg)[i].phase != DgElementArrayPdal(cfg)[j].phase
  {
  }

  /** Tags of the global cache. */
  const InitialDataTag: TagId := 1
  const TimeStepperTag: TagId := 2
  const EventsAndTriggersTag: TagId := 3
  const PhaseChangeAndTriggersTag: TagId := 4

  /** The element array: an array component indexed by element. */
  function DgElementArray(cfg: Config): Component {
    Component(CacheAliases(None, None), DgElementArrayPdal(cfg), Array, Some(Named("ElementId")))
  }

  /** `EvolutionMetavars` seen by the parallel helpers: its
      `const_global_cache_tags` and its `component_list`. The observer
      components' action lists are not part of this model. */
  function EvolutionMetavariables(cfg: Config): Metavariables {
    Metavariables(
      CacheAliases(Some([InitialDataTag, TimeStepperTag, EventsAndTriggersTag, PhaseChangeAndTriggersTag]), None),
      [ Component(CacheAliases(None, None), [], Group, None),
        Component(CacheAliases(None, None), [], Nodegroup, None),
        DgElementArray(cfg) ])
  }

  /** The time stepper is retrievable from the global cache, and the
      element array's proxy is indexed by element. */
  lemma EvolutionCacheAndIndex(cfg: Config, bases: TagHierarchy)
    ensures IsInGlobalCache(EvolutionMetavariables(cfg), TimeStepperTag, bases)
    ensures GetArrayIndex(DgElementArray(cfg)) == Ok(Named("ElementId"))
  {
    var m := EvolutionMetavariables(cfg);
    assert TimeStepperTag in CacheTagsOf(m.cache, Const);
    assert TimeStepperTag in GetGlobalCacheTags(m, Const);
    assert IsBaseOf(TimeStepperTag, TimeStepperTag, bases);
  }
}
