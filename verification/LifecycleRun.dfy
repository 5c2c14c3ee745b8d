/**
 Lifecycle.Run as a step system (lifecycle/lifecycle.go).

 The main goroutine (`pc`) spawns one goroutine per component of a level and waits for them
 at a barrier; those goroutines, the caller's cancellation and concurrent Fatal calls may
 take their steps at any time. Every Start and Stop call and return is an event of `trace`.
 */
module LifecycleRun {
  import opened Prelude
  import opened Levels
  import opened Health
  import Lifecycle

  type Err = int

  /** A Lifecycle that passed the construction-error check, with the levels Run computed for it. */
  datatype Config = Config(after: Graph, levels: seq<seq<int>>, startedHooks: seq<Hook>, drainHooks: seq<Hook>)

  ghost predicate WellFormed(cfg: Config) { Forward(cfg.after) && cfg.levels == LevelsOf(cfg.after) }

  /** How Run begins: report the construction errors and start nothing, or compute the levels. */
  datatype Beginning = Refused(errs: seq<Lifecycle.ConstructionError>) | Begun(cfg: Config)

  method BeginRun(lc: Lifecycle.Lifecycle) returns (b: Beginning)
    requires lc.Valid()
    ensures lc.errs != [] ==> b == Refused(lc.errs)
    ensures lc.errs == [] ==>
              && b.Begun? && WellFormed(b.cfg) && b.cfg.after == Lifecycle.GraphOf(lc.comps)
              && b.cfg.startedHooks == lc.startedHooks && b.cfg.drainHooks == lc.drainHooks
    ensures lc.errs == [] ==> forall i :: 0 <= i < |lc.comps| ==> Lifecycle.Complete(lc, lc.comps[i], i)
  {
    if |lc.errs| > 0 { return Refused(lc.errs); }
    var graph := Lifecycle.GraphOf(lc.comps);
    var levels := ComputeLevels(graph);
    b := Begun(Config(graph, levels, lc.startedHooks, lc.drainHooks));
  }

  datatype Event =
    | StartCall(comp: int)
    | StartRet(comp: int, err: Option<Err>)
    | StopCall(comp: int)
    | StopRet(comp: int, err: Option<Err>)
    | FatalStored(fatal: Err)
    | FatalClosed
    | FinalLoad

  /** Where the goroutines of one component are. */
  datatype Phase =
    | Idle
    | StartSpawned
    | StartCalled
    | StartReturned(err: Option<Err>)
    | StartDone
    | StopSpawned
    | StopCalled
    | StopReturned(err: Option<Err>)
    | StopDone

  /** One leaf of the joined error Run returns; an empty sequence is a nil error. */
  datatype RunError = StartError(comp: int, err: Err) | StopError(comp: int, err: Err) | FatalError(err: Err)

  /** `todo` is the rest of the level that the spawn loop has not reached. */
  datatype Pc =
    | Starting(level: nat, todo: seq<int>)
    | UpHooks(ops: seq<GateOp>)
    | Waiting
    | DrainHooks(ops: seq<GateOp>)
    | Stopping(left: nat, todo: seq<int>)
    | Loading
    | Returned(result: seq<RunError>)

  /** fatalOnce: no call yet, the winning call before its store, between store and close, over. */
  datatype Once = NotEntered | Entered(err: Err) | Stored | Finished

  datatype State = State(
    pc: Pc,
    phase: seq<Phase>,
    started: seq<bool>,
    startErrs: seq<Option<Err>>,
    startFailure: seq<RunError>,
    stopErrs: seq<RunError>,
    levelCancelled: bool,
    ctxDone: bool,
    once: Once,
    fatalErr: Option<Err>,
    fatalClosed: bool,
    fatalCalls: seq<Err>,
    gates: Gates,
    trace: seq<Event>)

  datatype Step =
    | SpawnStart
    | CallStart(comp: int)
    | ReturnStart(comp: int, err: Option<Err>)
    | RecordStart(comp: int)
    | StartBarrier
    | RunUpOp
    | BeginWait
    | WakeCancelled
    | WakeFatal
    | RunDrainOp
    | EndDrain
    | SpawnStop
    | CallStop(comp: int)
    | ReturnStop(comp: int, err: Option<Err>)
    | RecordStop(comp: int)
    | StopBarrier
    | LoadFatal
    | CancelContext
    | EnterFatal(fatal: Err)
    | StoreFatal
    | CloseFatal

  /** The loop `for _, level := range lv`: the pc on reaching level `k`. */
  function BeginLevel(cfg: Config, k: nat): Pc
  {
    if k < |cfg.levels| then Starting(k, cfg.levels[k]) else UpHooks(FlatOps(cfg.startedHooks))
  }

  /** The reverse loop of stopStarted with `left` levels to go. */
  function BeginStopLevel(cfg: Config, left: nat): Pc
    requires left <= |cfg.levels|
  {
    if left > 0 then Stopping(left, cfg.levels[left - 1]) else Loading
  }

  function Init(cfg: Config): State
  {
    var n := |cfg.after|;
    State(BeginLevel(cfg, 0), seq(n, _ => Idle), seq(n, _ => false), seq(n, _ => None),
          [], [], false, false, NotEntered, None, false, [], NEW_GATES, [])
  }

  /** The error errors.Join makes of one level's start errors, in level order. */
  function JoinStartErrors(level: seq<int>, errs: seq<Option<Err>>): (r: seq<RunError>)
    requires forall k :: 0 <= k < |level| ==> 0 <= level[k] < |errs|
  {
    if level == [] then []
    else
      (match errs[level[0]]
       case Some(e) => [StartError(level[0], e)]
       case None => []) + JoinStartErrors(level[1..], errs)
  }

  predicate IsComp(s: State, i: int) {
    0 <= i < |s.phase| && |s.started| == |s.phase| && |s.startErrs| == |s.phase|
  }

  /** wg.Wait at the end of startLevel: no goroutine of the start wait group is left. */
  predicate StartsQuiet(s: State) {
    forall i :: 0 <= i < |s.phase| ==>
                  !s.phase[i].StartSpawned? && !s.phase[i].StartCalled? && !s.phase[i].StartReturned?
  }

  predicate StopsQuiet(s: State) {
    forall i :: 0 <= i < |s.phase| ==>
                  !s.phase[i].StopSpawned? && !s.phase[i].StopCalled? && !s.phase[i].StopReturned?
  }

  // ---- The steps, each with its guard --------------------------------------------------------

  predicate CanSpawnStart(s: State) { s.pc.Starting? && s.pc.todo != [] && IsComp(s, s.pc.todo[0]) }

  function DoSpawnStart(s: State): State
    requires CanSpawnStart(s)
  {
    s.(phase := s.phase[s.pc.todo[0] := StartSpawned], pc := Starting(s.pc.level, s.pc.todo[1..]))
  }

  predicate InPhase(s: State, i: int, ph: Phase) { IsComp(s, i) && s.phase[i] == ph }

  function DoCallStart(s: State, i: int): State
    requires InPhase(s, i, StartSpawned)
  {
    s.(phase := s.phase[i := StartCalled], trace := s.trace + [StartCall(i)])
  }

  function DoReturnStart(s: State, i: int, e: Option<Err>): State
    requires InPhase(s, i, StartCalled)
  {
    s.(phase := s.phase[i := StartReturned(e)], trace := s.trace + [StartRet(i, e)])
  }

  predicate CanRecordStart(s: State, i: int) { IsComp(s, i) && s.phase[i].StartReturned? }

  /** Write errs[n] and cancel the siblings, or set started[i]; then wg.Done. */
  function DoRecordStart(s: State, i: int): State
    requires CanRecordStart(s, i)
  {
    var e := s.phase[i].err;
    s.(phase := s.phase[i := StartDone],
       started := s.started[i := e.None?],
       startErrs := s.startErrs[i := e],
       levelCancelled := s.levelCancelled || e.Some?)
  }

  predicate CanPassStartBarrier(cfg: Config, s: State) {
    && s.pc.Starting? && s.pc.todo == [] && StartsQuiet(s)
    && s.pc.level < |cfg.levels|
    && (forall k :: 0 <= k < |cfg.levels[s.pc.level]| ==> 0 <= cfg.levels[s.pc.level][k] < |s.startErrs|)
  }

  /** wg.Wait returned: go on to the next level, or unwind when the joined error is not nil. */
  function DoStartBarrier(cfg: Config, s: State): State
    requires CanPassStartBarrier(cfg, s)
  {
    var err := JoinStartErrors(cfg.levels[s.pc.level], s.startErrs);
    if err != [] then
      s.(startFailure := err, levelCancelled := false, pc := BeginStopLevel(cfg, |cfg.levels|))
    else
      s.(levelCancelled := false, pc := BeginLevel(cfg, s.pc.level + 1))
  }

  predicate CanRunUpOp(s: State) { s.pc.UpHooks? && s.pc.ops != [] }

  function DoRunUpOp(s: State): State
    requires CanRunUpOp(s)
  {
    s.(gates := Store(s.gates, s.pc.ops[0]), pc := UpHooks(s.pc.ops[1..]))
  }

  predicate CanRunDrainOp(s: State) { s.pc.DrainHooks? && s.pc.ops != [] }

  function DoRunDrainOp(s: State): State
    requires CanRunDrainOp(s)
  {
    s.(gates := Store(s.gates, s.pc.ops[0]), pc := DrainHooks(s.pc.ops[1..]))
  }

  predicate CanSpawnStop(s: State) { s.pc.Stopping? && s.pc.todo != [] && IsComp(s, s.pc.todo[0]) }

  /** One turn of the stop loop: a component that never started is passed over. */
  function DoSpawnStop(s: State): State
    requires CanSpawnStop(s)
  {
    var i := s.pc.todo[0];
    s.(phase := if s.started[i] then s.phase[i := StopSpawned] else s.phase, pc := Stopping(s.pc.left, s.pc.todo[1..]))
  }

  function DoCallStop(s: State, i: int): State
    requires InPhase(s, i, StopSpawned)
  {
    s.(phase := s.phase[i := StopCalled], trace := s.trace + [StopCall(i)])
  }

  function DoReturnStop(s: State, i: int, e: Option<Err>): State
    requires InPhase(s, i, StopCalled)
  {
    s.(phase := s.phase[i := StopReturned(e)], trace := s.trace + [StopRet(i, e)])
  }

  predicate CanRecordStop(s: State, i: int) { IsComp(s, i) && s.phase[i].StopReturned? }

  /** Append a stop error under the mutex; then wg.Done. */
  function DoRecordStop(s: State, i: int): State
    requires CanRecordStop(s, i)
  {
    var errs := match s.phase[i].err case Some(e) => [StopError(i, e)] case None => [];
    s.(phase := s.phase[i := StopDone], stopErrs := s.stopErrs + errs)
  }

  predicate CanPassStopBarrier(cfg: Config, s: State) {
    s.pc.Stopping? && s.pc.todo == [] && StopsQuiet(s) && 0 < s.pc.left <= |cfg.levels|
  }

  function DoStopBarrier(cfg: Config, s: State): State
    requires CanPassStopBarrier(cfg, s)
  {
    s.(pc := BeginStopLevel(cfg, s.pc.left - 1))
  }

  /** The last load of fatalErr, which a failed start never reaches, and the return. */
  function DoLoadFatal(s: State): State
    requires s.pc.Loading?
  {
    if s.startFailure != [] then s.(pc := Returned(s.startFailure + s.stopErrs))
    else
      var fatal := match s.fatalErr case Some(e) => [FatalError(e)] case None => [];
      s.(pc := Returned(fatal + s.stopErrs), trace := s.trace + [FinalLoad])
  }

  /** A call of Fatal with a non-nil error reaches the Once. */
  function DoEnterFatal(s: State, e: Err): State {
    s.(once := if s.once.NotEntered? then Entered(e) else s.once, fatalCalls := s.fatalCalls + [e])
  }

  function DoStoreFatal(s: State): State
    requires s.once.Entered?
  {
    s.(once := Stored, fatalErr := Some(s.once.err), trace := s.trace + [FatalStored(s.once.err)])
  }

  function DoCloseFatal(s: State): State {
    s.(once := Finished, fatalClosed := true, trace := s.trace + [FatalClosed])
  }

  predicate Enabled(cfg: Config, s: State, t: Step) {
    match t
    case SpawnStart => CanSpawnStart(s)
    case CallStart(i) => InPhase(s, i, StartSpawned)
    case ReturnStart(i, _) => InPhase(s, i, StartCalled)
    case RecordStart(i) => CanRecordStart(s, i)
    case StartBarrier => CanPassStartBarrier(cfg, s)
    case RunUpOp => CanRunUpOp(s)
    case BeginWait => s.pc.UpHooks? && s.pc.ops == []
    case WakeCancelled => s.pc.Waiting? && s.ctxDone
    case WakeFatal => s.pc.Waiting? && s.fatalClosed
    case RunDrainOp => CanRunDrainOp(s)
    case EndDrain => s.pc.DrainHooks? && s.pc.ops == []
    case SpawnStop => CanSpawnStop(s)
    case CallStop(i) => InPhase(s, i, StopSpawned)
    case ReturnStop(i, _) => InPhase(s, i, StopCalled)
    case RecordStop(i) => CanRecordStop(s, i)
    case StopBarrier => CanPassStopBarrier(cfg, s)
    case LoadFatal => s.pc.Loading?
    case CancelContext => true
    case EnterFatal(_) => true
    case StoreFatal => s.once.Entered?
    case CloseFatal => s.once.Stored?
  }

  /** One atomic step. */
  function Next(cfg: Config, s: State, t: Step): State
    requires Enabled(cfg, s, t)
  {
    match t
    case SpawnStart => DoSpawnStart(s)
    case CallStart(i) => DoCallStart(s, i)
    case ReturnStart(i, e) => DoReturnStart(s, i, e)
    case RecordStart(i) => DoRecordStart(s, i)
    case StartBarrier => DoStartBarrier(cfg, s)
    case RunUpOp => DoRunUpOp(s)
    case BeginWait => s.(pc := Waiting)
    case WakeCancelled => s.(pc := DrainHooks(FlatOps(cfg.drainHooks)))
    case WakeFatal => s.(pc := DrainHooks(FlatOps(cfg.drainHooks)))
    case RunDrainOp => DoRunDrainOp(s)
    case EndDrain => s.(pc := BeginStopLevel(cfg, |cfg.levels|))
    case SpawnStop => DoSpawnStop(s)
    case CallStop(i) => DoCallStop(s, i)
    case ReturnStop(i, e) => DoReturnStop(s, i, e)
    case RecordStop(i) => DoRecordStop(s, i)
    case StopBarrier => DoStopBarrier(cfg, s)
    case LoadFatal => DoLoadFatal(s)
    case CancelContext => s.(ctxDone := true)
    case EnterFatal(e) => DoEnterFatal(s, e)
    case StoreFatal => DoStoreFatal(s)
    case CloseFatal => DoCloseFatal(s)
  }

  /** The state after a sequence of steps, or None when one of them is not enabled. */
  function Exec(cfg: Config, steps: seq<Step>): (s: Option<State>)
  {
    if steps == [] then Some(Init(cfg))
    else
      match Exec(cfg, steps[..|steps| - 1])
      case None => None
      case Some(s) =>
        var t := steps[|steps| - 1];
        if Enabled(cfg, s, t) then Some(Next(cfg, s, t)) else None
  }
}
