/** Each step of Run keeps the invariant, so it holds in every reachable state. */
module LifecycleSteps {
  import opened Prelude
  import opened Levels
  import opened Health
  import opened LifecycleRun
  import opened LifecycleInvariant

  // ---- One component ------------------------------------------------------------------------

  lemma CompAfterSpawnStart(rk: seq<int>, s: State, k: int)
    requires Comp(rk, s, k) && CanSpawnStart(s) && PartOfLevel(rk, s.pc.level, s.pc.todo)
    ensures Comp(rk, DoSpawnStart(s), k)
  {
    var todo := s.pc.todo;
    assert todo == [todo[0]] + todo[1..];
    assert todo[0] !in todo[1..];
  }

  lemma CompAfterSpawnStop(rk: seq<int>, s: State, k: int)
    requires Comp(rk, s, k) && CanSpawnStop(s) && PartOfLevel(rk, s.pc.left - 1, s.pc.todo)
    ensures Comp(rk, DoSpawnStop(s), k)
  {
    var todo := s.pc.todo;
    assert todo == [todo[0]] + todo[1..];
    assert todo[0] !in todo[1..];
  }

  lemma CompAfterCallStart(rk: seq<int>, s: State, i: int, k: int)
    requires Comp(rk, s, i) && Comp(rk, s, k) && InPhase(s, i, StartSpawned)
    ensures Comp(rk, DoCallStart(s, i), k)
  {}

  lemma CompAfterReturnStart(rk: seq<int>, s: State, i: int, e: Option<Err>, k: int)
    requires Comp(rk, s, i) && Comp(rk, s, k) && InPhase(s, i, StartCalled)
    ensures Comp(rk, DoReturnStart(s, i, e), k)
  {}

  lemma CompAfterRecordStart(rk: seq<int>, s: State, i: int, k: int)
    requires Comp(rk, s, i) && Comp(rk, s, k) && CanRecordStart(s, i)
    ensures Comp(rk, DoRecordStart(s, i), k)
  {}

  lemma CompAfterCallStop(rk: seq<int>, s: State, i: int, k: int)
    requires Comp(rk, s, i) && Comp(rk, s, k) && InPhase(s, i, StopSpawned)
    ensures Comp(rk, DoCallStop(s, i), k)
  {}

  lemma CompAfterReturnStop(rk: seq<int>, s: State, i: int, e: Option<Err>, k: int)
    requires Comp(rk, s, i) && Comp(rk, s, k) && InPhase(s, i, StopCalled)
    ensures Comp(rk, DoReturnStop(s, i, e), k)
  {}

  lemma CompAfterRecordStop(rk: seq<int>, s: State, i: int, k: int)
    requires Comp(rk, s, i) && Comp(rk, s, k) && CanRecordStop(s, i)
    ensures Comp(rk, DoRecordStop(s, i), k)
  {}

  lemma CompAfterStartBarrier(cfg: Config, rk: seq<int>, s: State, k: int)
    requires Ranked(cfg, rk) && Comp(rk, s, k) && CanPassStartBarrier(cfg, s)
    ensures Comp(rk, DoStartBarrier(cfg, s), k)
  {
    var errs := JoinStartErrors(cfg.levels[s.pc.level], s.startErrs);
    if errs == [] {
      LevelIsUp(cfg, rk, s, k);
      CompNextLevel(cfg, rk, s, k);
    } else {
      CompUnwinds(cfg, rk, s, k, errs);
    }
  }

  /** A level without errors is up, as are the levels below it. */
  lemma LevelIsUp(cfg: Config, rk: seq<int>, s: State, k: int)
    requires Ranked(cfg, rk) && Comp(rk, s, k) && CanPassStartBarrier(cfg, s)
    requires JoinStartErrors(cfg.levels[s.pc.level], s.startErrs) == []
    ensures rk[k] <= s.pc.level ==> s.phase[k].StartDone? && s.started[k]
    ensures s.startErrs[k] == None
  {
    var level := cfg.levels[s.pc.level];
    assert PartOfLevel(rk, s.pc.level, level);
    JoinHoldsTheErrors(level, s.startErrs);
  }

  lemma CompNextLevel(cfg: Config, rk: seq<int>, s: State, k: int)
    requires Ranked(cfg, rk) && Comp(rk, s, k) && s.pc.Starting? && s.pc.level < |cfg.levels|
    requires s.pc.todo == [] && if rk[k] <= s.pc.level then s.phase[k].StartDone? && s.started[k] else s.phase[k].Idle?
    ensures Comp(rk, s.(levelCancelled := false, pc := BeginLevel(cfg, s.pc.level + 1)), k)
  {
    assert 0 <= rk[k] < |cfg.levels| && k in cfg.levels[rk[k]];
  }

  lemma CompUnwinds(cfg: Config, rk: seq<int>, s: State, k: int, errs: seq<RunError>)
    requires Ranked(cfg, rk) && Comp(rk, s, k) && CanPassStartBarrier(cfg, s) && errs != []
    ensures Comp(rk, s.(startFailure := errs, levelCancelled := false, pc := BeginStopLevel(cfg, |cfg.levels|)), k)
  {
    assert 0 <= rk[k] < |cfg.levels| && k in cfg.levels[rk[k]];
  }

  lemma CompAfterStopBarrier(cfg: Config, rk: seq<int>, s: State, k: int)
    requires Ranked(cfg, rk) && Comp(rk, s, k) && CanPassStopBarrier(cfg, s)
    ensures Comp(rk, DoStopBarrier(cfg, s), k)
  {}

  lemma CompAfterLoadFatal(rk: seq<int>, s: State, k: int)
    requires Comp(rk, s, k) && s.pc.Loading?
    ensures Comp(rk, DoLoadFatal(s), k)
  {
    var s' := DoLoadFatal(s);
    if s.startFailure == [] { CompSeesEvent(rk, s, s.(trace := s.trace + [FinalLoad]), FinalLoad, k); }
    assert s'.pc.Returned?;
  }

  /** An event that is not about a component. */
  lemma CompSeesEvent(rk: seq<int>, s: State, s': State, e: Event, k: int)
    requires Comp(rk, s, k) && !Quiet(e) && s' == s.(trace := s.trace + [e])
    ensures Comp(rk, s', k)
  {}

  /** Steps of the main goroutine between the last start barrier and the first stop. */
  predicate MiddleStep(t: Step) {
    t.RunUpOp? || t.BeginWait? || t.WakeCancelled? || t.WakeFatal? || t.RunDrainOp? || t.EndDrain?
  }

  lemma CompAfterMiddle(cfg: Config, rk: seq<int>, s: State, t: Step, k: int)
    requires Ranked(cfg, rk) && Comp(rk, s, k) && MiddleStep(t) && Enabled(cfg, s, t)
    ensures Comp(rk, Next(cfg, s, t), k)
  {}

  predicate OutsideStep(t: Step) { t.CancelContext? || t.EnterFatal? || t.StoreFatal? || t.CloseFatal? }

  /** A step that leaves the component fields alone and adds no event about a component. */
  lemma CompFrame(rk: seq<int>, s: State, s': State, k: int)
    requires Comp(rk, s, k)
    requires s' == s.(ctxDone := s'.ctxDone, once := s'.once, fatalErr := s'.fatalErr, fatalClosed := s'.fatalClosed,
                      fatalCalls := s'.fatalCalls, trace := s'.trace)
    requires s'.trace == s.trace || exists e :: !Quiet(e) && s'.trace == s.trace + [e]
    ensures Comp(rk, s', k)
  {}

  lemma CompAfterOutside(cfg: Config, rk: seq<int>, s: State, t: Step, k: int)
    requires Comp(rk, s, k) && OutsideStep(t) && Enabled(cfg, s, t)
    ensures Comp(rk, Next(cfg, s, t), k)
  {
    match t
    case EnterFatal(e) => CompFrame(rk, s, DoEnterFatal(s, e), k);
    case StoreFatal => CompFrame(rk, s, DoStoreFatal(s), k);
    case CloseFatal => CompFrame(rk, s, DoCloseFatal(s), k);
    case CancelContext => CompFrame(rk, s, s.(ctxDone := true), k);
  }

  /** Steps of the goroutine of component `i`. */
  predicate GoroutineStep(t: Step, i: int) {
    match t
    case CallStart(k) => k == i
    case ReturnStart(k, _) => k == i
    case RecordStart(k) => k == i
    case CallStop(k) => k == i
    case ReturnStop(k, _) => k == i
    case RecordStop(k) => k == i
    case _ => false
  }

  lemma CompAfterGoroutine(cfg: Config, rk: seq<int>, s: State, t: Step, i: int, k: int)
    requires Comp(rk, s, i) && Comp(rk, s, k) && Enabled(cfg, s, t) && GoroutineStep(t, i)
    ensures Comp(rk, Next(cfg, s, t), k)
  {
    match t
    case CallStart(_) => CompAfterCallStart(rk, s, i, k);
    case ReturnStart(_, e) => CompAfterReturnStart(rk, s, i, e, k);
    case RecordStart(_) => CompAfterRecordStart(rk, s, i, k);
    case CallStop(_) => CompAfterCallStop(rk, s, i, k);
    case ReturnStop(_, e) => CompAfterReturnStop(rk, s, i, e, k);
    case RecordStop(_) => CompAfterRecordStop(rk, s, i, k);
  }

  /** Steps of the main goroutine in its two level loops, and its return. */
  predicate LoopStep(t: Step) {
    t.SpawnStart? || t.StartBarrier? || t.SpawnStop? || t.StopBarrier? || t.LoadFatal?
  }

  lemma CompAfterLoop(cfg: Config, rk: seq<int>, s: State, t: Step, k: int)
    requires Ranked(cfg, rk) && Shape(cfg, s) && PcOk(cfg, rk, s) && Comp(rk, s, k) && LoopStep(t) && Enabled(cfg, s, t)
    ensures Comp(rk, Next(cfg, s, t), k)
  {
    match t
    case SpawnStart => CompAfterSpawnStart(rk, s, k);
    case StartBarrier => CompAfterStartBarrier(cfg, rk, s, k);
    case SpawnStop => CompAfterSpawnStop(rk, s, k);
    case StopBarrier => CompAfterStopBarrier(cfg, rk, s, k);
    case LoadFatal => CompAfterLoadFatal(rk, s, k);
  }

  lemma CompAfterStep(cfg: Config, rk: seq<int>, s: State, t: Step, k: int)
    requires Ranked(cfg, rk) && Shape(cfg, s) && CompsOk(rk, s) && PcOk(cfg, rk, s) && Enabled(cfg, s, t)
             && 0 <= k < |rk|
    ensures Comp(rk, Next(cfg, s, t), k)
  {
    assert Comp(rk, s, k);
    if i :| GoroutineStep(t, i) {
      assert Comp(rk, s, i);
      CompAfterGoroutine(cfg, rk, s, t, i, k);
    } else if LoopStep(t) {
      CompAfterLoop(cfg, rk, s, t, k);
    } else if MiddleStep(t) {
      CompAfterMiddle(cfg, rk, s, t, k);
    } else {
      NotAGoroutine(t);
      CompAfterOutside(cfg, rk, s, t, k);
    }
  }

  lemma NotAGoroutine(t: Step)
    requires forall i :: !GoroutineStep(t, i)
    ensures LoopStep(t) || MiddleStep(t) || OutsideStep(t)
  {
    match t
    case CallStart(i) => assert GoroutineStep(t, i);
    case ReturnStart(i, _) => assert GoroutineStep(t, i);
    case RecordStart(i) => assert GoroutineStep(t, i);
    case CallStop(i) => assert GoroutineStep(t, i);
    case ReturnStop(i, _) => assert GoroutineStep(t, i);
    case RecordStop(i) => assert GoroutineStep(t, i);
    case _ =>
  }

  // ---- The main goroutine -------------------------------------------------------------------

  lemma PcAfterRecordStart(cfg: Config, rk: seq<int>, s: State, i: int)
    requires Shape(cfg, s) && |rk| == |cfg.after| && PcOk(cfg, rk, s) && Comp(rk, s, i) && CanRecordStart(s, i)
    ensures PcOk(cfg, rk, DoRecordStart(s, i))
  {
    var s' := DoRecordStart(s, i);
    assert s.startErrs[i] == None;
    assert forall j :: 0 <= j < |s.startErrs| && j != i ==> s'.startErrs[j] == s.startErrs[j];
    assert s'.startErrs[i] == s.phase[i].err;
  }

  lemma PcAfterStartBarrier(cfg: Config, rk: seq<int>, s: State)
    requires Ranked(cfg, rk) && Shape(cfg, s) && PcOk(cfg, rk, s) && CompsOk(rk, s) && CanPassStartBarrier(cfg, s)
    ensures PcOk(cfg, rk, DoStartBarrier(cfg, s))
  {
    var level := cfg.levels[s.pc.level];
    assert PartOfLevel(rk, s.pc.level, level);
    JoinHoldsTheErrors(level, s.startErrs);
    ErrorsAreJoined(cfg, rk, s);
    if JoinStartErrors(level, s.startErrs) == [] {
      forall i | 0 <= i < |s.startErrs| ensures s.startErrs[i] == None {
        assert Comp(rk, s, i);
        LevelIsUp(cfg, rk, s, i);
      }
      PcAtNextLevel(cfg, rk, s);
    } else {
      PcUnwinds(cfg, rk, s, JoinStartErrors(level, s.startErrs));
    }
  }

  /** Start errors recorded so far are all of the level that the barrier joins. */
  lemma ErrorsAreJoined(cfg: Config, rk: seq<int>, s: State)
    requires Ranked(cfg, rk) && Shape(cfg, s) && CompsOk(rk, s) && CanPassStartBarrier(cfg, s)
    ensures forall i :: 0 <= i < |s.startErrs| && s.startErrs[i].Some? ==>
                          StartError(i, s.startErrs[i].value) in JoinStartErrors(cfg.levels[s.pc.level], s.startErrs)
  {
    var level := cfg.levels[s.pc.level];
    assert PartOfLevel(rk, s.pc.level, level);
    JoinHoldsTheErrors(level, s.startErrs);
    forall i | 0 <= i < |s.startErrs| && s.startErrs[i].Some?
      ensures StartError(i, s.startErrs[i].value) in JoinStartErrors(level, s.startErrs)
    {
      assert Comp(rk, s, i);
    }
  }

  lemma PcAtNextLevel(cfg: Config, rk: seq<int>, s: State)
    requires Ranked(cfg, rk) && Shape(cfg, s) && PcOk(cfg, rk, s) && s.pc.Starting?
    requires forall i :: 0 <= i < |s.startErrs| ==> s.startErrs[i] == None
    ensures PcOk(cfg, rk, s.(levelCancelled := false, pc := BeginLevel(cfg, s.pc.level + 1)))
  {}

  lemma PcUnwinds(cfg: Config, rk: seq<int>, s: State, errs: seq<RunError>)
    requires Ranked(cfg, rk) && Shape(cfg, s) && PcOk(cfg, rk, s) && s.pc.Starting? && Distinct(errs)
    requires forall r :: r in errs <==>
                           r.StartError? && 0 <= r.comp < |s.startErrs| && s.startErrs[r.comp] == Some(r.err)
    ensures PcOk(cfg, rk, s.(startFailure := errs, levelCancelled := false, pc := BeginStopLevel(cfg, |cfg.levels|)))
  {}

  lemma PcAfterRecordStop(cfg: Config, rk: seq<int>, s: State, i: int)
    requires Shape(cfg, s) && |rk| == |cfg.after| && PcOk(cfg, rk, s) && Comp(rk, s, i) && CanRecordStop(s, i)
    ensures PcOk(cfg, rk, DoRecordStop(s, i))
  {
    assert forall k :: 0 <= k < |s.stopErrs| ==> s.stopErrs[k] in s.stopErrs;
  }

  /** Steps that record nothing and leave the main goroutine outside the two level loops, or where it is. */
  lemma PcFrame(cfg: Config, rk: seq<int>, s: State, s': State)
    requires Shape(cfg, s) && Shape(cfg, s') && |rk| == |cfg.after| && PcOk(cfg, rk, s)
    requires s'.startErrs == s.startErrs && s'.startFailure == s.startFailure && s'.stopErrs == s.stopErrs
    requires s'.levelCancelled == s.levelCancelled
    requires s'.pc == s.pc || (s.pc.Loading? && s'.pc.Returned?)
             || (MiddlePc(s.pc) && MiddlePc(s'.pc))
    ensures PcOk(cfg, rk, s')
  {}

  predicate MiddlePc(pc: Pc) { pc.UpHooks? || pc.Waiting? || pc.DrainHooks? }

  lemma PcAfterSpawn(cfg: Config, rk: seq<int>, s: State)
    requires Shape(cfg, s) && |rk| == |cfg.after| && PcOk(cfg, rk, s)
    ensures CanSpawnStart(s) ==> PcOk(cfg, rk, DoSpawnStart(s))
    ensures CanSpawnStop(s) ==> PcOk(cfg, rk, DoSpawnStop(s))
  {}

  lemma PcStops(cfg: Config, rk: seq<int>, s: State, left: nat)
    requires Ranked(cfg, rk) && Shape(cfg, s) && PcOk(cfg, rk, s) && !s.pc.Starting? && left <= |cfg.levels|
    ensures PcOk(cfg, rk, s.(pc := BeginStopLevel(cfg, left)))
  {
    if left > 0 { assert PartOfLevel(rk, left - 1, cfg.levels[left - 1]); }
  }

  /** Steps that record no result and stay out of the two level loops. */
  predicate PlainStep(t: Step) {
    (MiddleStep(t) && !t.EndDrain?) || OutsideStep(t) || t.LoadFatal?
    || t.CallStart? || t.ReturnStart? || t.CallStop? || t.ReturnStop?
  }

  lemma ShapeAfterGoroutine(cfg: Config, s: State, t: Step, i: int)
    requires Shape(cfg, s) && Enabled(cfg, s, t) && GoroutineStep(t, i)
    ensures Shape(cfg, Next(cfg, s, t))
  {}

  lemma ShapeAfterOther(cfg: Config, s: State, t: Step)
    requires Shape(cfg, s) && Enabled(cfg, s, t) && (LoopStep(t) || MiddleStep(t) || OutsideStep(t))
    ensures Shape(cfg, Next(cfg, s, t))
  {}

  lemma ShapeStays(cfg: Config, s: State, t: Step)
    requires Shape(cfg, s) && Enabled(cfg, s, t)
    ensures Shape(cfg, Next(cfg, s, t))
  {
    if i :| GoroutineStep(t, i) {
      ShapeAfterGoroutine(cfg, s, t, i);
    } else {
      NotAGoroutine(t);
      ShapeAfterOther(cfg, s, t);
    }
  }

  ghost predicate RecordsNothing(s: State, s': State) {
    && s'.startErrs == s.startErrs && s'.startFailure == s.startFailure && s'.stopErrs == s.stopErrs
    && s'.levelCancelled == s.levelCancelled && |s'.phase| == |s.phase| && s'.started == s.started
    && (s'.pc == s.pc || (s.pc.Loading? && s'.pc.Returned?) || (MiddlePc(s.pc) && MiddlePc(s'.pc)))
  }

  lemma MainRecordsNothing(cfg: Config, s: State, t: Step)
    requires Enabled(cfg, s, t) && ((MiddleStep(t) && !t.EndDrain?) || t.LoadFatal?)
    ensures RecordsNothing(s, Next(cfg, s, t))
  {}

  lemma CallsRecordNothing(cfg: Config, s: State, t: Step)
    requires Enabled(cfg, s, t) && (t.CallStart? || t.ReturnStart? || t.CallStop? || t.ReturnStop?)
    ensures RecordsNothing(s, Next(cfg, s, t))
  {}

  lemma OutsideRecordsNothing(cfg: Config, s: State, t: Step)
    requires Enabled(cfg, s, t) && OutsideStep(t)
    ensures RecordsNothing(s, Next(cfg, s, t))
  {}

  lemma PcAfterLoop(cfg: Config, rk: seq<int>, s: State, t: Step)
    requires Ranked(cfg, rk) && Shape(cfg, s) && PcOk(cfg, rk, s) && CompsOk(rk, s) && Enabled(cfg, s, t)
    requires (LoopStep(t) && !t.LoadFatal?) || t.EndDrain?
    ensures PcOk(cfg, rk, Next(cfg, s, t))
  {
    match t
    case SpawnStart => PcAfterSpawn(cfg, rk, s);
    case StartBarrier => PcAfterStartBarrier(cfg, rk, s);
    case SpawnStop => PcAfterSpawn(cfg, rk, s);
    case EndDrain => PcStops(cfg, rk, s, |cfg.levels|);
    case StopBarrier => PcStops(cfg, rk, s, s.pc.left - 1);
  }

  lemma PcAfterPlain(cfg: Config, rk: seq<int>, s: State, t: Step)
    requires Shape(cfg, s) && |rk| == |cfg.after| && PcOk(cfg, rk, s) && Enabled(cfg, s, t) && PlainStep(t)
    ensures PcOk(cfg, rk, Next(cfg, s, t))
  {
    ShapeStays(cfg, s, t);
    if MiddleStep(t) || t.LoadFatal? { MainRecordsNothing(cfg, s, t); }
    else if OutsideStep(t) { OutsideRecordsNothing(cfg, s, t); }
    else { CallsRecordNothing(cfg, s, t); }
    PcFrame(cfg, rk, s, Next(cfg, s, t));
  }

  lemma PcAfterRecord(cfg: Config, rk: seq<int>, s: State, t: Step)
    requires Shape(cfg, s) && |rk| == |cfg.after| && PcOk(cfg, rk, s) && CompsOk(rk, s) && Enabled(cfg, s, t)
    requires t.RecordStart? || t.RecordStop?
    ensures PcOk(cfg, rk, Next(cfg, s, t))
  {
    assert Comp(rk, s, t.comp);
    if t.RecordStart? { PcAfterRecordStart(cfg, rk, s, t.comp); } else { PcAfterRecordStop(cfg, rk, s, t.comp); }
  }

  lemma PcAfterStep(cfg: Config, rk: seq<int>, s: State, t: Step)
    requires Ranked(cfg, rk) && Shape(cfg, s) && PcOk(cfg, rk, s) && CompsOk(rk, s) && Enabled(cfg, s, t)
    ensures Shape(cfg, Next(cfg, s, t)) && PcOk(cfg, rk, Next(cfg, s, t))
  {
    ShapeStays(cfg, s, t);
    if t.RecordStart? || t.RecordStop? {
      PcAfterRecord(cfg, rk, s, t);
    } else if PlainStep(t) {
      PcAfterPlain(cfg, rk, s, t);
    } else {
      PcAfterLoop(cfg, rk, s, t);
    }
  }

  // ---- Fatal ------------------------------------------------------------------------------

  predicate Quiet(e: Event) { !e.FatalStored? && !e.FatalClosed? && !e.FinalLoad? }

  /** Starting, stopping and waiting touch nothing that FatalOk speaks about. */
  lemma FatalFrame(s: State, s': State)
    requires FatalOk(s) && !s.pc.Returned? && !s'.pc.Returned?
    requires s' == s.(pc := s'.pc, phase := s'.phase, started := s'.started, startErrs := s'.startErrs,
                      startFailure := s'.startFailure, stopErrs := s'.stopErrs, levelCancelled := s'.levelCancelled,
                      gates := s'.gates, trace := s'.trace)
    requires s'.trace == s.trace || exists e :: Quiet(e) && s'.trace == s.trace + [e]
    ensures FatalOk(s')
  {
    if s'.trace != s.trace {
      var e :| Quiet(e) && s'.trace == s.trace + [e];
      FatalSeenAppend(s.trace, e);
    }
  }

  lemma FatalAfterLoad(s: State)
    requires FatalOk(s) && s.pc.Loading?
    ensures FatalOk(DoLoadFatal(s))
  {
    FatalSeenAppend(s.trace, FinalLoad);
  }

  lemma FatalAfterEnter(s: State, e: Err)
    requires FatalOk(s)
    ensures FatalOk(DoEnterFatal(s, e))
  {}

  lemma FatalAfterStore(s: State)
    requires FatalOk(s) && s.once.Entered?
    ensures FatalOk(DoStoreFatal(s))
  {
    FatalSeenAppend(s.trace, FatalStored(s.once.err));
  }

  lemma FatalAfterClose(s: State)
    requires FatalOk(s) && s.once.Stored?
    ensures FatalOk(DoCloseFatal(s))
  {
    FatalSeenAppend(s.trace, FatalClosed);
  }

  lemma FatalAfterGoroutine(cfg: Config, rk: seq<int>, s: State, t: Step, i: int)
    requires FatalOk(s) && Enabled(cfg, s, t) && GoroutineStep(t, i) && Comp(rk, s, i)
    ensures FatalOk(Next(cfg, s, t))
  {
    match t
    case CallStart(_) => assert Quiet(StartCall(i)); FatalFrame(s, DoCallStart(s, i));
    case ReturnStart(_, e) => assert Quiet(StartRet(i, e)); FatalFrame(s, DoReturnStart(s, i, e));
    case RecordStart(_) => FatalFrame(s, DoRecordStart(s, i));
    case CallStop(_) => assert Quiet(StopCall(i)); FatalFrame(s, DoCallStop(s, i));
    case ReturnStop(_, e) => assert Quiet(StopRet(i, e)); FatalFrame(s, DoReturnStop(s, i, e));
    case RecordStop(_) => FatalFrame(s, DoRecordStop(s, i));
  }

  lemma FatalAfterOutside(cfg: Config, s: State, t: Step)
    requires FatalOk(s) && OutsideStep(t) && Enabled(cfg, s, t)
    ensures FatalOk(Next(cfg, s, t))
  {
    match t
    case EnterFatal(e) => FatalAfterEnter(s, e);
    case StoreFatal => FatalAfterStore(s);
    case CloseFatal => FatalAfterClose(s);
    case CancelContext =>
  }

  lemma FatalAfterMiddle(cfg: Config, s: State, t: Step)
    requires FatalOk(s) && MiddleStep(t) && Enabled(cfg, s, t)
    ensures FatalOk(Next(cfg, s, t))
  {
    FatalFrame(s, Next(cfg, s, t));
  }

  lemma FatalAfterLoop(cfg: Config, s: State, t: Step)
    requires FatalOk(s) && LoopStep(t) && Enabled(cfg, s, t)
    ensures FatalOk(Next(cfg, s, t))
  {
    if t.LoadFatal? { FatalAfterLoad(s); } else { FatalFrame(s, Next(cfg, s, t)); }
  }

  lemma FatalAfterStep(cfg: Config, rk: seq<int>, s: State, t: Step)
    requires FatalOk(s) && CompsOk(rk, s) && |s.phase| == |rk| && Enabled(cfg, s, t)
    ensures FatalOk(Next(cfg, s, t))
  {
    if i :| GoroutineStep(t, i) {
      assert Comp(rk, s, i);
      FatalAfterGoroutine(cfg, rk, s, t, i);
    } else if OutsideStep(t) {
      FatalAfterOutside(cfg, s, t);
    } else if MiddleStep(t) {
      FatalAfterMiddle(cfg, s, t);
    } else {
      NotAGoroutine(t);
      FatalAfterLoop(cfg, s, t);
    }
  }

  // ---- Gates ------------------------------------------------------------------------------

  lemma GatesAfterDrainOp(cfg: Config, s: State)
    requires GatesOk(cfg, s) && s.startFailure == [] && CanRunDrainOp(s)
    ensures GatesOk(cfg, DoRunDrainOp(s))
  {
    var ops := s.pc.ops;
    assert ops == [ops[0]] + ops[1..];
  }

  lemma GatesAfterBarrier(cfg: Config, s: State)
    requires GatesOk(cfg, s)
    ensures CanPassStartBarrier(cfg, s) ==> GatesOk(cfg, DoStartBarrier(cfg, s))
    ensures CanPassStopBarrier(cfg, s) ==> GatesOk(cfg, DoStopBarrier(cfg, s))
  {
    FlatOpsEffects(cfg.startedHooks);
    if CanPassStartBarrier(cfg, s) { assert GatesOk(cfg, DoStartBarrier(cfg, s)); }
  }

  lemma GatesAfterMiddle(cfg: Config, s: State, t: Step)
    requires GatesOk(cfg, s) && s.startFailure == [] && MiddleStep(t) && !t.RunDrainOp? && Enabled(cfg, s, t)
    ensures GatesOk(cfg, Next(cfg, s, t))
  {
    FlatOpsEffects(cfg.drainHooks);
    if t.RunUpOp? { assert forall op :: op in s.pc.ops[1..] ==> op in s.pc.ops; }
  }

  /** A step that neither stores in a gate nor moves the main goroutine to another stage. */
  lemma GatesFrame(cfg: Config, s: State, s': State)
    requires GatesOk(cfg, s) && s'.gates == s.gates && s'.startFailure == s.startFailure
    requires s'.pc == s.pc || (s.pc.Starting? && s'.pc.Starting?) || (s.pc.Stopping? && s'.pc.Stopping?)
             || (s.pc.Loading? && s'.pc.Returned?)
    ensures GatesOk(cfg, s')
  {}

  lemma GatesAfterStep(cfg: Config, rk: seq<int>, s: State, t: Step)
    requires Inv(cfg, rk, s) && Enabled(cfg, s, t)
    ensures GatesOk(cfg, Next(cfg, s, t))
  {
    if t.RunDrainOp? { GatesAfterDrainOp(cfg, s); }
    else if MiddleStep(t) { GatesAfterMiddle(cfg, s, t); }
    else if t.StartBarrier? || t.StopBarrier? { GatesAfterBarrier(cfg, s); }
    else { GatesFrame(cfg, s, Next(cfg, s, t)); }
  }

  // ---- The trace ----------------------------------------------------------------------------

  /** Events of a safe trace are about components of the graph. */
  lemma CalledIsComponent(after: Graph, tr: seq<Event>, i: int)
    requires Safe(after, tr) && StartCall(i) in tr
    ensures 0 <= i < |after|
  {
    var p :| 0 <= p < |tr| && tr[p] == StartCall(i);
    assert Allowed(after, tr[..p], tr[p]);
  }

  lemma ReturnedIsComponent(after: Graph, tr: seq<Event>, i: int, e: Option<Err>)
    requires Safe(after, tr) && StartRet(i, e) in tr
    ensures StartCall(i) in tr && 0 <= i < |after|
  {
    var p :| 0 <= p < |tr| && tr[p] == StartRet(i, e);
    assert Allowed(after, tr[..p], tr[p]);
    CalledIsComponent(after, tr, i);
  }

  lemma StoppedIsComponent(after: Graph, tr: seq<Event>, i: int)
    requires Safe(after, tr) && StopCall(i) in tr
    ensures StartRet(i, None) in tr && StartCall(i) in tr && 0 <= i < |after|
  {
    var p :| 0 <= p < |tr| && tr[p] == StopCall(i);
    assert Allowed(after, tr[..p], tr[p]);
    ReturnedIsComponent(after, tr, i, None);
  }

  lemma StartCallAllowed(cfg: Config, rk: seq<int>, s: State, i: int)
    requires Inv(cfg, rk, s) && InPhase(s, i, StartSpawned)
    ensures Allowed(cfg.after, s.trace, StartCall(i))
  {
    assert Comp(rk, s, i);
    forall j ensures StopCall(j) !in s.trace {
      assert 0 <= j < |rk| ==> Comp(rk, s, j);
      if StopCall(j) in s.trace { StoppedIsComponent(cfg.after, s.trace, j); }
    }
    forall d | d in cfg.after[i] ensures StartRet(d, None) in s.trace {
      assert 0 <= d < |rk| && rk[d] < rk[i] by { assert d in cfg.after[i]; }
      assert Comp(rk, s, d);
    }
  }

  lemma StopCallAllowed(cfg: Config, rk: seq<int>, s: State, i: int)
    requires Inv(cfg, rk, s) && InPhase(s, i, StopSpawned)
    ensures Allowed(cfg.after, s.trace, StopCall(i))
  {
    assert Comp(rk, s, i);
    forall j | StartCall(j) in s.trace ensures StartReturnedIn(s.trace, j) {
      var p :| 0 <= p < |s.trace| && s.trace[p] == StartCall(j);
      assert Allowed(cfg.after, s.trace[..p], s.trace[p]);
      assert Comp(rk, s, j);
      assert StartRet(j, s.startErrs[j]) in s.trace;
    }
    forall j | 0 <= j < |cfg.after| && i in cfg.after[j] && StartRet(j, None) in s.trace
      ensures StopReturnedIn(s.trace, j)
    {
      assert rk[i] < rk[j];
      assert Comp(rk, s, j);
    }
  }

  lemma FinalLoadAllowed(cfg: Config, rk: seq<int>, s: State)
    requires Inv(cfg, rk, s) && s.pc.Loading? && s.startFailure == []
    ensures Allowed(cfg.after, s.trace, FinalLoad)
  {
    forall i | 0 <= i < |cfg.after| ensures StartRet(i, None) in s.trace && StopReturnedIn(s.trace, i) {
      assert Comp(rk, s, i);
    }
  }

  lemma SafeAfterGoroutine(cfg: Config, rk: seq<int>, s: State, t: Step, i: int)
    requires Inv(cfg, rk, s) && Comp(rk, s, i) && Enabled(cfg, s, t) && GoroutineStep(t, i)
    ensures Safe(cfg.after, Next(cfg, s, t).trace)
  {
    match t
    case CallStart(_) =>
      StartCallAllowed(cfg, rk, s, i);
      SafeExtend(cfg.after, s.trace, StartCall(i));
    case ReturnStart(_, e) => SafeExtend(cfg.after, s.trace, StartRet(i, e));
    case RecordStart(_) =>
    case CallStop(_) =>
      StopCallAllowed(cfg, rk, s, i);
      SafeExtend(cfg.after, s.trace, StopCall(i));
    case ReturnStop(_, e) => SafeExtend(cfg.after, s.trace, StopRet(i, e));
    case RecordStop(_) =>
  }

  lemma SafeAfterOutside(cfg: Config, s: State, t: Step)
    requires Safe(cfg.after, s.trace) && FatalOk(s) && OutsideStep(t) && Enabled(cfg, s, t)
    ensures Safe(cfg.after, Next(cfg, s, t).trace)
  {
    match t
    case StoreFatal => SafeExtend(cfg.after, s.trace, FatalStored(s.once.err));
    case CloseFatal =>
      assert FatalStored(s.fatalErr.value) in s.trace;
      SafeExtend(cfg.after, s.trace, FatalClosed);
    case _ =>
  }

  lemma SafeAfterStep(cfg: Config, rk: seq<int>, s: State, t: Step)
    requires Inv(cfg, rk, s) && Enabled(cfg, s, t)
    ensures Safe(cfg.after, Next(cfg, s, t).trace)
  {
    if i :| GoroutineStep(t, i) {
      assert Comp(rk, s, i);
      SafeAfterGoroutine(cfg, rk, s, t, i);
    } else if OutsideStep(t) {
      SafeAfterOutside(cfg, s, t);
    } else if t.LoadFatal? && s.startFailure == [] {
      FinalLoadAllowed(cfg, rk, s);
      SafeExtend(cfg.after, s.trace, FinalLoad);
    } else {
      NotAGoroutine(t);
      TraceStays(cfg, s, t);
    }
  }

  lemma TraceStays(cfg: Config, s: State, t: Step)
    requires Enabled(cfg, s, t) && (MiddleStep(t) || LoopStep(t)) && (t.LoadFatal? ==> s.startFailure != [])
    ensures Next(cfg, s, t).trace == s.trace
  {}

  // ---- All of it ----------------------------------------------------------------------------

  lemma InitOk(cfg: Config, rk: seq<int>)
    requires Ranked(cfg, rk)
    ensures Inv(cfg, rk, Init(cfg))
  {
    FlatOpsEffects(cfg.startedHooks);
    var s := Init(cfg);
    forall i | 0 <= i < |rk| ensures Comp(rk, s, i) {}
  }

  lemma StepOk(cfg: Config, rk: seq<int>, s: State, t: Step)
    requires Inv(cfg, rk, s) && Enabled(cfg, s, t)
    ensures Inv(cfg, rk, Next(cfg, s, t))
  {
    var s' := Next(cfg, s, t);
    forall k | 0 <= k < |rk| ensures Comp(rk, s', k) { CompAfterStep(cfg, rk, s, t, k); }
    assert CompsOk(rk, s');
    PcAfterStep(cfg, rk, s, t);
    FatalAfterStep(cfg, rk, s, t);
    GatesAfterStep(cfg, rk, s, t);
    SafeAfterStep(cfg, rk, s, t);
  }

  lemma {:induction false} Reachable(cfg: Config, rk: seq<int>, steps: seq<Step>)
    requires Ranked(cfg, rk) && Exec(cfg, steps).Some?
    ensures Inv(cfg, rk, Exec(cfg, steps).value)
  {
    if steps == [] {
      InitOk(cfg, rk);
    } else {
      Reachable(cfg, rk, steps[..|steps| - 1]);
      StepOk(cfg, rk, Exec(cfg, steps[..|steps| - 1]).value, steps[|steps| - 1]);
    }
  }

  /** The main goroutine has begun the drain. */
  predicate Draining(pc: Pc) { pc.DrainHooks? || pc.Stopping? || pc.Loading? || pc.Returned? }

  lemma DrainStaysClosed(cfg: Config, s: State, t: Step)
    requires ProbesWired(cfg) && GatesOk(cfg, s) && Enabled(cfg, s, t) && Draining(s.pc) && !s.gates.ready
    ensures Draining(Next(cfg, s, t).pc) && !Next(cfg, s, t).gates.ready
  {
    if t.RunDrainOp? { assert s.pc.ops[0] in s.pc.ops; }
  }

  lemma SettledByLevel(rk: seq<int>, s: State, i: int, j: int)
    requires Comp(rk, s, i) && Comp(rk, s, j) && rk[i] < rk[j]
    requires StopCall(i) in s.trace && StartCall(j) in s.trace
    ensures if s.started[j] then s.phase[j].StopDone? else s.phase[j].StartDone? && s.startErrs[j].Some?
  {}

  /** Once Stop of `i` has been called, each dependent `j` whose Start was called either failed to
      start or has had its Stop return. */
  lemma DependentsAreSettled(cfg: Config, rk: seq<int>, s: State, i: int, j: int)
    requires Inv(cfg, rk, s) && StopCall(i) in s.trace && 0 <= j < |rk| && i in cfg.after[j] && StartCall(j) in s.trace
    ensures StartFailedIn(s.trace, j) || StopReturnedIn(s.trace, j)
  {
    StoppedIsComponent(cfg.after, s.trace, i);
    assert Comp(rk, s, i) && Comp(rk, s, j);
    SettledByLevel(rk, s, i, j);
    OutcomeSeen(rk, s, j);
  }

  lemma OutcomeSeen(rk: seq<int>, s: State, j: int)
    requires Comp(rk, s, j)
    ensures s.phase[j].StopDone? ==> StopReturnedIn(s.trace, j)
    ensures s.phase[j].StartDone? && s.startErrs[j].Some? ==> StartFailedIn(s.trace, j)
  {
    if s.phase[j].StartDone? && s.startErrs[j].Some? {
      var e := s.startErrs[j].value;
      assert StartOutcome(s, j) == Some(Some(e));
      assert StartRet(j, Some(e)) in s.trace;
    }
  }
}
