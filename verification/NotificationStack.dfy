/**
 The notification service as one system: Run of the lifecycle that buildStack wires, together with
 the HTTP handlers that submit and the delivery worker (examples/notifications/stack.go).
 */
module NotificationStack {
  import opened Prelude
  import opened Levels
  import opened Health
  import L = LifecycleRun
  import LI = LifecycleInvariant
  import LS = LifecycleSteps
  import N = Notifications
  import Lifecycle

  const CLIENT := 0
  const WORKER := 1
  const API := 2
  const ADMIN := 3

  /** The After edges: the worker after the client, both servers after the worker. */
  const EDGES: Graph := [[], [CLIENT], [WORKER], [WORKER]]

  /** The configuration that Run works with. */
  ghost predicate IsStack(cfg: L.Config) {
    && cfg.after == EDGES && L.WellFormed(cfg)
    && cfg.startedHooks == [HealthUp] && cfg.drainHooks == [HealthDrain]
  }

  /** buildStack, as far as the lifecycle sees it: gate hooks, four components, and their edges. */
  method BuildStack() returns (lc: Lifecycle.Lifecycle, health: Health)
    ensures fresh(lc) && lc.Valid() && lc.errs == []
    ensures Lifecycle.GraphOf(lc.comps) == EDGES
    ensures lc.startedHooks == [HealthUp] && lc.drainHooks == [HealthDrain]
  {
    lc := new Lifecycle.Lifecycle(0);
    health := new Health();
    lc.OnStarted(HealthUp);
    lc.OnDrain(HealthDrain);
    var clientRef := Register(lc, "provider-client", []);
    var workerRef := Register(lc, "delivery-worker", [clientRef]);
    var apiRef := Register(lc, "api", [workerRef]);
    var adminRef := Register(lc, "admin", [workerRef]);
  }

  /** An Add with both functions given and at most one dependency, which resolves. */
  method Register(lc: Lifecycle.Lifecycle, name: string, refs: seq<Lifecycle.Ref>) returns (ref: Lifecycle.Ref)
    requires lc.Valid() && lc.errs == [] && |refs| <= 1
    requires forall r :: r in refs ==> Lifecycle.Resolvable(lc, r, |lc.comps|)
    modifies lc`comps, lc`errs
    ensures lc.Valid() && lc.errs == [] && ref == Lifecycle.Ref(lc, |old(lc.comps)|)
    ensures Lifecycle.GraphOf(lc.comps)
            == old(Lifecycle.GraphOf(lc.comps)) + [if refs == [] then [] else [refs[0].i]]
  {
    if refs != [] {
      assert refs == [refs[0]];
      OneRef(lc, refs[0], |lc.comps|, name);
    }
    ref := lc.Add(name, true, true, refs, 0);
  }

  /** Run gets past the construction-error check and computes the levels of that graph. */
  method BeginStack() returns (cfg: L.Config)
    ensures IsStack(cfg) && cfg.levels == [[CLIENT], [WORKER], [API, ADMIN]]
  {
    var lc, health := BuildStack();
    var b := L.BeginRun(lc);
    cfg := b.cfg;
    StackLevels();
  }

  lemma OneRef(owner: Lifecycle.Lifecycle, r: Lifecycle.Ref, n: nat, name: string)
    requires Lifecycle.Resolvable(owner, r, n)
    ensures Lifecycle.ResolvedRefs(owner, [r], n) == [r.i] && Lifecycle.RefErrors(owner, [r], n, name) == []
  {
    assert [r][..0] == [];
  }

  datatype System = System(run: L.State, q: N.Queue)

  /** A step of Run, or a step of a handler or of the worker. */
  datatype Step = RunStep(t: L.Step) | QueueStep(u: N.Step)

  /** The API may be running handlers: it was asked to start, did not fail to, and its Shutdown has
      not reported that every handler is done. */
  ghost predicate Serving(tr: seq<L.Event>) {
    && L.StartCall(API) in tr
    && !LI.StartFailedIn(tr, API)
    && L.StopRet(API, None) !in tr
  }

  /** What the components' functions promise: worker.start never fails; a server that fails to start
      leaves no handler; Shutdown returns nil only when no handler is left; worker.stop returns nil
      only when the worker is done. */
  ghost predicate Enabled(cfg: L.Config, s: System, t: Step) {
    match t
    case RunStep(r) =>
      && L.Enabled(cfg, s.run, r)
      && (r.ReturnStart? && r.comp == WORKER ==> r.err == None && s.q.worker.NotStarted?)
      && (r.ReturnStart? && r.comp == API && r.err.Some? ==> s.q.pending == map[])
      && (r.ReturnStop? && r.comp == API && r.err == None ==> s.q.pending == map[])
      && (r.ReturnStop? && r.comp == WORKER && r.err == None ==> s.q.worker.Exited?)
    case QueueStep(u) =>
      && N.Enabled(s.q, u)
      && !u.StartWorker? && !u.Close?
      && (u.Submit? ==> Serving(s.run.trace))
  }

  /** worker.start launches the worker; worker.stop begins by closing the queue. */
  ghost function Next(cfg: L.Config, s: System, t: Step): System
    requires Enabled(cfg, s, t)
  {
    match t
    case RunStep(r) =>
      System(L.Next(cfg, s.run, r),
             if r == L.ReturnStart(WORKER, None) then N.Next(s.q, N.StartWorker)
             else if r == L.CallStop(WORKER) then N.Next(s.q, N.Close)
             else s.q)
    case QueueStep(u) => s.(q := N.Next(s.q, u))
  }

  ghost function Exec(cfg: L.Config, steps: seq<Step>): Option<System> {
    if steps == [] then Some(System(L.Init(cfg), N.NEW_QUEUE))
    else
      match Exec(cfg, steps[..|steps| - 1])
      case None => None
      case Some(s) =>
        var t := steps[|steps| - 1];
        if Enabled(cfg, s, t) then Some(Next(cfg, s, t)) else None
  }

  ghost predicate Inv(cfg: L.Config, rk: seq<int>, s: System) {
    && |rk| == |cfg.after| > API && WORKER in cfg.after[API]
    && LI.Inv(cfg, rk, s.run)
    && N.Inv(s.q)
    && Tied(s)
  }

  /** Once the worker's Stop has been called no handler is being served, unless the API's Shutdown
      gave up with an error. */
  lemma WorkerStopsAfterTheApi(cfg: L.Config, rk: seq<int>, run: L.State)
    requires |rk| == |cfg.after| > API && WORKER in cfg.after[API] && LI.Inv(cfg, rk, run)
             && L.StopCall(WORKER) in run.trace && Serving(run.trace)
    ensures LI.StopFailedIn(run.trace, API)
  {
    LS.DependentsAreSettled(cfg, rk, run, WORKER, API);
    ReturnedWithoutNil(run.trace, API);
  }

  lemma ReturnedWithoutNil(tr: seq<L.Event>, i: int)
    requires LI.StopReturnedIn(tr, i) && L.StopRet(i, None) !in tr
    ensures LI.StopFailedIn(tr, i)
  {
    var e :| L.StopRet(i, e) in tr;
    if e.Some? {
      var x := e.value;
      assert e == Some(x) && L.StopRet(i, Some(x)) in tr;
    }
  }

  /** A step of Run adds at most one event, and a component event only from its own step. */
  lemma TraceGrows(cfg: L.Config, s: L.State, r: L.Step)
    requires L.Enabled(cfg, s, r)
    ensures var tr := L.Next(cfg, s, r).trace;
            match r
            case CallStart(i) => tr == s.trace + [L.StartCall(i)]
            case ReturnStart(i, e) => tr == s.trace + [L.StartRet(i, e)]
            case CallStop(i) => tr == s.trace + [L.StopCall(i)]
            case ReturnStop(i, e) => tr == s.trace + [L.StopRet(i, e)]
            case _ => tr == s.trace || exists x :: !LS.Quiet(x) && tr == s.trace + [x]
  {
    match r
    case LoadFatal => assert !LS.Quiet(L.FinalLoad);
    case StoreFatal => assert !LS.Quiet(L.FatalStored(s.once.err));
    case CloseFatal => assert !LS.Quiet(L.FatalClosed);
    case _ =>
  }

  /** What a step of Run can do to the trace, as far as the handlers are concerned. */
  ghost predicate Effects(s: System, r: L.Step, tr: seq<L.Event>, tr': seq<L.Event>) {
    && (forall x :: x in tr ==> x in tr')
    && (Serving(tr') && !Serving(tr) ==> r == L.CallStart(API))
    && (Serving(tr) && !Serving(tr') ==> s.q.pending == map[])
    && (r == L.CallStop(WORKER) ==> L.StopCall(WORKER) in tr')
    && (L.StopRet(WORKER, None) in tr' ==> L.StopRet(WORKER, None) in tr || s.q.worker.Exited?)
  }

  lemma RunStepEffects(cfg: L.Config, s: System, r: L.Step)
    requires Enabled(cfg, s, RunStep(r))
    ensures Effects(s, r, s.run.trace, L.Next(cfg, s.run, r).trace)
  {
    TraceGrows(cfg, s.run, r);
    var tr, tr' := s.run.trace, L.Next(cfg, s.run, r).trace;
    if tr' != tr {
      EventEffects(cfg, s, r, tr'[|tr|]);
      assert tr' == tr + [tr'[|tr|]];
    }
  }

  lemma EventEffects(cfg: L.Config, s: System, r: L.Step, x: L.Event)
    requires Enabled(cfg, s, RunStep(r))
    requires match r
             case CallStart(i) => x == L.StartCall(i)
             case ReturnStart(i, e) => x == L.StartRet(i, e)
             case CallStop(i) => x == L.StopCall(i)
             case ReturnStop(i, e) => x == L.StopRet(i, e)
             case _ => !LS.Quiet(x)
    ensures Effects(s, r, s.run.trace, s.run.trace + [x])
  {}

  lemma QueueAfterRunStep(cfg: L.Config, s: System, r: L.Step)
    requires Enabled(cfg, s, RunStep(r)) && N.Inv(s.q)
    ensures var q := Next(cfg, s, RunStep(r)).q;
            && N.Inv(q) && q.pending == s.q.pending && q.panicked == s.q.panicked
            && (s.q.closed ==> q.closed) && (q.closed ==> s.q.closed || r == L.CallStop(WORKER))
            && (s.q.worker.Exited? ==> q.worker.Exited?)
  {
    if r == L.ReturnStart(WORKER, None) { N.StepOk(s.q, N.StartWorker); }
    if r == L.CallStop(WORKER) { N.StepOk(s.q, N.Close); }
  }

  lemma RunStepOk(cfg: L.Config, rk: seq<int>, s: System, r: L.Step)
    requires Inv(cfg, rk, s) && Enabled(cfg, s, RunStep(r))
    ensures Inv(cfg, rk, Next(cfg, s, RunStep(r)))
  {
    LS.StepOk(cfg, rk, s.run, r);
    RunStepEffects(cfg, s, r);
    QueueAfterRunStep(cfg, s, r);
    KeepFlags(s, Next(cfg, s, RunStep(r)), r);
  }

  /** The part of the invariant that ties the queue to the trace. */
  ghost predicate Tied(s: System) {
    && (!Serving(s.run.trace) ==> s.q.pending == map[])
    && (s.q.closed ==> L.StopCall(WORKER) in s.run.trace)
    && (s.q.panicked ==> LI.StopFailedIn(s.run.trace, API))
    && (L.StopRet(WORKER, None) in s.run.trace ==> s.q.worker.Exited?)
  }

  lemma KeepFlags(s: System, s': System, r: L.Step)
    requires Tied(s) && (forall x :: x in s.run.trace ==> x in s'.run.trace)
    requires Serving(s.run.trace) && !Serving(s'.run.trace) ==> s.q.pending == map[]
    requires r == L.CallStop(WORKER) ==> L.StopCall(WORKER) in s'.run.trace
    requires L.StopRet(WORKER, None) in s'.run.trace ==> L.StopRet(WORKER, None) in s.run.trace || s.q.worker.Exited?
    requires s'.q.pending == s.q.pending && s'.q.panicked == s.q.panicked
    requires s'.q.closed ==> s.q.closed || r == L.CallStop(WORKER)
    requires s.q.worker.Exited? ==> s'.q.worker.Exited?
    ensures Tied(s')
  {}

  lemma QueueStepOk(cfg: L.Config, rk: seq<int>, s: System, u: N.Step)
    requires Inv(cfg, rk, s) && Enabled(cfg, s, QueueStep(u))
    ensures Inv(cfg, rk, Next(cfg, s, QueueStep(u)))
  {
    N.StepOk(s.q, u);
    if u.Send? && s.q.closed { WorkerStopsAfterTheApi(cfg, rk, s.run); }
  }

  lemma {:induction false} Reachable(cfg: L.Config, rk: seq<int>, steps: seq<Step>)
    requires LI.Ranked(cfg, rk) && |cfg.after| > API && WORKER in cfg.after[API] && Exec(cfg, steps).Some?
    ensures Inv(cfg, rk, Exec(cfg, steps).value)
  {
    if steps == [] {
      LS.InitOk(cfg, rk);
    } else {
      var s, t := Exec(cfg, steps[..|steps| - 1]).value, steps[|steps| - 1];
      Reachable(cfg, rk, steps[..|steps| - 1]);
      match t
      case RunStep(r) => RunStepOk(cfg, rk, s, r);
      case QueueStep(u) => QueueStepOk(cfg, rk, s, u);
    }
  }

  lemma InvOf(cfg: L.Config, steps: seq<Step>, s: System) returns (rk: seq<int>)
    requires IsStack(cfg) && Exec(cfg, steps) == Some(s)
    ensures Inv(cfg, rk, s)
  {
    rk := LI.RanksExist(cfg);
    assert EDGES[API][0] == WORKER;
    Reachable(cfg, rk, steps);
  }

  /** In every interleaving of lifecycle, handlers and worker: items sent are the settled ones, the
      one in hand and the channel's contents in send order, and the channel stays within its bound. */
  lemma QueueIsConserved(cfg: L.Config, steps: seq<Step>, s: System)
    requires IsStack(cfg) && Exec(cfg, steps) == Some(s)
    ensures s.q.sent == s.q.finished + N.InHand(s.q) + s.q.channel
    ensures s.q.deliveries == s.q.finished + N.InHand(s.q)
    ensures |s.q.channel| <= N.CAPACITY
    ensures forall i, j :: 0 <= i < j < |s.q.sent| ==> s.q.sent[i].id != s.q.sent[j].id
  {
    var rk := InvOf(cfg, steps, s);
  }

  /** In every interleaving a settled item reads delivered or failed as its one deliver call went, and
      carries what was submitted under its id. */
  lemma StatusIsTheOutcome(cfg: L.Config, steps: seq<Step>, s: System, k: nat)
    requires IsStack(cfg) && Exec(cfg, steps) == Some(s) && k < |s.q.finished|
    ensures N.SettledAs(s.q, s.q.finished[k].id)
  {
    var rk := InvOf(cfg, steps, s);
    N.FinishedIsSettledAs(s.q, k);
  }

  /** A send on the closed channel needs an API Shutdown that gave up with an error. */
  lemma NoSendAfterClose(cfg: L.Config, steps: seq<Step>, s: System)
    requires IsStack(cfg) && Exec(cfg, steps) == Some(s) && !LI.StopFailedIn(s.run.trace, API)
    ensures !s.q.panicked
  {
    var rk := InvOf(cfg, steps, s);
  }

  /** When the worker's Stop has returned nil and the API's Shutdown did not give up, every
      notification submitted was delivered or failed, with deliver called exactly once for it, and reads
      as that call went. */
  lemma GracefulStopSettlesEverything(cfg: L.Config, steps: seq<Step>, s: System, id: nat)
    requires IsStack(cfg) && Exec(cfg, steps) == Some(s) && !LI.StopFailedIn(s.run.trace, API)
    requires L.StopRet(WORKER, None) in s.run.trace && 1 <= id <= s.q.nextID
    ensures id in s.q.items && s.q.items[id].status != N.Queued
    ensures N.HasOnce(s.q.deliveries, id) && N.SettledAs(s.q, id)
  {
    var rk := InvOf(cfg, steps, s);
    var p :| 0 <= p < |s.run.trace| && s.run.trace[p] == L.StopRet(WORKER, None);
    assert LI.Allowed(cfg.after, s.run.trace[..p], s.run.trace[p]);
    assert L.StopCall(WORKER) in s.run.trace;
    if Serving(s.run.trace) { WorkerStopsAfterTheApi(cfg, rk, s.run); }
    N.AllSettled(s.q, id);
  }

  /** A handler is between unlock and send, or one may still begin. */
  ghost predicate HandlersLeft(s: System) { s.q.pending != map[] || Serving(s.run.trace) }

  lemma ExecExtend(cfg: L.Config, steps: seq<Step>, s: System, t: Step)
    requires Exec(cfg, steps) == Some(s) && Enabled(cfg, s, t)
    ensures Exec(cfg, steps + [t]) == Some(Next(cfg, s, t))
  {
    assert (steps + [t])[..|steps|] == steps;
  }

  /** With the queue closed and a handler left, some continuation sends on the closed channel. */
  lemma LateHandlerCanPanic(cfg: L.Config, steps: seq<Step>, s: System) returns (more: seq<Step>, s': System)
    requires Exec(cfg, steps) == Some(s) && s.q.closed && HandlersLeft(s)
    ensures Exec(cfg, steps + more) == Some(s') && s'.q.panicked
  {
    if s.q.pending != map[] {
      var tid :| tid in s.q.pending;
      ExecExtend(cfg, steps, s, QueueStep(N.Send(tid)));
      more, s' := [QueueStep(N.Send(tid))], Next(cfg, s, QueueStep(N.Send(tid)));
    } else {
      var begin, send := QueueStep(N.Submit(0, "", "")), QueueStep(N.Send(0));
      var mid := Next(cfg, s, begin);
      ExecExtend(cfg, steps, s, begin);
      ExecExtend(cfg, steps + [begin], mid, send);
      more, s' := [begin, send], Next(cfg, mid, send);
      assert steps + [begin] + [send] == steps + more;
    }
  }

  lemma NoStartAfterStop(cfg: L.Config, rk: seq<int>, run: L.State, i: int, j: int)
    requires LI.Inv(cfg, rk, run) && L.StopCall(j) in run.trace
    ensures !L.InPhase(run, i, L.StartSpawned)
  {
    if L.InPhase(run, i, L.StartSpawned) { LS.StartCallAllowed(cfg, rk, run, i); }
  }

  lemma StaysQuiet(cfg: L.Config, s: System, t: Step)
    requires Enabled(cfg, s, t) && N.Inv(s.q) && s.q.closed && !s.q.panicked && !HandlersLeft(s)
    requires !L.InPhase(s.run, API, L.StartSpawned)
    ensures Next(cfg, s, t).q.closed && !Next(cfg, s, t).q.panicked && !HandlersLeft(Next(cfg, s, t))
  {
    match t
    case RunStep(r) =>
      RunStepEffects(cfg, s, r);
      QueueAfterRunStep(cfg, s, r);
      assert r != L.CallStart(API);
    case QueueStep(u) => assert !u.Submit? && !u.Send?;
  }

  lemma {:induction false} NoHandlerNoPanic(cfg: L.Config, steps: seq<Step>, s: System, more: seq<Step>, s': System)
    requires IsStack(cfg) && Exec(cfg, steps) == Some(s) && Exec(cfg, steps + more) == Some(s')
    requires s.q.closed && !s.q.panicked && !HandlersLeft(s)
    ensures s'.q.closed && !s'.q.panicked && !HandlersLeft(s')
  {
    if more == [] {
      assert steps + more == steps;
    } else {
      var all, init := steps + more, more[..|more| - 1];
      assert all[..|all| - 1] == steps + init;
      var mid := Exec(cfg, steps + init).value;
      NoHandlerNoPanic(cfg, steps, s, init, mid);
      var rk := InvOf(cfg, steps + init, mid);
      NoStartAfterStop(cfg, rk, mid.run, API, WORKER);
      StaysQuiet(cfg, mid, all[|all| - 1]);
    }
  }

  /** Closing the queue is safe exactly when no handler is left: from a state with the queue closed,
      a continuation that sends on the closed channel exists if and only if one is. */
  lemma CloseIsSafeExactly(cfg: L.Config, steps: seq<Step>, s: System)
    requires IsStack(cfg) && Exec(cfg, steps) == Some(s) && s.q.closed && !s.q.panicked
    ensures (exists more, s' :: Exec(cfg, steps + more) == Some(s') && s'.q.panicked) <==> HandlersLeft(s)
  {
    if HandlersLeft(s) {
      var more, s' := LateHandlerCanPanic(cfg, steps, s);
    } else {
      forall more, s' | Exec(cfg, steps + more) == Some(s') ensures !s'.q.panicked {
        NoHandlerNoPanic(cfg, steps, s, more, s');
      }
    }
  }

  // ---- The levels of the stack ----------------------------------------------------------------------

  lemma StackLevels()
    requires Forward(EDGES)
    ensures LevelsOf(EDGES) == [[CLIENT], [WORKER], [API, ADMIN]]
  {
    StackRanks();
    assert Depth(EDGES, 1) == 0 && Depth(EDGES, 2) == 1 && Depth(EDGES, 3) == 2 && Depth(EDGES, 4) == 2;
    forall k: nat | k < 3 ensures Members(EDGES, k, 4) == [[CLIENT], [WORKER], [API, ADMIN]][k] { StackMembers(k); }
  }

  lemma StackRanks()
    requires Forward(EDGES)
    ensures Rank(EDGES, CLIENT) == 0 && Rank(EDGES, WORKER) == 1 && Rank(EDGES, API) == 2 && Rank(EDGES, ADMIN) == 2
  {
    assert RankOver(EDGES, CLIENT, 0) == 0;
    assert RankOver(EDGES, WORKER, 0) == 0 && RankOver(EDGES, API, 0) == 0 && RankOver(EDGES, ADMIN, 0) == 0;
    assert RankOver(EDGES, WORKER, 1) == 1;
    assert RankOver(EDGES, API, 1) == 2;
    assert RankOver(EDGES, ADMIN, 1) == 2;
  }

  lemma StackMembers(k: nat)
    requires Forward(EDGES) && k < 3
    ensures Members(EDGES, k, 4) == [[CLIENT], [WORKER], [API, ADMIN]][k]
  {
    StackRanks();
    assert Members(EDGES, k, 1) == if k == 0 then [CLIENT] else [];
    assert Members(EDGES, k, 2) == Members(EDGES, k, 1) + if k == 1 then [WORKER] else [];
    assert Members(EDGES, k, 3) == Members(EDGES, k, 2) + if k == 2 then [API] else [];
    assert Members(EDGES, k, 4) == Members(EDGES, k, 3) + if k == 2 then [ADMIN] else [];
  }
}
