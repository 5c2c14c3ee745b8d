/** The three probes and the hooks that move them (httpserver/health.go). */
module Health {
  datatype GateName = StartedGate | LiveGate | ReadyGate

  /** One atomic store on a gate. */
  datatype GateOp = SetGate(gate: GateName, open: bool)

  datatype Gates = Gates(started: bool, live: bool, ready: bool)

  /** The gates as NewHealth leaves them: only Live is open. */
  const NEW_GATES := Gates(false, true, false)

  function Store(g: Gates, op: GateOp): Gates {
    match op.gate
    case StartedGate => g.(started := op.open)
    case LiveGate => g.(live := op.open)
    case ReadyGate => g.(ready := op.open)
  }

  function StoreAll(g: Gates, ops: seq<GateOp>): Gates
    decreases ops
  {
    if ops == [] then g else StoreAll(Store(g, ops[0]), ops[1..])
  }

  /** A registered lifecycle hook: one of the two probe methods, or one that leaves the probes alone. */
  datatype Hook = HealthUp | HealthDrain | OtherHook

  /** The stores a hook makes, in order. */
  function HookOps(h: Hook): seq<GateOp> {
    match h
    case HealthUp => [SetGate(StartedGate, true), SetGate(ReadyGate, true)]
    case HealthDrain => [SetGate(ReadyGate, false)]
    case OtherHook => []
  }

  function FlatOps(hooks: seq<Hook>): seq<GateOp> {
    if hooks == [] then [] else HookOps(hooks[0]) + FlatOps(hooks[1..])
  }

  /** No hook touches Live; only HealthUp opens a gate; HealthDrain closes Ready. */
  lemma {:induction false} FlatOpsEffects(hooks: seq<Hook>)
    ensures forall op :: op in FlatOps(hooks) ==> op.gate != LiveGate
    ensures HealthUp !in hooks ==> forall op :: op in FlatOps(hooks) ==> !op.open
    ensures HealthDrain in hooks ==> SetGate(ReadyGate, false) in FlatOps(hooks)
  {
    if hooks != [] {
      FlatOpsEffects(hooks[1..]);
      assert hooks == [hooks[0]] + hooks[1..];
      assert forall op :: op in HookOps(hooks[0]) ==> op.gate != LiveGate;
      if hooks[0] == HealthDrain { assert HookOps(HealthDrain)[0] in FlatOps(hooks); }
    }
  }

  lemma {:induction false} StoreAllConcat(g: Gates, a: seq<GateOp>, b: seq<GateOp>)
    ensures StoreAll(g, a + b) == StoreAll(StoreAll(g, a), b)
    decreases a
  {
    if a == [] {
      assert a + b == b;
    } else {
      StoreAllConcat(Store(g, a[0]), a[1..], b);
      assert (a + b)[1..] == a[1..] + b;
    }
  }

  lemma {:induction false} FlatOpsConcat(a: seq<Hook>, b: seq<Hook>)
    ensures FlatOps(a + b) == FlatOps(a) + FlatOps(b)
  {
    if a == [] {
      assert a + b == b;
    } else {
      var all := a + b;
      assert all[0] == a[0] && all[1..] == a[1..] + b;
      FlatOpsConcat(a[1..], b);
      assert FlatOps(all) == HookOps(a[0]) + (FlatOps(a[1..]) + FlatOps(b));
    }
  }

  /** Whether Ready is open after these hooks: the last one that is Up or Drain decides. */
  function ReadyAfter(hooks: seq<Hook>, was: bool): bool {
    if hooks == [] then was
    else
      var m := |hooks| - 1;
      match hooks[m]
      case HealthUp => true
      case HealthDrain => false
      case OtherHook => ReadyAfter(hooks[..m], was)
  }

  /** What a list of hooks makes of the gates when they run in the order of their registration. */
  lemma {:induction false} HooksInOrder(g: Gates, hooks: seq<Hook>)
    ensures StoreAll(g, FlatOps(hooks)) == Gates(g.started || HealthUp in hooks, g.live, ReadyAfter(hooks, g.ready))
  {
    if hooks != [] {
      var m := |hooks| - 1;
      var pre, last := hooks[..m], hooks[m];
      HooksInOrder(g, pre);
      assert hooks == pre + [last];
      FlatOpsConcat(pre, [last]);
      StoreAllConcat(g, FlatOps(pre), FlatOps([last]));
      OneHook(StoreAll(g, FlatOps(pre)), last);
    }
  }

  lemma OneHook(g: Gates, h: Hook)
    ensures var g' := StoreAll(g, FlatOps([h]));
            g' == Gates(g.started || h.HealthUp?, g.live, if h.OtherHook? then g.ready else h.HealthUp?)
  {
    assert FlatOps([h]) == HookOps(h) + FlatOps([]) == HookOps(h);
    match h
    case HealthUp =>
      var first, second := SetGate(StartedGate, true), SetGate(ReadyGate, true);
      assert [first, second][1..] == [second];
      assert StoreAll(Store(g, first), [second]) == Store(Store(g, first), second);
    case HealthDrain => assert StoreAll(g, [SetGate(ReadyGate, false)]) == Store(g, SetGate(ReadyGate, false));
    case OtherHook =>
  }

  datatype CheckResult = Passed | Failed

  class Gate {
    var open: bool
    var checks: seq<string>

    constructor ()
      ensures !open && checks == []
    {
      open, checks := false, [];
    }

    method Set(ok: bool)
      modifies `open
      ensures open == ok
    {
      open := ok;
    }

    /** The checks that fail, in registration order, each reported once. */
    static function FailedNames(names: seq<string>, outcome: seq<CheckResult>): (failed: seq<string>)
      requires |outcome| == |names|
      ensures failed == [] <==> forall k :: 0 <= k < |outcome| ==> outcome[k].Passed?
      ensures forall n :: n in failed <==> exists k :: 0 <= k < |names| && names[k] == n && outcome[k].Failed?
    {
      if names == [] then []
      else
        var m := |names| - 1;
        var init := FailedNames(names[..m], outcome[..m]);
        if outcome[m].Failed? then init + [names[m]] else init
    }

    /** ServeHTTP with `outcome[k]` what check `k` returns: 200 exactly when the gate is open
        and every check passes; a closed gate names no check. */
    method ServeHTTP(outcome: seq<CheckResult>) returns (status: int, failed: seq<string>)
      requires |outcome| == |checks|
      ensures status == 200 || status == 503
      ensures status == 200 <==> open && forall k :: 0 <= k < |outcome| ==> outcome[k].Passed?
      ensures failed == if open then FailedNames(checks, outcome) else []
    {
      failed := [];
      if !open { return 503, []; }
      for k := 0 to |checks|
        invariant failed == FailedNames(checks[..k], outcome[..k])
      {
        assert checks[..k + 1][..k] == checks[..k] && outcome[..k + 1][..k] == outcome[..k];
        if outcome[k].Failed? { failed := failed + [checks[k]]; }
      }
      assert checks[..|checks|] == checks && outcome[..|checks|] == outcome;
      status := if |failed| == 0 then 200 else 503;
    }
  }

  class Health {
    const started: Gate
    const live: Gate
    const ready: Gate

    ghost predicate Valid() {
      started != live && live != ready && started != ready
    }

    ghost function Value(): Gates
      reads started, live, ready
    {
      Gates(started.open, live.open, ready.open)
    }

    constructor ()
      ensures Valid() && fresh(started) && fresh(live) && fresh(ready)
      ensures Value() == NEW_GATES
    {
      started := new Gate();
      live := new Gate();
      ready := new Gate();
      new;
      live.Set(true);
    }

    method AddReadyCheck(name: string)
      requires Valid()
      modifies ready`checks
      ensures ready.checks == old(ready.checks) + [name]
    {
      ready.checks := ready.checks + [name];
    }

    /** Up and Drain make exactly the stores that LifecycleRun replays one at a time. */
    method Up()
      requires Valid()
      modifies started`open, ready`open
      ensures Value() == StoreAll(old(Value()), HookOps(HealthUp))
      ensures started.open && ready.open && live.open == old(live.open)
    {
      started.Set(true);
      ready.Set(true);
      var ops := HookOps(HealthUp);
      assert ops[1..] == [ops[1]] && ops[1..][1..] == [];
    }

    method Drain()
      requires Valid()
      modifies ready`open
      ensures Value() == StoreAll(old(Value()), HookOps(HealthDrain))
      ensures !ready.open && started.open == old(started.open) && live.open == old(live.open)
    {
      ready.Set(false);
    }
  }
}
