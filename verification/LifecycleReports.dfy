/** The order of the errors that Run joins (lifecycle/lifecycle.go). */
module LifecycleReports {
  import opened Prelude
  import opened Levels
  import opened LifecycleRun
  import opened LifecycleInvariant
  import opened LifecycleSteps
  import opened LifecycleTheorems

  ghost predicate Ascending(errs: seq<RunError>) {
    forall a, b :: 0 <= a < b < |errs| && errs[a].StartError? && errs[b].StartError? ==> errs[a].comp < errs[b].comp
  }

  /** Stop errors come level by level, the last level first. */
  ghost predicate LevelsDescend(rk: seq<int>, errs: seq<RunError>) {
    && (forall a :: 0 <= a < |errs| && errs[a].StopError? ==> 0 <= errs[a].comp < |rk|)
    && (forall a, b :: 0 <= a < b < |errs| && errs[a].StopError? && errs[b].StopError? ==>
                         rk[errs[a].comp] >= rk[errs[b].comp])
  }

  ghost predicate InOrder(rk: seq<int>, s: State) {
    && Ascending(s.startFailure) && LevelsDescend(rk, s.stopErrs)
    && (forall r :: r in s.stopErrs ==> r.StopError? && r.comp < |s.phase| && s.phase[r.comp].StopDone?)
  }

  lemma {:induction false} JoinAscends(level: seq<int>, errs: seq<Option<Err>>)
    requires forall k :: 0 <= k < |level| ==> 0 <= level[k] < |errs|
    requires forall a, b :: 0 <= a < b < |level| ==> level[a] < level[b]
    ensures Ascending(JoinStartErrors(level, errs))
    ensures forall r :: r in JoinStartErrors(level, errs) ==> r.StartError? && r.comp in level
  {
    if level != [] {
      var rest := level[1..];
      JoinAscends(rest, errs);
      var head, tail := StartErrorOf(level[0], errs[level[0]]), JoinStartErrors(rest, errs);
      assert JoinStartErrors(level, errs) == head + tail;
      assert forall k :: 0 <= k < |tail| ==> tail[k] in tail;
      assert level == [level[0]] + rest;
    }
  }

  lemma OrderAfterBarrier(cfg: Config, rk: seq<int>, s: State)
    requires WellFormed(cfg) && CanPassStartBarrier(cfg, s) && InOrder(rk, s)
    ensures InOrder(rk, DoStartBarrier(cfg, s))
  {
    LevelsPartition(cfg.after);
    JoinAscends(cfg.levels[s.pc.level], s.startErrs);
  }

  /** A component that records its stop is of the level being stopped, and the ones that have recorded
      theirs are of that level or a later one. */
  lemma RecordedEarlier(cfg: Config, rk: seq<int>, s: State, i: int, k: int)
    requires Inv(cfg, rk, s) && CanRecordStop(s, i) && 0 <= k < |s.phase| && s.phase[k].StopDone?
    ensures 0 <= i < |rk| && 0 <= k < |rk| && rk[k] >= rk[i] && i != k
  {
    assert Comp(rk, s, i) && Comp(rk, s, k);
  }

  lemma OneMoreStop(rk: seq<int>, errs: seq<RunError>, r: RunError)
    requires LevelsDescend(rk, errs) && r.StopError? && 0 <= r.comp < |rk|
    requires forall x :: x in errs && x.StopError? && 0 <= x.comp < |rk| ==> rk[x.comp] >= rk[r.comp]
    ensures LevelsDescend(rk, errs + [r])
  {
    assert forall a :: 0 <= a < |errs| ==> errs[a] in errs;
  }

  lemma RecordKeepsLevels(cfg: Config, rk: seq<int>, s: State, i: int)
    requires Inv(cfg, rk, s) && InOrder(rk, s) && CanRecordStop(s, i)
    ensures LevelsDescend(rk, DoRecordStop(s, i).stopErrs)
  {
    forall r | r in s.stopErrs && 0 <= r.comp ensures r.comp < |rk| && rk[r.comp] >= rk[i] {
      RecordedEarlier(cfg, rk, s, i, r.comp);
    }
    if s.phase[i].err.Some? {
      OneMoreStop(rk, s.stopErrs, StopError(i, s.phase[i].err.value));
    } else {
      assert s.stopErrs + [] == s.stopErrs;
    }
  }

  lemma OrderAfterRecord(cfg: Config, rk: seq<int>, s: State, i: int)
    requires Inv(cfg, rk, s) && InOrder(rk, s) && CanRecordStop(s, i)
    ensures InOrder(rk, DoRecordStop(s, i))
  {
    RecordKeepsLevels(cfg, rk, s, i);
  }

  ghost predicate KeepsDone(s: State, s': State) {
    && s'.startFailure == s.startFailure && s'.stopErrs == s.stopErrs && |s'.phase| == |s.phase|
    && forall k :: 0 <= k < |s.phase| && s.phase[k].StopDone? ==> s'.phase[k].StopDone?
  }

  lemma OrderFrame(rk: seq<int>, s: State, s': State)
    requires InOrder(rk, s) && KeepsDone(s, s')
    ensures InOrder(rk, s')
  {}

  lemma DoneAfterGoroutine(cfg: Config, s: State, t: Step, i: int)
    requires GoroutineStep(t, i) && Enabled(cfg, s, t) && !t.RecordStop?
    ensures KeepsDone(s, Next(cfg, s, t))
  {}

  lemma DoneAfterSpawn(cfg: Config, rk: seq<int>, s: State, t: Step)
    requires Inv(cfg, rk, s) && (t.SpawnStart? || t.SpawnStop?) && Enabled(cfg, s, t)
    ensures KeepsDone(s, Next(cfg, s, t))
  {
    assert Comp(rk, s, s.pc.todo[0]);
  }

  lemma DoneAfterOther(cfg: Config, s: State, t: Step)
    requires (MiddleStep(t) || OutsideStep(t) || t.StopBarrier? || t.LoadFatal?) && Enabled(cfg, s, t)
    ensures KeepsDone(s, Next(cfg, s, t))
  {}

  lemma OrderStep(cfg: Config, rk: seq<int>, s: State, t: Step)
    requires WellFormed(cfg) && Inv(cfg, rk, s) && InOrder(rk, s) && Enabled(cfg, s, t)
    ensures InOrder(rk, Next(cfg, s, t))
  {
    if t.StartBarrier? {
      OrderAfterBarrier(cfg, rk, s);
    } else if t.RecordStop? {
      OrderAfterRecord(cfg, rk, s, t.comp);
    } else {
      DoneStaysDone(cfg, rk, s, t);
      OrderFrame(rk, s, Next(cfg, s, t));
    }
  }

  lemma DoneStaysDone(cfg: Config, rk: seq<int>, s: State, t: Step)
    requires Inv(cfg, rk, s) && Enabled(cfg, s, t) && !t.StartBarrier? && !t.RecordStop?
    ensures KeepsDone(s, Next(cfg, s, t))
  {
    if i :| GoroutineStep(t, i) {
      DoneAfterGoroutine(cfg, s, t, i);
    } else if t.SpawnStart? || t.SpawnStop? {
      DoneAfterSpawn(cfg, rk, s, t);
    } else {
      NotAGoroutine(t);
      DoneAfterOther(cfg, s, t);
    }
  }

  lemma {:induction false} OrderReached(cfg: Config, rk: seq<int>, steps: seq<Step>, s: State)
    requires WellFormed(cfg) && Ranked(cfg, rk) && Exec(cfg, steps) == Some(s)
    ensures InOrder(rk, s)
  {
    if steps != [] {
      var m := |steps| - 1;
      var pre := Exec(cfg, steps[..m]).value;
      OrderReached(cfg, rk, steps[..m], pre);
      Reachable(cfg, rk, steps[..m]);
      OrderStep(cfg, rk, pre, steps[m]);
    }
  }

  ghost predicate Before(cfg: Config, x: RunError, y: RunError) {
    && !y.FatalError?
    && (y.StartError? ==> x.StartError? && x.comp < y.comp)
    && (x.StopError? ==> y.StopError? && 0 <= y.comp < |cfg.after| && x.comp !in cfg.after[y.comp])
  }

  lemma StopsBefore(cfg: Config, rk: seq<int>, x: RunError, y: RunError)
    requires Ranked(cfg, rk) && x.StopError? && y.StopError? && 0 <= x.comp < |rk| && 0 <= y.comp < |rk|
    requires rk[x.comp] >= rk[y.comp]
    ensures Before(cfg, x, y)
  {}

  lemma ResultIsInOrder(cfg: Config, rk: seq<int>, head: seq<RunError>, stops: seq<RunError>, a: nat, b: nat)
    requires Ranked(cfg, rk) && Ascending(head) && LevelsDescend(rk, stops) && a < b < |head + stops|
    requires |head| <= 1 || forall k :: 0 <= k < |head| ==> head[k].StartError?
    requires forall k :: 0 <= k < |head| ==> !head[k].StopError?
    requires forall k :: 0 <= k < |stops| ==> stops[k].StopError?
    ensures Before(cfg, (head + stops)[a], (head + stops)[b])
  {
    var n := |head|;
    if a >= n {
      StopsBefore(cfg, rk, stops[a - n], stops[b - n]);
    } else if b < n {
      assert head[a].comp < head[b].comp;
    }
  }

  lemma HeadInOrder(cfg: Config, rk: seq<int>, s: State) returns (head: seq<RunError>)
    requires Inv(cfg, rk, s) && InOrder(rk, s) && s.pc.Returned?
    ensures s.pc.result == head + s.stopErrs && Ascending(head)
    ensures |head| <= 1 || forall k :: 0 <= k < |head| ==> head[k].StartError?
    ensures forall k :: 0 <= k < |head| ==> !head[k].StopError?
  {
    head := if s.startFailure != [] then s.startFailure else FatalPart(FatalSeen(s.trace));
    assert forall k :: 0 <= k < |s.startFailure| ==> s.startFailure[k] in s.startFailure;
  }

  /** What Run returns is in order: the Fatal error or the failed Starts come first, the Starts as
      registered, then the failed Stops, and no component's before that of one started for it. */
  lemma ReportIsInOrder(cfg: Config, steps: seq<Step>, s: State, a: nat, b: nat)
    requires Reached(cfg, steps, s) && s.pc.Returned? && a < b < |s.pc.result|
    ensures var x, y := s.pc.result[a], s.pc.result[b];
            && !y.FatalError?
            && (y.StartError? ==> x.StartError? && x.comp < y.comp)
            && (x.StopError? ==> y.StopError? && 0 <= y.comp < |cfg.after| && x.comp !in cfg.after[y.comp])
  {
    var rk := RanksExist(cfg);
    Reachable(cfg, rk, steps);
    OrderReached(cfg, rk, steps, s);
    var head := HeadInOrder(cfg, rk, s);
    assert forall k :: 0 <= k < |s.stopErrs| ==> s.stopErrs[k] in s.stopErrs;
    ResultIsInOrder(cfg, rk, head, s.stopErrs, a, b);
  }
}
