/** The invariant of every interleaving of LifecycleRun, and its preservation by each step. */
module LifecycleInvariant {
  import opened Prelude
  import opened Levels
  import opened Health
  import opened LifecycleRun

  ghost predicate StartReturnedIn(h: seq<Event>, i: int) { exists e :: StartRet(i, e) in h }

  ghost predicate StopReturnedIn(h: seq<Event>, i: int) { exists e :: StopRet(i, e) in h }

  ghost predicate StartFailedIn(h: seq<Event>, i: int) { exists e :: StartRet(i, Some(e)) in h }

  ghost predicate StopFailedIn(h: seq<Event>, i: int) { exists e :: StopRet(i, Some(e)) in h }

  /** What must already have happened (`h`) when event `e` happens. */
  ghost predicate Allowed(after: Graph, h: seq<Event>, e: Event) {
    match e
    case StartCall(i) =>
      && 0 <= i < |after|
      && StartCall(i) !in h
      && (forall j :: StopCall(j) !in h)
      && (forall d :: d in after[i] ==> StartRet(d, None) in h)
    case StartRet(i, _) => StartCall(i) in h && !StartReturnedIn(h, i)
    case StopCall(i) =>
      && StartRet(i, None) in h
      && StopCall(i) !in h
      && (forall j :: StartCall(j) in h ==> StartReturnedIn(h, j))
      && (forall j :: 0 <= j < |after| && i in after[j] && StartRet(j, None) in h ==> StopReturnedIn(h, j))
    case StopRet(i, _) => StopCall(i) in h && !StopReturnedIn(h, i)
    case FatalStored(_) => forall f :: FatalStored(f) !in h
    case FatalClosed => (exists f :: FatalStored(f) in h) && FatalClosed !in h
    case FinalLoad =>
      && FinalLoad !in h
      && (forall i :: 0 <= i < |after| ==> StartRet(i, None) in h && StopReturnedIn(h, i))
  }

  /** Every event of the trace was allowed by the events before it. */
  ghost predicate Safe(after: Graph, tr: seq<Event>) {
    forall p :: 0 <= p < |tr| ==> Allowed(after, tr[..p], tr[p])
  }

  lemma SafeExtend(after: Graph, tr: seq<Event>, e: Event)
    requires Safe(after, tr) && Allowed(after, tr, e)
    ensures Safe(after, tr + [e])
  {
    forall p | 0 <= p < |tr + [e]| ensures Allowed(after, (tr + [e])[..p], (tr + [e])[p]) {
      assert (tr + [e])[..p] == tr[..p];
      if p == |tr| { assert tr[..p] == tr; }
    }
  }

  predicate StopUnderway(ph: Phase) { ph.StopSpawned? || ph.StopCalled? || ph.StopReturned? || ph.StopDone? }

  predicate StartUnderway(ph: Phase) { ph.StartSpawned? || ph.StartCalled? || ph.StartReturned? || ph.StartDone? }

  /** What Start of component `i` returned, once it has returned. */
  function StartOutcome(s: State, i: int): Option<Option<Err>>
    requires IsComp(s, i)
  {
    match s.phase[i]
    case Idle => None
    case StartSpawned => None
    case StartCalled => None
    case StartReturned(e) => Some(e)
    case _ => Some(s.startErrs[i])
  }

  /** `rk` numbers the levels: an edge goes to a lower level, each level lists its components once. */
  ghost predicate Ranked(cfg: Config, rk: seq<int>) {
    && |rk| == |cfg.after|
    && (forall i :: 0 <= i < |rk| ==> 0 <= rk[i] < |cfg.levels| && i in cfg.levels[rk[i]])
    && (forall i, d :: 0 <= i < |rk| && d in cfg.after[i] ==> 0 <= d < |rk| && rk[d] < rk[i])
    && (forall k :: 0 <= k < |cfg.levels| ==> PartOfLevel(rk, k, cfg.levels[k]))
  }

  ghost predicate Shape(cfg: Config, s: State) {
    && |s.phase| == |cfg.after| && |s.started| == |cfg.after| && |s.startErrs| == |cfg.after|
  }

  /** The phase of one component agrees with the trace and with what was recorded about it. */
  ghost predicate CompOk(s: State, i: int)
    requires IsComp(s, i)
  {
    var ph, tr := s.phase[i], s.trace;
    && (StartCall(i) in tr <==> !ph.Idle? && !ph.StartSpawned?)
    && (forall e :: StartRet(i, e) in tr <==> StartOutcome(s, i) == Some(e))
    && (ph.StartDone? || StopUnderway(ph) ==> (s.started[i] <==> s.startErrs[i] == None))
    && (!ph.StartDone? && !StopUnderway(ph) ==> !s.started[i] && s.startErrs[i] == None)
    && (StopCall(i) in tr <==> ph.StopCalled? || ph.StopReturned? || ph.StopDone?)
    && (forall e :: StopRet(i, e) in tr ==> ph == StopReturned(e) || ph.StopDone?)
    && (ph.StopReturned? ==> StopRet(i, ph.err) in tr)
    && (ph.StopDone? ==> StopReturnedIn(tr, i))
    && (forall e :: StopError(i, e) in s.stopErrs <==> ph.StopDone? && StopRet(i, Some(e)) in tr)
  }

  /** Where the main goroutine is bounds the phase of every component. */
  ghost predicate CompAtPc(rk: seq<int>, s: State, i: int)
    requires IsComp(s, i) && 0 <= i < |rk|
  {
    var ph, r := s.phase[i], rk[i];
    match s.pc
    case Starting(k, todo) =>
      if r < k then ph.StartDone? && s.started[i]
      else if r > k || i in todo then ph.Idle?
      else StartUnderway(ph)
    case Stopping(left, todo) =>
      if !s.started[i] then (ph.Idle? || ph.StartDone?) && s.startFailure != []
      else if r >= left then ph.StopDone?
      else if r < left - 1 || i in todo then ph.StartDone?
      else StopUnderway(ph)
    case Loading => if s.started[i] then ph.StopDone? else (ph.Idle? || ph.StartDone?) && s.startFailure != []
    case Returned(_) => if s.started[i] then ph.StopDone? else (ph.Idle? || ph.StartDone?) && s.startFailure != []
    case _ => ph.StartDone? && s.started[i]
  }

  ghost predicate Distinct<T>(q: seq<T>) { forall a, b :: 0 <= a < b < |q| ==> q[a] != q[b] }

  /** `todo` is part of level `k`, each component once. */
  ghost predicate PartOfLevel(rk: seq<int>, k: int, todo: seq<int>) {
    && Distinct(todo)
    && (forall a :: 0 <= a < |todo| ==> 0 <= todo[a] < |rk| && rk[todo[a]] == k)
  }

  ghost predicate PcOk(cfg: Config, rk: seq<int>, s: State)
    requires Shape(cfg, s) && |rk| == |cfg.after|
  {
    && (s.pc.Starting? ==> s.pc.level < |cfg.levels| && PartOfLevel(rk, s.pc.level, s.pc.todo))
    && (s.pc.Stopping? ==> 0 < s.pc.left <= |cfg.levels| && PartOfLevel(rk, s.pc.left - 1, s.pc.todo))
    && (s.startFailure != [] ==> s.pc.Stopping? || s.pc.Loading? || s.pc.Returned?)
    && (s.startFailure != [] ==>
          forall r :: r in s.startFailure <==>
                        r.StartError? && 0 <= r.comp < |s.startErrs| && s.startErrs[r.comp] == Some(r.err))
    && (s.levelCancelled <==> s.pc.Starting? && exists i :: 0 <= i < |s.startErrs| && s.startErrs[i].Some?)
    && (forall r :: r in s.stopErrs ==> r.StopError? && 0 <= r.comp < |cfg.after|)
    && Distinct(s.startFailure) && Distinct(s.stopErrs)
  }

  /** The error the final load can see: the one stored before the first FinalLoad event. */
  function FatalSeen(tr: seq<Event>): Option<Err> {
    if tr == [] then None
    else
      var pre, e := tr[..|tr| - 1], tr[|tr| - 1];
      if FinalLoad in pre then FatalSeen(pre)
      else if e.FatalStored? then Some(e.fatal)
      else FatalSeen(pre)
  }

  function FatalPart(fatal: Option<Err>): seq<RunError> {
    match fatal case Some(e) => [FatalError(e)] case None => []
  }

  ghost predicate FatalOk(s: State) {
    && (s.once.NotEntered? <==> s.fatalCalls == [])
    && (s.once.Entered? ==> s.once.err == s.fatalCalls[0])
    && (s.fatalErr == if s.once.Stored? || s.once.Finished? then Some(s.fatalCalls[0]) else None)
    && (s.fatalClosed <==> s.once.Finished?)
    && (forall e :: FatalStored(e) in s.trace <==> s.fatalErr == Some(e))
    && (FatalClosed in s.trace <==> s.fatalClosed)
    && (FinalLoad in s.trace <==> s.pc.Returned? && s.startFailure == [])
    && (FinalLoad !in s.trace ==> FatalSeen(s.trace) == s.fatalErr)
    && (s.pc.Returned? ==>
          s.pc.result == (if s.startFailure != [] then s.startFailure else FatalPart(FatalSeen(s.trace))) + s.stopErrs)
  }

  /** HealthUp is not a drain hook and HealthDrain is one: the documented wiring. */
  predicate ProbesWired(cfg: Config) { HealthUp !in cfg.drainHooks && HealthDrain in cfg.drainHooks }

  ghost predicate GatesOk(cfg: Config, s: State) {
    && s.gates.live
    && (s.pc.Starting? || s.startFailure != [] ==> !s.gates.started && !s.gates.ready)
    && (s.pc.UpHooks? ==> forall op :: op in s.pc.ops ==> op.gate != LiveGate)
    && (s.pc.DrainHooks? ==> forall op :: op in s.pc.ops ==> op.gate != LiveGate)
    && (ProbesWired(cfg) && s.pc.DrainHooks? ==> forall op :: op in s.pc.ops ==> !op.open)
    && (ProbesWired(cfg) && s.pc.DrainHooks? && SetGate(ReadyGate, false) !in s.pc.ops ==> !s.gates.ready)
    && (ProbesWired(cfg) && (s.pc.Stopping? || s.pc.Loading? || s.pc.Returned?) ==> !s.gates.ready)
  }

  ghost predicate Comp(rk: seq<int>, s: State, i: int) {
    IsComp(s, i) && i < |rk| && CompOk(s, i) && CompAtPc(rk, s, i)
  }

  ghost predicate CompsOk(rk: seq<int>, s: State) {
    forall i :: 0 <= i < |rk| ==> Comp(rk, s, i)
  }

  ghost predicate Inv(cfg: Config, rk: seq<int>, s: State) {
    && Ranked(cfg, rk) && Shape(cfg, s) && CompsOk(rk, s) && PcOk(cfg, rk, s) && FatalOk(s)
    && GatesOk(cfg, s) && Safe(cfg.after, s.trace)
  }

  // ---- Small facts -------------------------------------------------------------------------

  lemma FatalSeenAppend(tr: seq<Event>, e: Event)
    ensures FatalSeen(tr + [e]) ==
            if FinalLoad !in tr && e.FatalStored? then Some(e.fatal) else FatalSeen(tr)
  {
    assert (tr + [e])[..|tr|] == tr;
  }

  /** The error of one component, if its Start failed. */
  function StartErrorOf(i: int, e: Option<Err>): seq<RunError> {
    match e case Some(x) => [StartError(i, x)] case None => []
  }

  lemma {:induction false} JoinHoldsTheErrors(level: seq<int>, errs: seq<Option<Err>>)
    requires forall k :: 0 <= k < |level| ==> 0 <= level[k] < |errs|
    requires Distinct(level)
    ensures forall r :: r in JoinStartErrors(level, errs) <==>
                          r.StartError? && r.comp in level && errs[r.comp] == Some(r.err)
    ensures Distinct(JoinStartErrors(level, errs))
    ensures JoinStartErrors(level, errs) == [] <==> forall i :: i in level ==> errs[i] == None
  {
    if level != [] {
      var rest := level[1..];
      JoinHoldsTheErrors(rest, errs);
      assert level == [level[0]] + rest;
      assert level[0] !in rest;
      var head, tail := StartErrorOf(level[0], errs[level[0]]), JoinStartErrors(rest, errs);
      assert JoinStartErrors(level, errs) == head + tail;
      assert forall r :: r in tail ==> r.comp != level[0];
      DistinctAfter(head, tail);
    }
  }

  lemma DistinctAfter(head: seq<RunError>, tail: seq<RunError>)
    requires |head| <= 1 && Distinct(tail) && forall r :: r in head ==> r !in tail
    ensures Distinct(head + tail)
  {
    assert forall k :: 0 <= k < |tail| ==> tail[k] in tail;
    assert forall k :: 0 <= k < |head| ==> head[k] in head;
  }

  /** The levels Run computes have such a numbering: the ranks. */
  lemma RanksExist(cfg: Config) returns (rk: seq<int>)
    requires WellFormed(cfg)
    ensures Ranked(cfg, rk)
    ensures forall i :: 0 <= i < |rk| ==> rk[i] == Rank(cfg.after, i)
  {
    rk := seq(|cfg.after|, i requires 0 <= i < |cfg.after| => Rank(cfg.after, i));
    LevelsPartition(cfg.after);
    forall i, d | 0 <= i < |rk| && d in cfg.after[i] ensures 0 <= d < |rk| && rk[d] < rk[i] {
      RankAboveDependency(cfg.after, i, d);
    }
    forall k, a | 0 <= k < |cfg.levels| && 0 <= a < |cfg.levels[k]|
      ensures 0 <= cfg.levels[k][a] < |rk| && rk[cfg.levels[k][a]] == k
    {
      MembersAscend(cfg.after, k, |cfg.after|);
      assert cfg.levels[k][a] in Members(cfg.after, k, |cfg.after|);
    }
  }
}
