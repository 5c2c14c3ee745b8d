/** That the delivery worker and the submitters get on with it (examples/notifications/worker.go). */
module NotificationProgress {
  import opened Prelude
  import L = LifecycleRun
  import N = Notifications
  import opened NotificationStack

  predicate OfWorker(u: N.Step) { u.Receive? || u.Settle? || u.Exit? }

  /** What the worker has still to do with the items it can get at: receive and settle each, and exit. */
  function Left(q: N.Queue): nat {
    if q.worker.NotStarted? || q.worker.Exited? then 0
    else 2 * |q.channel| + (if q.worker.Delivering? then 1 else 0) + 1
  }

  function OwnSteps(steps: seq<Step>): nat {
    if steps == [] then 0
    else
      var t := steps[|steps| - 1];
      OwnSteps(steps[..|steps| - 1]) + if t.QueueStep? && OfWorker(t.u) then 1 else 0
  }

  /** The worker rests only before its start, after its end, or on an empty channel that is open. */
  lemma WorkerRestsExactly(cfg: L.Config, steps: seq<Step>, s: System)
    requires IsStack(cfg) && Exec(cfg, steps) == Some(s)
    ensures (forall u :: OfWorker(u) ==> !Enabled(cfg, s, QueueStep(u)))
            <==> s.q.worker.NotStarted? || s.q.worker.Exited?
                 || (s.q.worker.Idle? && s.q.channel == [] && !s.q.closed)
  {
    if s.q.worker.Delivering? {
      assert Enabled(cfg, s, QueueStep(N.Settle(true)));
    } else if s.q.worker.Idle? && s.q.channel != [] {
      assert Enabled(cfg, s, QueueStep(N.Receive));
    } else if s.q.worker.Idle? && s.q.closed {
      assert Enabled(cfg, s, QueueStep(N.Exit));
    }
  }

  /** A submitter waits exactly while 64 items are buffered on the open channel, and then two steps of a
      worker that runs are enough to let its item through. */
  lemma SubmitterGetsThrough(cfg: L.Config, steps: seq<Step>, s: System, tid: nat, ok: bool)
    returns (more: seq<Step>, s': System)
    requires IsStack(cfg) && Exec(cfg, steps) == Some(s) && tid in s.q.pending && !s.q.closed
    requires s.q.worker.Idle? || s.q.worker.Delivering?
    ensures Enabled(cfg, s, QueueStep(N.Send(tid))) <==> |s.q.channel| != 64
    ensures |s.q.channel| < 64 ==> more == [QueueStep(N.Send(tid))]
    ensures 1 <= |more| <= 3 && more[|more| - 1] == QueueStep(N.Send(tid)) && OwnSteps(more) == |more| - 1
    ensures Exec(cfg, steps + more) == Some(s') && s'.q.sent == s.q.sent + [s.q.pending[tid]]
  {
    QueueIsConserved(cfg, steps, s);
    if |s.q.channel| < N.CAPACITY || s.q.worker.Idle? {
      more, s' := AfterRoom(cfg, steps, s, tid);
    } else {
      var t := QueueStep(N.Settle(ok));
      ExecExtend(cfg, steps, s, t);
      var rest;
      rest, s' := AfterRoom(cfg, steps + [t], Next(cfg, s, t), tid);
      more := [t] + rest;
      Regroup(steps, t, rest);
    }
    CountOwn(more);
  }

  /** The last receive, when there is no room yet, and the send. */
  lemma AfterRoom(cfg: L.Config, steps: seq<Step>, s: System, tid: nat) returns (more: seq<Step>, s': System)
    requires Exec(cfg, steps) == Some(s) && tid in s.q.pending && !s.q.closed
    requires if |s.q.channel| < N.CAPACITY then true else |s.q.channel| == N.CAPACITY && s.q.worker.Idle?
    ensures |s.q.channel| < N.CAPACITY ==> more == [QueueStep(N.Send(tid))]
    ensures more == [QueueStep(N.Send(tid))] || more == [QueueStep(N.Receive), QueueStep(N.Send(tid))]
    ensures Exec(cfg, steps + more) == Some(s') && s'.q.sent == s.q.sent + [s.q.pending[tid]]
  {
    var send, receive := QueueStep(N.Send(tid)), QueueStep(N.Receive);
    if |s.q.channel| < N.CAPACITY {
      more, s' := [send], Next(cfg, s, send);
      ExecExtend(cfg, steps, s, send);
    } else {
      var mid := Next(cfg, s, receive);
      ExecExtend(cfg, steps, s, receive);
      ExecExtend(cfg, steps + [receive], mid, send);
      more, s' := [receive, send], Next(cfg, mid, send);
      assert steps + [receive] + [send] == steps + more;
    }
  }

  lemma CountOwn(more: seq<Step>)
    requires |more| > 0 && more[|more| - 1].QueueStep? && !OfWorker(more[|more| - 1].u)
    requires forall k :: 0 <= k < |more| - 1 ==> more[k].QueueStep? && OfWorker(more[k].u)
    ensures OwnSteps(more) == |more| - 1
  {
    AllOwn(more[..|more| - 1]);
  }

  lemma {:induction false} AllOwn(more: seq<Step>)
    requires forall k :: 0 <= k < |more| ==> more[k].QueueStep? && OfWorker(more[k].u)
    ensures OwnSteps(more) == |more|
  {
    if more != [] { AllOwn(more[..|more| - 1]); }
  }

  /** Once the queue is closed, whatever else happens, every step of the worker takes it one nearer its end
      and nothing adds to them. */
  lemma {:induction false} StepsLeftExactly(cfg: L.Config, steps: seq<Step>, s: System, more: seq<Step>, s': System)
    requires Exec(cfg, steps) == Some(s) && Exec(cfg, steps + more) == Some(s')
    requires s.q.closed && !s.q.worker.NotStarted?
    ensures s'.q.closed && !s'.q.worker.NotStarted? && Left(s'.q) + OwnSteps(more) == Left(s.q)
  {
    if more == [] {
      assert steps + more == steps;
    } else {
      var all, m := steps + more, |more| - 1;
      assert all[..|all| - 1] == steps + more[..m];
      var mid := Exec(cfg, steps + more[..m]).value;
      StepsLeftExactly(cfg, steps, s, more[..m], mid);
      OneStepNearer(cfg, mid, more[m]);
    }
  }

  lemma OneQueueStepNearer(q: N.Queue, u: N.Step)
    requires N.Enabled(q, u) && q.closed && !q.worker.NotStarted?
    ensures var q' := N.Next(q, u);
            q'.closed && !q'.worker.NotStarted? && Left(q') + (if OfWorker(u) then 1 else 0) == Left(q)
  {}

  lemma OneStepNearer(cfg: L.Config, s: System, t: Step)
    requires Enabled(cfg, s, t) && s.q.closed && !s.q.worker.NotStarted?
    ensures var q := Next(cfg, s, t).q;
            && q.closed && !q.worker.NotStarted?
            && Left(q) + (if t.QueueStep? && OfWorker(t.u) then 1 else 0) == Left(s.q)
  {
    if t.QueueStep? {
      OneQueueStepNearer(s.q, t.u);
    } else if t.t == L.CallStop(WORKER) {
      OneQueueStepNearer(s.q, N.Close);
    }
  }

  /** The worker's next step, while it has one. */
  lemma OwnStep(cfg: L.Config, s: System, ok: bool) returns (t: Step)
    requires s.q.closed && !s.q.worker.NotStarted? && !s.q.worker.Exited?
    ensures t.QueueStep? && OfWorker(t.u) && Enabled(cfg, s, t) && Next(cfg, s, t).q.sent == s.q.sent
  {
    t := QueueStep(if s.q.worker.Delivering? then N.Settle(ok)
                   else if s.q.channel != [] then N.Receive else N.Exit);
  }

  lemma Regroup(steps: seq<Step>, t: Step, rest: seq<Step>)
    ensures steps + [t] + rest == steps + ([t] + rest)
  {}

  lemma ExitedIsFinished(cfg: L.Config, steps: seq<Step>, s: System)
    requires IsStack(cfg) && Exec(cfg, steps) == Some(s) && s.q.worker.Exited?
    ensures s.q.finished == s.q.sent
  {
    var rk := InvOf(cfg, steps, s);
  }

  /** And it can take them all, by itself, with every item settled at the end. */
  lemma {:induction false} ClosedQueueIsWorkedOff(cfg: L.Config, steps: seq<Step>, s: System, ok: bool)
    returns (more: seq<Step>, s': System)
    requires IsStack(cfg) && Exec(cfg, steps) == Some(s) && s.q.closed && !s.q.worker.NotStarted?
    ensures |more| == OwnSteps(more) == Left(s.q)
    ensures Exec(cfg, steps + more) == Some(s') && s'.q.worker.Exited? && s'.q.finished == s'.q.sent == s.q.sent
    decreases Left(s.q)
  {
    if s.q.worker.Exited? {
      ExitedIsFinished(cfg, steps, s);
      more, s' := [], s;
      assert steps + more == steps;
    } else {
      var t := OwnStep(cfg, s, ok);
      ExecExtend(cfg, steps, s, t);
      OneStepNearer(cfg, s, t);
      var rest;
      rest, s' := ClosedQueueIsWorkedOff(cfg, steps + [t], Next(cfg, s, t), ok);
      more := [t] + rest;
      Regroup(steps, t, rest);
      OwnFirst(t, rest);
    }
  }

  lemma {:induction false} OwnFirst(t: Step, rest: seq<Step>)
    requires t.QueueStep? && OfWorker(t.u)
    ensures OwnSteps([t] + rest) == 1 + OwnSteps(rest)
  {
    var all := [t] + rest;
    if rest == [] {
      assert all[..0] == [];
    } else {
      assert all[..|all| - 1] == [t] + rest[..|rest| - 1];
      OwnFirst(t, rest[..|rest| - 1]);
    }
  }
}
