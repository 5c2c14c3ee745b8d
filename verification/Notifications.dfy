/**
 The notification store, its bounded queue and the delivery worker
 (examples/notifications/notification.go, worker.go).
 */
module Notifications {
  const CAPACITY := 64

  datatype Status = Queued | Delivered | Failed

  /** `id` is the number in "notification-<id>". */
  datatype Notification = Notification(id: nat, recipient: string, message: string, status: Status)

  /** The map setStatus leaves: an unknown id yields a fresh entry with only the status set. */
  function WithStatus(items: map<nat, Notification>, id: nat, status: Status): map<nat, Notification> {
    var n := if id in items then items[id] else Notification(0, "", "", Queued);
    items[id := n.(status := status)]
  }

  /** What the store holds: the last id, the items, and the channel's contents. */
  datatype Contents = Contents(nextID: nat, items: map<nat, Notification>, channel: seq<Notification>)

  /** The locked part of submit: a fresh item, stored as queued. */
  function Registered(c: Contents, recipient: string, message: string): (Notification, Contents) {
    var n := Notification(c.nextID + 1, recipient, message, Queued);
    (n, c.(nextID := n.id, items := c.items[n.id := n]))
  }

  /** The send on an open channel. */
  function Enqueued(c: Contents, n: Notification): Contents { c.(channel := c.channel + [n]) }

  function StatusSet(c: Contents, id: nat, status: Status): Contents { c.(items := WithStatus(c.items, id, status)) }

  const EMPTY := Contents(0, map[], [])

  class NotificationStore {
    var nextID: nat
    var items: map<nat, Notification>
    var queue: seq<Notification>

    ghost function Value(): Contents
      reads this
    {
      Contents(nextID, items, queue)
    }

    constructor ()
      ensures Value() == EMPTY
    {
      nextID, items, queue := 0, map[], [];
    }

    /** The locked part of submit. */
    method Register(recipient: string, message: string) returns (n: Notification)
      modifies `nextID, `items
      ensures (n, Value()) == Registered(old(Value()), recipient, message)
    {
      nextID := nextID + 1;
      n := Notification(nextID, recipient, message, Queued);
      items := items[n.id := n];
    }

    /** The send on the channel, once it has room. */
    method Enqueue(n: Notification)
      requires |queue| < CAPACITY
      modifies `queue
      ensures Value() == Enqueued(old(Value()), n)
    {
      queue := queue + [n];
    }

    method Get(id: nat) returns (n: Notification, ok: bool)
      ensures ok <==> id in items
      ensures ok ==> n == items[id]
    {
      if id in items { return items[id], true; }
      return Notification(0, "", "", Queued), false;
    }

    method SetStatus(id: nat, status: Status)
      modifies `items
      ensures Value() == StatusSet(old(Value()), id, status)
    {
      var n := Notification(0, "", "", Queued);
      if id in items { n := items[id]; }
      items := items[id := n.(status := status)];
    }
  }

  // ---- Submitters and the worker, interleaved -------------------------------------------------

  datatype Worker = NotStarted | Idle | Delivering(item: Notification) | Exited

  /** `pending` holds the submitters between unlock and send; `sent`, `finished` and `deliveries`
      record the sends, the settled items and the calls of deliver in order, `outcomes` whether each
      call of deliver that has returned succeeded, and `asked` the recipients and messages submitted. */
  datatype Queue = Queue(
    nextID: nat,
    items: map<nat, Notification>,
    pending: map<nat, Notification>,
    channel: seq<Notification>,
    closed: bool,
    worker: Worker,
    sent: seq<Notification>,
    finished: seq<Notification>,
    deliveries: seq<Notification>,
    outcomes: seq<bool>,
    asked: seq<(string, string)>,
    panicked: bool)

  const NEW_QUEUE := Queue(0, map[], map[], [], false, NotStarted, [], [], [], [], [], false)

  datatype Step =
    | Submit(tid: nat, recipient: string, message: string)
    | Send(tid: nat)
    | StartWorker
    | Receive
    | Settle(ok: bool)
    | Exit
    | Close

  predicate Enabled(q: Queue, t: Step) {
    match t
    case Submit(tid, _, _) => tid !in q.pending
    case Send(tid) => tid in q.pending && (q.closed || |q.channel| < CAPACITY)
    case StartWorker => q.worker.NotStarted?
    case Receive => q.worker.Idle? && q.channel != []
    case Settle(_) => q.worker.Delivering?
    case Exit => q.worker.Idle? && q.channel == [] && q.closed
    case Close => true
  }

  function StoreOf(q: Queue): Contents { Contents(q.nextID, q.items, q.channel) }

  function WithStore(q: Queue, c: Contents): Queue { q.(nextID := c.nextID, items := c.items, channel := c.channel) }

  /** The store's operations, one step each. A send on the closed channel panics; the worker drains the
      channel before it sees the close. */
  function Next(q: Queue, t: Step): Queue
    requires Enabled(q, t)
  {
    match t
    case Submit(tid, recipient, message) =>
      var (n, c) := Registered(StoreOf(q), recipient, message);
      WithStore(q, c).(pending := q.pending[tid := n], asked := q.asked + [(recipient, message)])
    case Send(tid) =>
      var n := q.pending[tid];
      if q.closed then q.(pending := q.pending - {tid}, panicked := true)
      else WithStore(q, Enqueued(StoreOf(q), n)).(pending := q.pending - {tid}, sent := q.sent + [n])
    case StartWorker => q.(worker := Idle)
    case Receive =>
      var n := q.channel[0];
      q.(worker := Delivering(n), channel := q.channel[1..], deliveries := q.deliveries + [n])
    case Settle(ok) =>
      var n := q.worker.item;
      WithStore(q, StatusSet(StoreOf(q), n.id, if ok then Delivered else Failed))
        .(worker := Idle, finished := q.finished + [n], outcomes := q.outcomes + [ok])
    case Exit => q.(worker := Exited)
    case Close => q.(closed := true)
  }

  function InHand(q: Queue): seq<Notification> {
    match q.worker case Delivering(n) => [n] case _ => []
  }

  ghost predicate HasId(s: seq<Notification>, id: int) { exists k :: 0 <= k < |s| && s[k].id == id }

  ghost predicate PendingId(pending: map<nat, Notification>, id: int) {
    exists tid :: tid in pending && pending[tid].id == id
  }

  /** Items pass from the channel through the worker's hand to the settled ones, in send order. */
  ghost predicate Conserved(q: Queue) {
    && q.sent == q.finished + InHand(q) + q.channel
    && q.deliveries == q.finished + InHand(q)
    && |q.channel| <= CAPACITY
    && (q.worker.Exited? ==> q.closed && q.channel == [])
  }

  /** Ids are unique, and each one handed out is either still with its submitter or was sent. */
  ghost predicate IdsOk(sent: seq<Notification>, pending: map<nat, Notification>, nextID: nat, panicked: bool) {
    && (forall i, j :: 0 <= i < j < |sent| ==> sent[i].id != sent[j].id)
    && (forall k :: 0 <= k < |sent| ==> 1 <= sent[k].id <= nextID)
    && (forall tid :: tid in pending ==> 1 <= pending[tid].id <= nextID)
    && (forall tid, k :: tid in pending && 0 <= k < |sent| ==> pending[tid].id != sent[k].id)
    && (forall a, b :: a in pending && b in pending && pending[a].id == pending[b].id ==> a == b)
    && (!panicked ==> forall id :: 1 <= id <= nextID ==> HasId(sent, id) || PendingId(pending, id))
  }

  /** The status reads `Queued` until the item is settled, then delivered or failed. */
  ghost predicate StatusesOk(items: map<nat, Notification>, finished: seq<Notification>, nextID: nat) {
    && (forall id :: id in items <==> 1 <= id <= nextID)
    && (forall id :: id in items ==> items[id].id == id && (items[id].status == Queued <==> !HasId(finished, id)))
  }

  /** The item carries the recipient and the message that were submitted under its id. */
  predicate Carries(n: Notification, asked: seq<(string, string)>) {
    1 <= n.id <= |asked| && (n.recipient, n.message) == asked[n.id - 1]
  }

  ghost predicate ContentsOk(items: map<nat, Notification>, pending: map<nat, Notification>, sent: seq<Notification>,
                             asked: seq<(string, string)>) {
    && (forall id :: id in items ==> Carries(items[id], asked))
    && (forall tid :: tid in pending ==> Carries(pending[tid], asked))
    && (forall k :: 0 <= k < |sent| ==> Carries(sent[k], asked))
  }

  /** A settled item reads delivered exactly when its call of deliver succeeded, and failed otherwise. */
  ghost predicate OutcomesOk(items: map<nat, Notification>, finished: seq<Notification>, outcomes: seq<bool>) {
    && |outcomes| == |finished|
    && (forall k :: 0 <= k < |finished| ==> finished[k].id in items)
    && (forall k :: 0 <= k < |finished| ==> (items[finished[k].id].status == Delivered <==> outcomes[k]))
    && (forall k :: 0 <= k < |finished| ==> (items[finished[k].id].status == Failed <==> !outcomes[k]))
  }

  ghost predicate Inv(q: Queue) {
    && Conserved(q) && IdsOk(q.sent, q.pending, q.nextID, q.panicked) && StatusesOk(q.items, q.finished, q.nextID)
    && |q.asked| == q.nextID && ContentsOk(q.items, q.pending, q.sent, q.asked)
    && OutcomesOk(q.items, q.finished, q.outcomes)
  }

  lemma ContentsAfterSubmit(items: map<nat, Notification>, pending: map<nat, Notification>, sent: seq<Notification>,
                            asked: seq<(string, string)>, tid: nat, n: Notification)
    requires ContentsOk(items, pending, sent, asked) && n.id == |asked| + 1
    ensures ContentsOk(items[n.id := n], pending[tid := n], sent, asked + [(n.recipient, n.message)])
  {
    var more := asked + [(n.recipient, n.message)];
    assert forall m: Notification :: Carries(m, asked) ==> Carries(m, more);
    assert Carries(n, more);
  }

  lemma ContentsAfterSettle(items: map<nat, Notification>, pending: map<nat, Notification>, sent: seq<Notification>,
                            asked: seq<(string, string)>, id: nat, status: Status)
    requires ContentsOk(items, pending, sent, asked) && id in items
    ensures ContentsOk(WithStatus(items, id, status), pending, sent, asked)
  {
    assert Carries(items[id], asked);
  }

  lemma OutcomesAfterSubmit(items: map<nat, Notification>, finished: seq<Notification>, outcomes: seq<bool>,
                            n: Notification)
    requires OutcomesOk(items, finished, outcomes) && forall k :: 0 <= k < |finished| ==> finished[k].id < n.id
    ensures OutcomesOk(items[n.id := n], finished, outcomes)
  {}

  /** The status that the worker stores is that of the deliver call. */
  lemma OutcomesAfterSettle(items: map<nat, Notification>, finished: seq<Notification>, outcomes: seq<bool>,
                            n: Notification, ok: bool)
    requires OutcomesOk(items, finished, outcomes) && n.id in items
    requires forall k :: 0 <= k < |finished| ==> finished[k].id != n.id
    ensures OutcomesOk(WithStatus(items, n.id, if ok then Delivered else Failed), finished + [n], outcomes + [ok])
  {}

  lemma IdsAfterSubmit(sent: seq<Notification>, pending: map<nat, Notification>, nextID: nat, panicked: bool,
                       tid: nat, n: Notification)
    requires IdsOk(sent, pending, nextID, panicked) && tid !in pending && n.id == nextID + 1
    ensures IdsOk(sent, pending[tid := n], nextID + 1, panicked)
  {
    var after := pending[tid := n];
    assert after[tid].id == n.id;
    forall id | 1 <= id <= nextID + 1 && !panicked ensures HasId(sent, id) || PendingId(after, id) {
      if id <= nextID && PendingId(pending, id) {
        var a :| a in pending && pending[a].id == id;
        assert a in after && after[a].id == id;
      }
    }
  }

  lemma HasIdAppend(s: seq<Notification>, n: Notification, id: int)
    ensures HasId(s + [n], id) <==> HasId(s, id) || id == n.id
  {
    if HasId(s, id) {
      var k :| 0 <= k < |s| && s[k].id == id;
      assert (s + [n])[k].id == id;
    }
    if id == n.id { assert (s + [n])[|s|].id == id; }
  }

  lemma IdsAfterSend(sent: seq<Notification>, pending: map<nat, Notification>, nextID: nat, panicked: bool, tid: nat)
    requires IdsOk(sent, pending, nextID, panicked) && tid in pending
    ensures IdsOk(sent + [pending[tid]], pending - {tid}, nextID, panicked)
    ensures IdsOk(sent, pending - {tid}, nextID, true)
  {
    var n, after := pending[tid], pending - {tid};
    forall id | 1 <= id <= nextID && !panicked ensures HasId(sent + [n], id) || PendingId(after, id) {
      HasIdAppend(sent, n, id);
      if PendingId(pending, id) && id != n.id {
        var a :| a in pending && pending[a].id == id;
        assert a in after && after[a].id == id;
      }
    }
  }

  lemma StatusesAfterSettle(items: map<nat, Notification>, finished: seq<Notification>, nextID: nat, n: Notification,
                            status: Status)
    requires StatusesOk(items, finished, nextID) && n.id in items && status != Queued
    ensures StatusesOk(WithStatus(items, n.id, status), finished + [n], nextID)
  {
    forall id | id in items ensures HasId(finished + [n], id) <==> HasId(finished, id) || id == n.id {
      HasIdAppend(finished, n, id);
    }
  }

  lemma StatusesAfterSubmit(items: map<nat, Notification>, finished: seq<Notification>, nextID: nat, n: Notification)
    requires StatusesOk(items, finished, nextID) && n.id == nextID + 1 && n.status == Queued
    requires forall k :: 0 <= k < |finished| ==> finished[k].id <= nextID
    ensures StatusesOk(items[n.id := n], finished, nextID + 1)
  {}

  lemma FinishedWereSent(q: Queue)
    requires Conserved(q) && IdsOk(q.sent, q.pending, q.nextID, q.panicked)
    ensures forall k :: 0 <= k < |q.finished| ==> q.finished[k].id <= q.nextID
  {
    assert forall k :: 0 <= k < |q.finished| ==> q.finished[k] == q.sent[k];
  }

  lemma SubmitOk(q: Queue, tid: nat, recipient: string, message: string)
    requires Inv(q) && tid !in q.pending
    ensures Inv(Next(q, Submit(tid, recipient, message)))
  {
    var n := Notification(q.nextID + 1, recipient, message, Queued);
    var q' := q.(nextID := n.id, items := q.items[n.id := n], pending := q.pending[tid := n],
                 asked := q.asked + [(recipient, message)]);
    assert Next(q, Submit(tid, recipient, message)) == q' && Conserved(q');
    ContentsAfterSubmit(q.items, q.pending, q.sent, q.asked, tid, n);
    IdsAfterSubmit(q.sent, q.pending, q.nextID, q.panicked, tid, n);
    FinishedWereSent(q);
    OutcomesAfterSubmit(q.items, q.finished, q.outcomes, n);
    StatusesAfterSubmit(q.items, q.finished, q.nextID, n);
  }

  /** The item in hand was sent, and settling it keeps the order. */
  lemma SettledMoves(q: Queue, n: Notification)
    requires Inv(q) && q.worker == Delivering(n)
    ensures n.id in q.items && n in q.sent
    ensures q.sent == (q.finished + [n]) + [] + q.channel && q.deliveries == (q.finished + [n]) + []
    ensures forall k :: 0 <= k < |q.finished| ==> q.finished[k].id != n.id
  {
    assert q.sent[|q.finished|] == n;
    assert forall k :: 0 <= k < |q.finished| ==> q.finished[k] == q.sent[k];
  }

  lemma SettleOk(q: Queue, ok: bool)
    requires Inv(q) && q.worker.Delivering?
    ensures Inv(Next(q, Settle(ok)))
  {
    var n, status := q.worker.item, if ok then Delivered else Failed;
    SettledMoves(q, n);
    assert Next(q, Settle(ok)) ==
           q.(worker := Idle, items := WithStatus(q.items, n.id, status), finished := q.finished + [n],
              outcomes := q.outcomes + [ok]);
    ContentsAfterSettle(q.items, q.pending, q.sent, q.asked, n.id, status);
    OutcomesAfterSettle(q.items, q.finished, q.outcomes, n, ok);
    StatusesAfterSettle(q.items, q.finished, q.nextID, n, status);
  }

  lemma OpenSendOk(q: Queue, tid: nat)
    requires Inv(q) && Enabled(q, Send(tid)) && !q.closed
    ensures Inv(Next(q, Send(tid)))
  {
    var n := q.pending[tid];
    var q' := q.(pending := q.pending - {tid}, channel := q.channel + [n], sent := q.sent + [n]);
    assert Next(q, Send(tid)) == q';
    StillConserved(q, q', n);
    IdsAfterSend(q.sent, q.pending, q.nextID, q.panicked, tid);
  }

  lemma StillConserved(q: Queue, q': Queue, n: Notification)
    requires Conserved(q) && |q.channel| < CAPACITY && !q.closed
    requires q'.channel == q.channel + [n] && q'.sent == q.sent + [n] && q'.worker == q.worker
    requires q'.finished == q.finished && q'.deliveries == q.deliveries && q'.closed == q.closed
    ensures Conserved(q')
  {}

  lemma ClosedSendOk(q: Queue, tid: nat)
    requires Inv(q) && Enabled(q, Send(tid)) && q.closed
    ensures Inv(Next(q, Send(tid)))
  {
    assert Next(q, Send(tid)) == q.(pending := q.pending - {tid}, panicked := true);
    IdsAfterSend(q.sent, q.pending, q.nextID, q.panicked, tid);
  }

  lemma SendOk(q: Queue, tid: nat)
    requires Inv(q) && Enabled(q, Send(tid))
    ensures Inv(Next(q, Send(tid)))
  {
    if q.closed { ClosedSendOk(q, tid); } else { OpenSendOk(q, tid); }
  }

  lemma ReceiveOk(q: Queue)
    requires Inv(q) && Enabled(q, Receive)
    ensures Inv(Next(q, Receive))
  {
    assert q.channel == [q.channel[0]] + q.channel[1..];
    assert Conserved(Next(q, Receive));
  }

  lemma StepOk(q: Queue, t: Step)
    requires Inv(q) && Enabled(q, t)
    ensures Inv(Next(q, t))
  {
    match t
    case Submit(tid, recipient, message) => SubmitOk(q, tid, recipient, message);
    case Send(tid) => SendOk(q, tid);
    case Settle(ok) => SettleOk(q, ok);
    case Receive => ReceiveOk(q);
    case _ =>
  }

  /** Deliver was called for `id`, once. */
  ghost predicate HasOnce(s: seq<Notification>, id: int) {
    exists k :: 0 <= k < |s| && s[k].id == id && id !in Ids(s[..k]) && id !in Ids(s[k + 1..])
  }

  function Ids(s: seq<Notification>): (r: seq<int>) { seq(|s|, k requires 0 <= k < |s| => s[k].id) }

  lemma HasIdOnce(s: seq<Notification>, id: int)
    requires HasId(s, id) && forall i, j :: 0 <= i < j < |s| ==> s[i].id != s[j].id
    ensures HasOnce(s, id)
  {
    var k :| 0 <= k < |s| && s[k].id == id;
    assert forall j :: 0 <= j < k ==> Ids(s[..k])[j] == s[j].id;
    var rest := s[k + 1..];
    forall j | 0 <= j < |rest| ensures Ids(rest)[j] != id { assert rest[j] == s[k + 1 + j]; }
  }

  /** Deliver was called for `id` once, with what was submitted under it, and the item reads delivered
      exactly when that call succeeded and failed exactly when it did not. */
  ghost predicate SettledAs(q: Queue, id: nat) {
    && id in q.items && Carries(q.items[id], q.asked) && HasOnce(q.deliveries, id)
    && exists k :: 0 <= k < |q.deliveries| && k < |q.outcomes| && q.deliveries[k].id == id
                   && Carries(q.deliveries[k], q.asked)
                   && (q.items[id].status == Delivered <==> q.outcomes[k])
                   && (q.items[id].status == Failed <==> !q.outcomes[k])
  }

  /** In every state a settled item is settled as its one deliver call went. */
  lemma FinishedIsSettledAs(q: Queue, k: nat)
    requires Inv(q) && k < |q.finished|
    ensures SettledAs(q, q.finished[k].id)
  {
    assert q.finished[k] == q.deliveries[k] == q.sent[k];
    assert forall i :: 0 <= i < |q.deliveries| ==> q.deliveries[i] == q.sent[i];
    HasIdOnce(q.deliveries, q.finished[k].id);
  }

  /** When the worker is gone and no submitter is left, every notification submitted was handed to
      deliver exactly once and reads delivered or failed as that call went. */
  lemma AllSettled(q: Queue, id: nat)
    requires Inv(q) && q.worker.Exited? && q.pending == map[] && !q.panicked && 1 <= id <= q.nextID
    ensures id in q.items && q.items[id].status != Queued
    ensures HasOnce(q.deliveries, id) && SettledAs(q, id)
  {
    assert HasId(q.sent, id) || PendingId(q.pending, id);
    assert q.sent == q.finished && q.finished == q.deliveries;
    HasIdOnce(q.sent, id);
    var k :| 0 <= k < |q.sent| && q.sent[k].id == id;
    FinishedIsSettledAs(q, k);
  }
}
