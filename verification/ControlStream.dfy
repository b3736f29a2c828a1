/**
  The Agent's control-stream operation engine (api/agent/client.go): a receive loop and
  one worker share a session's operation maps, a queue and the observed revision; a
  session ends, its worker is joined, and the next one starts.

  Every critical section and every atomic access is one event of the machine, in any
  interleaving.  The completed cache only decides which answer a duplicate gets, so the
  machine lets it say anything; Client below is the cache itself.
*/
module ControlStream {

  type Id = nat

  datatype Operation = Operation(id: Id, revision: nat)

  datatype Running = Running(revision: nat, cancelled: bool)

  /** sessionOperationState. */
  datatype Session = Session(
    running: map<Id, Running>, queued: map<Id, nat>, cancelled: map<Id, nat>, expired: map<Id, nat>, closed: bool)

  const FRESH := Session(map[], map[], map[], map[], false)

  const QUEUE_SIZE := 32

  predicate Marked(m: map<Id, nat>, op: Operation) {
    op.id in m && m[op.id] == op.revision
  }

  function Unmark(m: map<Id, nat>, op: Operation): map<Id, nat> {
    if Marked(m, op) then m - {op.id} else m
  }

  /** True: cancelled or expired before it was admitted, or the session is closed. */
  function Queue(s: Session, op: Operation): (Session, bool) {
    if s.closed || Marked(s.cancelled, op) || Marked(s.expired, op) then (s, true)
    else (s.(queued := s.queued[op.id := op.revision]), false)
  }

  /** True: the operation must not run.  `late` is whether its deadline passed. */
  function Begin(s: Session, op: Operation, late: bool): (Session, bool) {
    if s.closed then (s, true)
    else
      var t := s.(queued := Unmark(s.queued, op));
      if Marked(s.cancelled, op) then (t, true)
      else if late then (t.(expired := s.expired[op.id := op.revision]), true)
      else (t.(running := s.running[op.id := Running(op.revision, false)]), false)
  }

  datatype Verdict = Rejected | Live | StillQueued | AlreadyCancelled | NotRunning

  function RequestCancel(s: Session, op: Operation): (Session, Verdict) {
    if s.closed then (s, Rejected)
    else if op.id in s.running then
      if s.running[op.id].revision != op.revision then (s, Rejected)
      else (s.(running := s.running[op.id := Running(op.revision, true)]), Live)
    else if op.id in s.queued then
      if s.queued[op.id] != op.revision then (s, Rejected)
      else (s.(cancelled := s.cancelled[op.id := op.revision]), StillQueued)
    else if op.id in s.cancelled then
      (s, if s.cancelled[op.id] != op.revision then Rejected else AlreadyCancelled)
    else (s, NotRunning)
  }

  function FinishCancellation(s: Session, op: Operation): Session {
    s.(queued := Unmark(s.queued, op), cancelled := Unmark(s.cancelled, op), expired := Unmark(s.expired, op))
  }

  function FinishExpired(s: Session, op: Operation): Session {
    s.(expired := Unmark(s.expired, op))
  }

  function Finish(s: Session, op: Operation): (Session, bool) {
    if op.id in s.running && s.running[op.id].revision == op.revision then
      (s.(running := s.running - {op.id}), s.running[op.id].cancelled)
    else (s, false)
  }

  function Close(s: Session): Session {
    if s.closed then s else Session(map[], map[], map[], map[], true)
  }

  /** Where the receive loop and the worker stand between two atomic accesses. */
  datatype Receiver =
    | Receiving
    | Checked(op: Operation)
    | Queued(op: Operation)
    | Refused(op: Operation)
    | Forgetting(op: Operation)
    | Storing(revision: nat)

  datatype Worker =
    | Idle
    | Taken(op: Operation)
    | Stopped(op: Operation)
    | Cleaning(op: Operation, expired: bool)
    | Begun(op: Operation)
    | Cleared(op: Operation)
    | Handling(op: Operation)
    | Recording(revision: nat)

  /**
    `handled` are the handler's invocations over the client's life, `accepted` the
    cancellations this session accepted against a still-queued operation.
  */
  datatype State = State(
    observed: nat, session: Session, queue: seq<Operation>, receiver: Receiver, worker: Worker,
    handled: seq<Operation>, accepted: set<Operation>)

  const INIT := State(0, FRESH, [], Receiving, Idle, [], {})

  datatype Event =
    // the receive loop
    | Check(op: Operation)
    | ReceiveLate(op: Operation)
    | Enqueue
    | Send
    | StoreRefused
    | Forget
    | Cancel(op: Operation, completed: bool)
    | StoreReceived
    // the worker
    | Take
    | BeginStep(late: bool)
    | StoreStopped(expired: bool)
    | CleanStep
    | GiveUp(failed: bool)
    | Observe
    | Invoke
    | Return
    | StoreHandled
    // the session
    | End
    | Restart

  function Max(a: nat, b: nat): nat { if a < b then b else a }

  function ReceiveStep(s: State, e: Event): State {
    match e
    // acceptOperation: the revision is newer than the observed one, and Admit let it pass.
    case Check(op) => if s.receiver == Receiving && !s.session.closed && op.revision > s.observed then s.(receiver := Checked(op)) else s
    case ReceiveLate(op) => if s.receiver == Receiving && !s.session.closed then s.(receiver := Storing(op.revision)) else s
    case Enqueue =>
      if !s.receiver.Checked? then s
      else
        var (session, refused) := Queue(s.session, s.receiver.op);
        s.(session := session, receiver := if refused then Refused(s.receiver.op) else Queued(s.receiver.op))
    case Send =>
      if !s.receiver.Queued? then s
      else if |s.queue| < QUEUE_SIZE then s.(queue := s.queue + [s.receiver.op], receiver := Receiving)
      else s.(session := s.session.(queued := Unmark(s.session.queued, s.receiver.op)), receiver := Receiving)
    case StoreRefused =>
      if !s.receiver.Refused? then s
      else s.(observed := Max(s.observed, s.receiver.op.revision), receiver := Forgetting(s.receiver.op))
    case Forget =>
      if !s.receiver.Forgetting? then s
      else s.(session := FinishCancellation(s.session, s.receiver.op), receiver := Receiving)
    case Cancel(op, completed) =>
      if s.receiver != Receiving || s.session.closed then s
      else if completed then s.(receiver := Storing(op.revision))
      else
        var (session, verdict) := RequestCancel(s.session, op);
        s.(session := session, receiver := if verdict == NotRunning then Storing(op.revision) else Receiving,
           accepted := if verdict == StillQueued then s.accepted + {op} else s.accepted)
    case StoreReceived =>
      if !s.receiver.Storing? then s
      else s.(observed := Max(s.observed, s.receiver.revision), receiver := Receiving)
    case _ => s
  }

  function WorkerStep(s: State, e: Event): State {
    match e
    case Take =>
      if s.worker == Idle && s.queue != [] then s.(worker := Taken(s.queue[0]), queue := s.queue[1..]) else s
    case BeginStep(late) =>
      if !s.worker.Taken? then s
      else
        var (session, stop) := Begin(s.session, s.worker.op, late);
        s.(session := session, worker := if stop then Stopped(s.worker.op) else Begun(s.worker.op))
    // wasExpired takes the lock again: it may answer either way.
    case StoreStopped(expired) =>
      if !s.worker.Stopped? then s
      else s.(observed := Max(s.observed, s.worker.op.revision), worker := Cleaning(s.worker.op, expired))
    case CleanStep =>
      if !s.worker.Cleaning? then s
      else if s.worker.expired then s.(session := FinishExpired(s.session, s.worker.op), worker := Idle)
      else s.(session := FinishCancellation(s.session, s.worker.op), worker := Idle)
    // A passed deadline or a cancelled context fails the operation; a failed send drops it.
    case GiveUp(failed) =>
      if !s.worker.Begun? && !s.worker.Cleared? then s
      else s.(session := Finish(s.session, s.worker.op).0, worker := if failed then Recording(s.worker.op.revision) else Idle)
    case Observe =>
      if !s.worker.Begun? then s
      else if s.worker.op.revision <= s.observed then s.(session := Finish(s.session, s.worker.op).0, worker := Idle)
      else s.(worker := Cleared(s.worker.op))
    case Invoke =>
      if !s.worker.Cleared? then s else s.(handled := s.handled + [s.worker.op], worker := Handling(s.worker.op))
    case Return =>
      if !s.worker.Handling? then s
      else s.(session := Finish(s.session, s.worker.op).0, worker := Recording(s.worker.op.revision))
    case StoreHandled =>
      if !s.worker.Recording? then s else s.(observed := Max(s.observed, s.worker.revision), worker := Idle)
    case _ => s
  }

  function Step(s: State, e: Event): State {
    match e
    // The receive loop may return in the middle of a message: an acknowledgement failed.
    case End => s.(session := Close(s.session), receiver := Receiving)
    // runSession returns only after its worker did: <-workerDone.
    case Restart =>
      if s.session.closed && s.worker == Idle then State(s.observed, FRESH, [], Receiving, Idle, s.handled, {}) else s
    case _ => WorkerStep(ReceiveStep(s, e), e)
  }

  predicate OfWorker(e: Event) {
    e.Take? || e.BeginStep? || e.StoreStopped? || e.CleanStep?
    || e.GiveUp? || e.Observe? || e.Invoke? || e.Return? || e.StoreHandled?
  }

  function Run(s: State, events: seq<Event>): State {
    if events == [] then s else Step(Run(s, events[..|events| - 1]), events[|events| - 1])
  }

  /** The operation whose handler the event invokes. */
  predicate Invokes(s: State, e: Event, op: Operation) {
    e == Invoke && s.worker == Cleared(op)
  }

  ghost predicate Increasing(ops: seq<Operation>) {
    forall i, j | 0 <= i < j < |ops| :: ops[i].revision < ops[j].revision
  }

  /** The newest handled revision is observed, or its worker has yet to store it. */
  ghost predicate HandledInv(s: State) {
    && Increasing(s.handled)
    && (s.handled != [] ==>
          var last := s.handled[|s.handled| - 1];
          && (last.revision <= s.observed || s.worker == Handling(last) || s.worker == Recording(last.revision))
          && (s.worker.Cleared? ==> last.revision < s.worker.op.revision))
  }

  ghost predicate SessionInv(s: State) {
    && (s.receiver.Forgetting? ==> s.receiver.op.revision <= s.observed)
    && (s.worker.Cleaning? ==> s.worker.op.revision <= s.observed)
    && (s.worker.Begun? || s.worker.Cleared? || s.worker.Handling? ==>
          s.session.closed || (s.worker.op.id in s.session.running && s.session.running[s.worker.op.id].revision == s.worker.op.revision))
    && (s.session.closed ==> s.receiver == Receiving)
  }

  /** An accepted cancellation whose id was accepted at no other revision. */
  ghost predicate Accepted(s: State, op: Operation) {
    op in s.accepted && forall other | other in s.accepted && other.id == op.id :: other == op
  }

  /** The cancelled mark holds until the observed revision covers it. */
  ghost predicate Guarded(s: State, op: Operation) {
    && (s.session.closed || Marked(s.session.cancelled, op) || op.revision <= s.observed)
    && s.worker != Cleared(op)
    && (s.worker == Begun(op) ==> op.revision <= s.observed)
  }

  ghost predicate CancelInv(s: State) {
    forall op | Accepted(s, op) :: Guarded(s, op)
  }

  ghost predicate Inv(s: State) {
    HandledInv(s) && SessionInv(s) && CancelInv(s)
  }

  lemma ReceiveKeepsInv(s: State, e: Event)
    requires Inv(s)
    ensures Inv(ReceiveStep(s, e))
  {
    ReceiveKeepsHandled(s, e);
    ReceiveKeepsSession(s, e);
    ReceiveKeepsCancels(s, e);
  }

  lemma ReceiveKeepsHandled(s: State, e: Event)
    requires Inv(s)
    ensures HandledInv(ReceiveStep(s, e))
  {
  }

  lemma ReceiveKeepsSession(s: State, e: Event)
    requires Inv(s)
    ensures SessionInv(ReceiveStep(s, e))
  {
  }

  lemma ReceiveKeepsCancels(s: State, e: Event)
    requires Inv(s)
    ensures CancelInv(ReceiveStep(s, e))
  {
    var t := ReceiveStep(s, e);
    forall op | Accepted(t, op) ensures Guarded(t, op) {
      if op in s.accepted { assert Accepted(s, op); }
    }
  }

  lemma WorkerKeepsInv(s: State, e: Event)
    requires Inv(s)
    ensures Inv(WorkerStep(s, e))
  {
    WorkerKeepsHandled(s, e);
    WorkerKeepsSession(s, e);
    WorkerKeepsCancels(s, e);
  }

  lemma WorkerKeepsHandled(s: State, e: Event)
    requires Inv(s)
    ensures HandledInv(WorkerStep(s, e))
  {
  }

  lemma WorkerKeepsSession(s: State, e: Event)
    requires Inv(s)
    ensures SessionInv(WorkerStep(s, e))
  {
  }

  lemma WorkerKeepsCancels(s: State, e: Event)
    requires Inv(s)
    ensures CancelInv(WorkerStep(s, e))
  {
    var t := WorkerStep(s, e);
    forall op | Accepted(t, op) ensures Guarded(t, op) { assert Accepted(s, op); }
  }

  lemma {:induction false} RunKeepsInv(events: seq<Event>)
    ensures Inv(Run(INIT, events))
  {
    if events != [] {
      RunKeepsInv(events[..|events| - 1]);
      StepKeepsInv(Run(INIT, events[..|events| - 1]), events[|events| - 1]);
    }
  }

  lemma StepKeepsInv(s: State, e: Event)
    requires Inv(s)
    ensures Inv(Step(s, e))
  {
    if e == End {
      var t := Step(s, e);
      forall op | Accepted(t, op) ensures Guarded(t, op) { assert Accepted(s, op); }
    } else if e != Restart {
      ReceiveKeepsInv(s, e);
      WorkerKeepsInv(ReceiveStep(s, e), e);
    }
  }

  /**
    Over the whole life of a client, across reconnects, duplicates, cache evictions and
    concurrent deadline or cancel completions, the handler's revisions strictly increase:
    no operation is handled twice.
  */
  lemma HandlerRevisionsIncrease(events: seq<Event>, i: nat, j: nat)
    requires i < j < |Run(INIT, events).handled|
    ensures Run(INIT, events).handled[i].revision < Run(INIT, events).handled[j].revision
  {
    RunKeepsInv(events);
  }

  // ---- What is completed stays completed

  /** The observed revision covers r, and the worker does not stand before the handler at or below it. */
  predicate Past(s: State, r: nat) {
    s.observed >= r && !(s.worker.Cleared? && s.worker.op.revision <= r)
  }

  lemma StepKeepsPast(s: State, e: Event, r: nat)
    requires Past(s, r)
    ensures var t := Step(s, e);
      Past(t, r) && (t.handled == s.handled || (|t.handled| == |s.handled| + 1 && s.handled <= t.handled && t.handled[|s.handled|].revision > r))
  {
  }

  /** From s on, the handler is invoked above r only. */
  ghost predicate RunsAbove(s: State, events: seq<Event>, r: nat) {
    var t := Run(s, events);
    s.handled <= t.handled && forall i | |s.handled| <= i < |t.handled| :: t.handled[i].revision > r
  }

  lemma {:induction false} PastRunsAbove(s: State, events: seq<Event>, r: nat)
    requires Past(s, r)
    ensures Past(Run(s, events), r) && RunsAbove(s, events, r)
  {
    if events != [] {
      var before := events[..|events| - 1];
      PastRunsAbove(s, before, r);
      StepKeepsPast(Run(s, before), events[|events| - 1], r);
    }
  }

  /** Once a revision is observed, nothing at or below it runs any more exactly unless the worker has already passed its last look. */
  lemma PastIsExact(s: State, r: nat)
    requires s.observed >= r
    ensures Past(s, r) <==> forall events :: RunsAbove(s, events, r)
  {
    if Past(s, r) {
      forall events ensures RunsAbove(s, events, r) { PastRunsAbove(s, events, r); }
    } else {
      var t := Run(s, [Invoke]);
      assert [Invoke] == [] + [Invoke];
      RunAppend(s, [], Invoke);
      assert t.handled[|s.handled|] == s.worker.op;
      assert !RunsAbove(s, [Invoke], r);
    }
  }

  /** The receive loop answers for an operation itself: it came late, is completed, or its cancellation finds nothing of it. */
  predicate Completes(s: State, e: Event, op: Operation) {
    && s.receiver == Receiving && !s.session.closed
    && (e == ReceiveLate(op) || e == Cancel(op, true)
      || (e == Cancel(op, false) && op.id !in s.session.running && op.id !in s.session.queued && op.id !in s.session.cancelled))
  }

  lemma {:induction false} WorkerLeavesReceiver(s: State, events: seq<Event>)
    requires forall k | 0 <= k < |events| :: OfWorker(events[k])
    ensures Run(s, events).receiver == s.receiver && Run(s, events).observed >= s.observed
  {
    if events != [] {
      WorkerLeavesReceiver(s, events[..|events| - 1]);
    }
  }

  lemma CompletesToStore(s: State, e: Event, op: Operation)
    requires Completes(s, e, op)
    ensures Step(s, e).receiver == Storing(op.revision)
  {
  }

  /** Then, whatever the worker does meanwhile, the next store covers its revision. */
  lemma CompletionIsStored(s: State, e: Event, op: Operation, meanwhile: seq<Event>)
    requires Completes(s, e, op) && forall k | 0 <= k < |meanwhile| :: OfWorker(meanwhile[k])
    ensures var t := Step(Run(Step(s, e), meanwhile), StoreReceived);
      t.observed >= op.revision && t.receiver == Receiving
  {
    CompletesToStore(s, e, op);
    WorkerLeavesReceiver(Step(s, e), meanwhile);
  }

  /**
    Over a client's life: once the receive loop has completed an operation and stored it, no
    operation at or below its revision is handled any more, unless the worker stood right
    before the handler at the store.
  */
  lemma CompletedNeverRuns(events: seq<Event>, e: Event, op: Operation, meanwhile: seq<Event>, later: seq<Event>)
    requires Completes(Run(INIT, events), e, op) && forall k | 0 <= k < |meanwhile| :: OfWorker(meanwhile[k])
    ensures var t := Step(Run(Step(Run(INIT, events), e), meanwhile), StoreReceived);
      !(t.worker.Cleared? && t.worker.op.revision <= op.revision) ==> RunsAbove(t, later, op.revision)
  {
    CompletionIsStored(Run(INIT, events), e, op, meanwhile);
    var t := Step(Run(Step(Run(INIT, events), e), meanwhile), StoreReceived);
    if Past(t, op.revision) { PastRunsAbove(t, later, op.revision); }
  }

  /** Every other completion stores its revision too. */
  lemma StoresCover(s: State, expired: bool)
    ensures s.receiver.Refused? ==> Step(s, StoreRefused).observed >= s.receiver.op.revision
    ensures s.worker.Stopped? ==> Step(s, StoreStopped(expired)).observed >= s.worker.op.revision
    ensures s.worker.Recording? ==> Step(s, StoreHandled).observed >= s.worker.revision
  {
  }

  /** The revisions of the operations that came, and none. */
  function Revisions(events: seq<Event>): set<nat> {
    {0} + set k | 0 <= k < |events| && (events[k].Check? || events[k].ReceiveLate? || events[k].Cancel?) :: events[k].op.revision
  }

  /** Whatever the engine holds or has stored came in a message. */
  ghost predicate From(s: State, revisions: set<nat>) {
    && s.observed in revisions && (forall op | op in s.queue :: op.revision in revisions)
    && (match s.receiver case Receiving => true case Storing(r) => r in revisions case _ => s.receiver.op.revision in revisions)
    && (match s.worker case Idle => true case Recording(r) => r in revisions case _ => s.worker.op.revision in revisions)
  }

  lemma StepFrom(s: State, e: Event, revisions: set<nat>)
    requires From(s, revisions) && (e.Check? || e.ReceiveLate? || e.Cancel? ==> e.op.revision in revisions)
    ensures From(Step(s, e), revisions)
  {
    if e != End && e != Restart {
      var t := ReceiveStep(s, e);
      assert From(t, revisions);
      assert e == Take && t.worker == Idle && t.queue != [] ==> t.queue[0] in t.queue;
    }
  }

  /** The observed revision is never more than what came. */
  lemma {:induction false} ObservedCame(events: seq<Event>)
    ensures From(Run(INIT, events), Revisions(events))
  {
    if events != [] {
      var before, e := events[..|events| - 1], events[|events| - 1];
      ObservedCame(before);
      assert forall k | 0 <= k < |before| :: before[k] == events[k];
      assert Revisions(before) <= Revisions(events);
      StepFrom(Run(INIT, before), e, Revisions(events));
    }
  }

  // ---- What runs

  /** Nothing of an operation is in the session. */
  predicate Unknown(s: Session, op: Operation) {
    !s.closed && op.id !in s.running && op.id !in s.queued && !Marked(s.cancelled, op) && !Marked(s.expired, op)
  }

  lemma DeliveredIsQueued(s: State, op: Operation)
    requires s.receiver == Receiving && op.revision > s.observed && |s.queue| < QUEUE_SIZE && Unknown(s.session, op)
    ensures Step(Step(Step(s, Check(op)), Enqueue), Send) ==
      s.(queue := s.queue + [op], session := s.session.(queued := s.session.queued[op.id := op.revision]))
  {
  }

  /** The worker takes the oldest one, which is then running and no longer queued. */
  lemma QueuedIsBegun(s: State, op: Operation, rest: seq<Operation>)
    requires s.worker == Idle && s.queue == [op] + rest && !s.session.closed && !Marked(s.session.cancelled, op)
    ensures Step(Step(s, Take), BeginStep(false)) == s.(queue := rest, worker := Begun(op), session := s.session.(
      queued := Unmark(s.session.queued, op), running := s.session.running[op.id := Running(op.revision, false)]))
  {
    assert s.queue[1..] == rest;
  }

  /** And handled, and afterwards observed and no longer running. */
  lemma BegunIsHandled(s: State, op: Operation)
    requires s.worker == Begun(op) && op.revision > s.observed
    requires op.id in s.session.running && s.session.running[op.id].revision == op.revision
    ensures Step(Step(Step(Step(s, Observe), Invoke), Return), StoreHandled) ==
      s.(worker := Idle, observed := op.revision, handled := s.handled + [op], session := s.session.(running := s.session.running - {op.id}))
  {
  }

  function Deliver(s: State, op: Operation): State { Step(Step(Step(s, Check(op)), Enqueue), Send) }

  function Work(s: State): State {
    Step(Step(Step(Step(Step(Step(s, Take), BeginStep(false)), Observe), Invoke), Return), StoreHandled)
  }

  /** A newer operation with nothing against it is handled, and afterwards observed and forgotten. */
  lemma DeliveredIsHandled(s: State, op: Operation)
    requires s.receiver == Receiving && s.worker == Idle && s.queue == [] && op.revision > s.observed && Unknown(s.session, op)
    ensures Work(Deliver(s, op)) == s.(observed := op.revision, handled := s.handled + [op])
  {
    DeliveredIsQueued(s, op);
    var queued := Deliver(s, op);
    QueuedIsBegun(queued, op, []);
    var begun := Step(Step(queued, Take), BeginStep(false));
    assert queued.session.queued - {op.id} == s.session.queued;
    BegunIsHandled(begun, op);
    assert begun.session.running - {op.id} == s.session.running;
  }

  /** An operation that is given up before its handler is not handled and no longer running; a failed one is observed. */
  lemma GivenUpIsOver(s: State, op: Operation, failed: bool)
    requires s.worker == Begun(op) || s.worker == Cleared(op)
    requires op.id in s.session.running && s.session.running[op.id].revision == op.revision
    ensures var t := Step(s, GiveUp(failed));
      && t.handled == s.handled && t.session.running == s.session.running - {op.id} && t.queue == s.queue
      && (if failed then Step(t, StoreHandled).worker == Idle && Step(t, StoreHandled).observed == Max(s.observed, op.revision)
          else t.worker == Idle && t.observed == s.observed)
  {
  }

  predicate AtWork(s: State) { s.worker.Begun? || s.worker.Cleared? || s.worker.Handling? }

  /** Only the operation at hand is running, and only while it is at hand. */
  ghost predicate RunsOne(s: State) {
    && s.session.running.Keys == (if AtWork(s) && !s.session.closed then {s.worker.op.id} else {})
    && (AtWork(s) && !s.session.closed ==> s.session.running[s.worker.op.id].revision == s.worker.op.revision)
  }

  lemma ReceiveKeepsOne(s: State, e: Event)
    requires RunsOne(s)
    ensures RunsOne(ReceiveStep(s, e))
  {
    if e.Cancel? && !s.session.closed && e.op.id in s.session.running {
      assert s.session.running[e.op.id := Running(e.op.revision, true)].Keys == s.session.running.Keys;
    }
  }

  lemma WorkerKeepsOne(s: State, e: Event)
    requires RunsOne(s)
    ensures RunsOne(WorkerStep(s, e))
  {
  }

  lemma {:induction false} OnlyOneRuns(events: seq<Event>)
    ensures RunsOne(Run(INIT, events))
  {
    if events != [] {
      var before, e := Run(INIT, events[..|events| - 1]), events[|events| - 1];
      OnlyOneRuns(events[..|events| - 1]);
      if e != End && e != Restart {
        ReceiveKeepsOne(before, e);
        WorkerKeepsOne(ReceiveStep(before, e), e);
      }
    }
  }

  /** A queued operation whose deadline passed is stopped, observed and forgotten. */
  lemma LateIsDropped(s: State, op: Operation)
    requires s.worker == Taken(op) && Unknown(s.session, op)
    ensures var t := Step(Step(Step(s, BeginStep(true)), StoreStopped(true)), CleanStep);
      t == s.(worker := Idle, observed := Max(s.observed, op.revision), session := s.session.(expired := Unmark(t.session.expired, op)))
      && !Marked(t.session.expired, op)
  {
  }

  /** A queued operation with a cancelled mark is stopped, observed and forgotten. */
  lemma CancelledIsDropped(s: State, op: Operation, late: bool)
    requires s.worker == Taken(op) && !s.session.closed && Marked(s.session.cancelled, op)
    ensures var t := Step(Step(Step(s, BeginStep(late)), StoreStopped(false)), CleanStep);
      && t.worker == Idle && t.handled == s.handled && t.observed == Max(s.observed, op.revision) && t.queue == s.queue
      && !Marked(t.session.queued, op) && !Marked(t.session.cancelled, op) && t.session.running == s.session.running
  {
  }

  /** A delivery of an operation that has a cancelled or expired mark is answered at once: it is not queued, and the marks go. */
  lemma MarkedIsRefused(s: State, op: Operation)
    requires s.receiver == Receiving && !s.session.closed && op.revision > s.observed
    requires Marked(s.session.cancelled, op) || Marked(s.session.expired, op)
    ensures var t := Step(Step(Step(Step(s, Check(op)), Enqueue), StoreRefused), Forget);
      && t.receiver == Receiving && t.queue == s.queue && t.observed == op.revision && t.worker == s.worker
      && !Marked(t.session.cancelled, op) && !Marked(t.session.expired, op) && !Marked(t.session.queued, op)
      && t.session.running == s.session.running
  {
  }

  /** The queue holds no more than its size; an operation too many is not left marked as queued. */
  lemma {:induction false} QueueIsBounded(events: seq<Event>)
    ensures |Run(INIT, events).queue| <= QUEUE_SIZE
  {
    if events != [] { QueueIsBounded(events[..|events| - 1]); }
  }

  lemma TooManyIsForgotten(s: State, op: Operation)
    requires s.receiver == Receiving && op.revision > s.observed && |s.queue| == QUEUE_SIZE && Unknown(s.session, op)
    ensures Step(Step(Step(s, Check(op)), Enqueue), Send) == s
  {
    var t := Step(Step(s, Check(op)), Enqueue);
    assert t.session.queued - {op.id} == s.session.queued;
  }

  /** What is not newer than the observed revision is not looked at. */
  lemma OldIsIgnored(s: State, op: Operation)
    requires op.revision <= s.observed
    ensures Step(s, Check(op)) == s
  {
  }

  /** A cancellation of the running operation marks it, and finishing it tells; without one it does not. */
  lemma RunningCancelTells(s: Session, op: Operation)
    requires !s.closed && !Marked(s.cancelled, op)
    ensures var begun := Begin(s, op, false).0;
      && !Finish(begun, op).1
      && RequestCancel(begun, op).1 == Live && Finish(RequestCancel(begun, op).0, op).1
      && op.id !in Finish(RequestCancel(begun, op).0, op).0.running
  {
  }

  /** Finishing what is not running changes and tells nothing. */
  lemma FinishNeedsRunning(s: Session, op: Operation)
    requires !(op.id in s.running && s.running[op.id].revision == op.revision)
    ensures Finish(s, op) == (s, false)
  {
  }

  /** While an operation is dropped as late, another copy of it is refused, and afterwards not any more. */
  lemma LateRefusesCopies(s: Session, op: Operation)
    requires !s.closed && !Marked(s.cancelled, op)
    ensures var late := Begin(s, op, true).0;
      Begin(s, op, true).1 && Queue(late, op).1 && !Queue(FinishExpired(late, op), op).1 && late.running == s.running
  {
  }

  /** What a cancellation is answered, and that all but two answers change nothing. */
  lemma CancelAnswers(s: Session, op: Operation)
    ensures var (t, verdict) := RequestCancel(s, op);
      && (verdict == Live <==> !s.closed && op.id in s.running && s.running[op.id].revision == op.revision)
      && (verdict == StillQueued <==> !s.closed && op.id !in s.running && Marked(s.queued, op))
      && (verdict == NotRunning <==> !s.closed && op.id !in s.running && op.id !in s.queued && op.id !in s.cancelled)
      && (verdict == AlreadyCancelled <==> !s.closed && op.id !in s.running && op.id !in s.queued && Marked(s.cancelled, op))
      && (verdict != Live && verdict != StillQueued ==> t == s)
      && (verdict == StillQueued ==> Marked(t.cancelled, op) && t == s.(cancelled := t.cancelled))
  {
  }

  /** A session that ended begins nothing: what is not past its begin is never handled in it. */
  lemma {:induction false} ClosedBeginsNothing(s: State, events: seq<Event>)
    requires s.session.closed && !s.worker.Begun? && !s.worker.Cleared? && s.receiver == Receiving
    requires forall k | 0 <= k < |events| :: events[k] != Restart
    ensures var t := Run(s, events);
      t.session.closed && !t.worker.Begun? && !t.worker.Cleared? && t.handled == s.handled && t.receiver == Receiving
  {
    if events != [] {
      ClosedBeginsNothing(s, events[..|events| - 1]);
    }
  }

  /** The next session starts with nothing of the last one but the observed revision, once the worker is idle. */
  lemma NextSessionIsFresh(s: State, op: Operation)
    ensures Step(s, End).session.closed && Step(s, End).observed == s.observed && Step(s, End).worker == s.worker
    ensures var t := Step(s, Restart);
      if s.session.closed && s.worker == Idle then
        t.observed == s.observed && t.handled == s.handled && t.queue == [] && t.worker == Idle && t.receiver == Receiving && Unknown(t.session, op)
      else t == s
  {
  }

  /**
    A cancellation accepted against a still-queued operation keeps the handler from running
    it for the rest of the session, even if it was queued twice, unless the session also
    accepted a cancellation of another revision of the same id.
  */
  lemma CancelledOperationNeverRuns(events: seq<Event>, e: Event, op: Operation)
    requires Accepted(Run(INIT, events), op)
    ensures !Invokes(Run(INIT, events), e, op)
  {
    RunKeepsInv(events);
  }

  /** Which ids only ever come with one revision. */
  ghost predicate KeepsRevision(events: seq<Event>, id: Id, revision: nat) {
    forall k | 0 <= k < |events| && (events[k].Check? || events[k].ReceiveLate?) :: events[k].op.id == id ==> events[k].op.revision == revision
  }

  /** Every copy of `id` anywhere in the engine has `revision`. */
  ghost predicate OneRevision(s: State, id: Id, revision: nat) {
    && (id in s.session.queued ==> s.session.queued[id] == revision)
    && (forall op | op in s.accepted :: op.id == id ==> op.revision == revision)
    && (s.receiver.Checked? || s.receiver.Queued? ==> s.receiver.op.id == id ==> s.receiver.op.revision == revision)
  }

  lemma {:induction false} KeptRevisionIsTheOnlyOne(events: seq<Event>, id: Id, revision: nat)
    requires KeepsRevision(events, id, revision)
    ensures OneRevision(Run(INIT, events), id, revision)
  {
    if events != [] {
      var before := events[..|events| - 1];
      assert forall k | 0 <= k < |before| :: before[k] == events[k];
      KeptRevisionIsTheOnlyOne(before, id, revision);
      OneRevisionStep(Run(INIT, before), events[|events| - 1], id, revision);
    }
  }

  lemma OneRevisionStep(s: State, e: Event, id: Id, revision: nat)
    requires OneRevision(s, id, revision)
    requires (e.Check? || e.ReceiveLate?) && e.op.id == id ==> e.op.revision == revision
    ensures OneRevision(Step(s, e), id, revision)
  {
    OneRevisionReceive(s, e, id, revision);
    OneRevisionWorker(ReceiveStep(s, e), e, id, revision);
  }

  lemma OneRevisionWorker(s: State, e: Event, id: Id, revision: nat)
    requires OneRevision(s, id, revision)
    ensures OneRevision(WorkerStep(s, e), id, revision)
  {
  }

  lemma OneRevisionReceive(s: State, e: Event, id: Id, revision: nat)
    requires OneRevision(s, id, revision)
    requires (e.Check? || e.ReceiveLate?) && e.op.id == id ==> e.op.revision == revision
    ensures OneRevision(ReceiveStep(s, e), id, revision)
  {
  }

  /** For an id that keeps one revision the guarantee is unconditional. */
  lemma CancelledIdNeverRuns(events: seq<Event>, e: Event, op: Operation)
    requires KeepsRevision(events, op.id, op.revision)
    requires op in Run(INIT, events).accepted
    ensures !Invokes(Run(INIT, events), e, op)
  {
    KeptRevisionIsTheOnlyOne(events, op.id, op.revision);
    CancelledOperationNeverRuns(events, e, op);
  }

  lemma RunAppend(s: State, events: seq<Event>, e: Event)
    ensures Run(s, events + [e]) == Step(Run(s, events), e)
  {
    assert (events + [e])[..|events|] == events;
  }

  lemma RunTwo(s: State, events: seq<Event>, e0: Event, e1: Event)
    ensures Run(s, events + [e0, e1]) == Step(Step(Run(s, events), e0), e1)
  {
    assert events + [e0, e1] == events + [e0] + [e1];
    RunAppend(s, events + [e0], e1);
    RunAppend(s, events, e0);
  }

  lemma RunFour(s: State, events: seq<Event>, e0: Event, e1: Event, e2: Event, e3: Event)
    ensures Run(s, events + [e0, e1, e2, e3]) == Step(Step(Step(Step(Run(s, events), e0), e1), e2), e3)
  {
    assert events + [e0, e1, e2, e3] == events + [e0, e1] + [e2, e3];
    RunTwo(s, events + [e0, e1], e2, e3);
    RunTwo(s, events, e0, e1);
  }

  /** An operation that is delivered, queued and cancelled while it waits. */
  lemma QueueThenCancel(s: State, op: Operation)
    requires s.receiver == Receiving && !s.session.closed && op.revision > s.observed && |s.queue| < QUEUE_SIZE
    requires op.id !in s.session.running && !Marked(s.session.cancelled, op) && !Marked(s.session.expired, op)
    ensures Step(Step(Step(Step(s, Check(op)), Enqueue), Send), Cancel(op, false)) ==
      s.(queue := s.queue + [op], accepted := s.accepted + {op}, session := s.session.(
        queued := s.session.queued[op.id := op.revision], cancelled := s.session.cancelled[op.id := op.revision]))
  {
  }

  /** A queued operation without a cancelled mark of its revision gets past every check. */
  lemma HeadIsCleared(s: State)
    requires s.worker == Idle && !s.session.closed && s.queue != []
    requires !Marked(s.session.cancelled, s.queue[0]) && s.queue[0].revision > s.observed
    requires s.receiver == Receiving
    ensures var t := Step(Step(Step(Step(s, Take), BeginStep(false)), Observe), Forget);
      t.worker == Cleared(s.queue[0]) && t.accepted == s.accepted
  {
  }

  /** The deliveries of an id are at some of the given revisions. */
  ghost predicate Delivers(events: seq<Event>, id: Id, revisions: set<nat>) {
    forall k | 0 <= k < |events| && (events[k].Check? || events[k].ReceiveLate?) ::
      events[k].op.id == id ==> events[k].op.revision in revisions
  }

  /** However an id is delivered at these revisions, an accepted cancellation of it keeps the handler away. */
  ghost predicate CancelHolds(id: Id, revisions: set<nat>) {
    forall events: seq<Event>, op: Operation | Delivers(events, id, revisions) && op.id == id && op in Run(INIT, events).accepted ::
      !Invokes(Run(INIT, events), Invoke, op)
  }

  /**
    A session keeps one cancelled mark per id, so cancelling a second revision of a queued id
    overwrites the mark of the first one, which then runs: for every id and any two revisions.
  */
  lemma SecondRevisionLosesTheMark(id: Id, r: nat, q: nat) returns (events: seq<Event>)
    requires 0 < r && 0 < q && r != q
    ensures Delivers(events, id, {r, q})
    ensures Operation(id, r) in Run(INIT, events).accepted
    ensures Invokes(Run(INIT, events), Invoke, Operation(id, r))
  {
    var a := Operation(id, r);
    var waiting := BothCancelled(id, r, q);
    RunFour(INIT, waiting, Take, BeginStep(false), Observe, Forget);
    HeadIsCleared(Run(INIT, waiting));
    events := waiting + [Take, BeginStep(false), Observe, Forget];
  }

  /** Two revisions of an id queued and cancelled: the mark is the second one's. */
  lemma BothCancelled(id: Id, r: nat, q: nat) returns (events: seq<Event>)
    requires 0 < r && 0 < q && r != q
    ensures Delivers(events, id, {r, q})
    ensures var s := Run(INIT, events);
      && s.receiver == Receiving && s.worker == Idle && s.observed == 0 && !s.session.closed
      && s.queue == [Operation(id, r), Operation(id, q)] && Operation(id, r) in s.accepted
      && s.session.cancelled == map[id := q]
  {
    var a, b := Operation(id, r), Operation(id, q);
    var first := [Check(a), Enqueue, Send, Cancel(a, false)];
    assert first == [] + first;
    QueuedAndCancelled(a, [], first);
    events := first + [Check(b), Enqueue, Send, Cancel(b, false)];
    QueuedAndCancelled(b, first, events);
  }

  lemma QueuedAndCancelled(op: Operation, before: seq<Event>, after: seq<Event>)
    requires after == before + [Check(op), Enqueue, Send, Cancel(op, false)]
    requires var s := Run(INIT, before);
      && s.receiver == Receiving && !s.session.closed && op.revision > s.observed && |s.queue| < QUEUE_SIZE
      && op.id !in s.session.running && !Marked(s.session.cancelled, op) && !Marked(s.session.expired, op)
    ensures var s := Run(INIT, before);
      Run(INIT, after) == s.(queue := s.queue + [op], accepted := s.accepted + {op}, session := s.session.(
        queued := s.session.queued[op.id := op.revision], cancelled := s.session.cancelled[op.id := op.revision]))
  {
    RunFour(INIT, before, Check(op), Enqueue, Send, Cancel(op, false));
    QueueThenCancel(Run(INIT, before), op);
  }

  lemma OnlyRevision(events: seq<Event>, id: Id, revisions: set<nat>, op: Operation)
    requires Delivers(events, id, revisions) && op.id == id && op in Run(INIT, events).accepted
    requires forall r, q | r in revisions && q in revisions :: r == q
    ensures KeepsRevision(events, id, op.revision)
  {
    if r :| r in revisions {
      KeptRevisionIsTheOnlyOne(events, id, r);
    }
  }

  /** Cancellation holds exactly for ids that are delivered at one revision only. */
  lemma CancelHoldsIffOneRevision(id: Id, revisions: set<nat>)
    requires 0 !in revisions
    ensures CancelHolds(id, revisions) <==> forall r, q | r in revisions && q in revisions :: r == q
  {
    if r, q :| r in revisions && q in revisions && r != q {
      var events := SecondRevisionLosesTheMark(id, r, q);
      assert Delivers(events, id, revisions);
    } else {
      forall events: seq<Event>, op: Operation | Delivers(events, id, revisions) && op.id == id && op in Run(INIT, events).accepted
        ensures !Invokes(Run(INIT, events), Invoke, op)
      {
        OnlyRevision(events, id, revisions, op);
        CancelledIdNeverRuns(events, Invoke, op);
      }
    }
  }

  /**
    The engine as the client runs it: the session's maps and flag, the queue, where the receive
    loop and the worker stand, and the observed revision.  Each method is one critical section
    or one atomic access.
  */
  class Engine {
    var observed: nat
    var running: map<Id, Running>
    var queued: map<Id, nat>
    var cancelled: map<Id, nat>
    var expired: map<Id, nat>
    var closed: bool
    var queue: seq<Operation>
    var receiver: Receiver
    var worker: Worker
    ghost var handled: seq<Operation>
    ghost var accepted: set<Operation>

    ghost function Maps(): Session
      reads this
    {
      Session(running, queued, cancelled, expired, closed)
    }

    ghost function View(): State
      reads this
    {
      State(observed, Maps(), queue, receiver, worker, handled, accepted)
    }

    constructor ()
      ensures View() == INIT
    {
      observed, queue, receiver, worker := 0, [], Receiving, Idle;
      running, queued, cancelled, expired, closed := map[], map[], map[], map[], false;
      handled, accepted := [], {};
    }

    method QueueOp(op: Operation) returns (refused: bool)
      modifies this`queued
      ensures (Maps(), refused) == Queue(old(Maps()), op)
    {
      if closed { return true; }
      if op.id in cancelled && cancelled[op.id] == op.revision { return true; }
      if op.id in expired && expired[op.id] == op.revision { return true; }
      queued := queued[op.id := op.revision];
      return false;
    }

    method BeginOp(op: Operation, late: bool) returns (stop: bool)
      modifies this`queued, this`expired, this`running
      ensures (Maps(), stop) == Begin(old(Maps()), op, late)
    {
      if closed { return true; }
      if op.id in queued && queued[op.id] == op.revision { queued := queued - {op.id}; }
      if op.id in cancelled && cancelled[op.id] == op.revision { return true; }
      if late {
        expired := expired[op.id := op.revision];
        return true;
      }
      running := running[op.id := Running(op.revision, false)];
      return false;
    }

    method RequestCancelOp(op: Operation) returns (verdict: Verdict)
      modifies this`running, this`cancelled
      ensures (Maps(), verdict) == RequestCancel(old(Maps()), op)
    {
      if closed { return Rejected; }
      if op.id in running {
        if running[op.id].revision != op.revision { return Rejected; }
        running := running[op.id := running[op.id].(cancelled := true)];
        return Live;
      }
      if op.id in queued {
        if queued[op.id] != op.revision { return Rejected; }
        cancelled := cancelled[op.id := op.revision];
        return StillQueued;
      }
      if op.id in cancelled {
        return if cancelled[op.id] != op.revision then Rejected else AlreadyCancelled;
      }
      return NotRunning;
    }

    method FinishCancellationOp(op: Operation)
      modifies this`queued, this`cancelled, this`expired
      ensures Maps() == FinishCancellation(old(Maps()), op)
    {
      if op.id in queued && queued[op.id] == op.revision { queued := queued - {op.id}; }
      if op.id in cancelled && cancelled[op.id] == op.revision { cancelled := cancelled - {op.id}; }
      if op.id in expired && expired[op.id] == op.revision { expired := expired - {op.id}; }
    }

    method FinishOp(op: Operation) returns (wasCancelled: bool)
      modifies this`running
      ensures (Maps(), wasCancelled) == Finish(old(Maps()), op)
    {
      if op.id !in running || running[op.id].revision != op.revision { return false; }
      wasCancelled := running[op.id].cancelled;
      running := running - {op.id};
    }

    method StoreMax(revision: nat)
      modifies this`observed
      ensures observed == Max(old(observed), revision)
    {
      if revision > observed { observed := revision; }
    }

    /** The steps of acceptOperation and cancelOperation. */
    method Receive(e: Event)
      requires !OfWorker(e) && !e.End? && !e.Restart?
      modifies this
      ensures View() == Step(old(View()), e)
    {
      match e {
        case Check(op) =>
          if receiver == Receiving && !closed && op.revision > observed { receiver := Checked(op); }
        case ReceiveLate(op) =>
          if receiver == Receiving && !closed { receiver := Storing(op.revision); }
        case Enqueue =>
          if receiver.Checked? {
            var op := receiver.op;
            var refused := QueueOp(op);
            receiver := if refused then Refused(op) else Queued(op);
          }
        case Send =>
          if receiver.Queued? { SendToWorker(); }
        case StoreRefused =>
          if receiver.Refused? {
            StoreMax(receiver.op.revision);
            receiver := Forgetting(receiver.op);
          }
        case Forget =>
          if receiver.Forgetting? {
            FinishCancellationOp(receiver.op);
            receiver := Receiving;
          }
        case Cancel(op, completed) =>
          if receiver == Receiving && !closed { CancelOp(op, completed); }
        case StoreReceived =>
          if receiver.Storing? {
            StoreMax(receiver.revision);
            receiver := Receiving;
          }
        case _ =>
      }
    }

    /** The queue takes the operation, or it is full and the queued mark goes again. */
    method SendToWorker()
      requires receiver.Queued?
      modifies this`queue, this`queued, this`receiver
      ensures View() == ReceiveStep(old(View()), Event.Send)
    {
      var op := receiver.op;
      if |queue| < QUEUE_SIZE {
        queue := queue + [op];
      } else if op.id in queued && queued[op.id] == op.revision {
        queued := queued - {op.id};
      }
      receiver := Receiving;
    }

    method CancelOp(op: Operation, completed: bool)
      requires receiver == Receiving && !closed
      modifies this`running, this`cancelled, this`receiver, this`accepted
      ensures View() == ReceiveStep(old(View()), Event.Cancel(op, completed))
    {
      if completed {
        receiver := Storing(op.revision);
        return;
      }
      var verdict := RequestCancelOp(op);
      if verdict == NotRunning { receiver := Storing(op.revision); }
      if verdict == StillQueued { accepted := accepted + {op}; }
    }

    /** The steps of the worker's executeOperation up to the stopped operations' end. */
    method Prepare(e: Event)
      requires e.Take? || e.BeginStep? || e.StoreStopped? || e.CleanStep?
      modifies this
      ensures View() == Step(old(View()), e)
    {
      match e {
        case Take =>
          if worker == Idle && queue != [] { worker, queue := Taken(queue[0]), queue[1..]; }
        case BeginStep(late) =>
          if worker.Taken? {
            var op := worker.op;
            var stop := BeginOp(op, late);
            worker := if stop then Stopped(op) else Begun(op);
          }
        case StoreStopped(expired') =>
          if worker.Stopped? {
            StoreMax(worker.op.revision);
            worker := Cleaning(worker.op, expired');
          }
        case CleanStep =>
          if worker.Cleaning? { CleanUp(); }
        case _ =>
      }
    }

    method CleanUp()
      requires worker.Cleaning?
      modifies this`queued, this`cancelled, this`expired, this`worker
      ensures View() == WorkerStep(old(View()), CleanStep)
    {
      var op := worker.op;
      if !worker.expired {
        FinishCancellationOp(op);
      } else if op.id in expired && expired[op.id] == op.revision {
        expired := expired - {op.id};
      }
      worker := Idle;
    }

    /** The steps of a begun operation: give up, pass the revision check, run the handler, record it. */
    method Work(e: Event)
      requires e.GiveUp? || e.Observe? || e.Invoke? || e.Return? || e.StoreHandled?
      modifies this
      ensures View() == Step(old(View()), e)
    {
      match e {
        case GiveUp(failed) =>
          if worker.Begun? || worker.Cleared? { Leave(failed); }
        case Observe =>
          if worker.Begun? { ObserveRevision(); }
        case Invoke =>
          if worker.Cleared? { handled, worker := handled + [worker.op], Handling(worker.op); }
        case Return =>
          if worker.Handling? { Leave(true); }
        case StoreHandled =>
          if worker.Recording? {
            StoreMax(worker.revision);
            worker := Idle;
          }
        case _ =>
      }
    }

    /** Finishes the operation at hand and goes on to record its revision, or to the next one. */
    method Leave(record: bool)
      requires worker.Begun? || worker.Cleared? || (worker.Handling? && record)
      modifies this`running, this`worker
      ensures View() == WorkerStep(old(View()), if old(worker).Handling? then Return else GiveUp(record))
    {
      var op := worker.op;
      var _ := FinishOp(op);
      worker := if record then Recording(op.revision) else Idle;
    }

    /** The last look at the observed revision before the handler. */
    method ObserveRevision()
      requires worker.Begun?
      modifies this`running, this`worker
      ensures View() == WorkerStep(old(View()), Observe)
    {
      var op := worker.op;
      if op.revision <= observed {
        var _ := FinishOp(op);
        worker := Idle;
      } else {
        worker := Cleared(op);
      }
    }

    /** The end of a session. */
    method EndSession()
      modifies this
      ensures View() == Step(old(View()), End)
    {
      if !closed {
        closed := true;
        running, queued, cancelled, expired := map[], map[], map[], map[];
      }
      receiver := Receiving;
    }

    /** The next session, once the worker of the last one is joined. */
    method NextSession()
      modifies this
      ensures View() == Step(old(View()), Restart)
    {
      if !closed || worker != Idle { return; }
      running, queued, cancelled, expired, closed := map[], map[], map[], map[], false;
      queue, receiver, accepted := [], Receiving, {};
    }

    /** Every critical section is the machine's step. */
    method Perform(e: Event)
      modifies this
      ensures View() == Step(old(View()), e)
    {
      if e.End? {
        EndSession();
      } else if e.Restart? {
        NextSession();
      } else if e.Take? || e.BeginStep? || e.StoreStopped? || e.CleanStep? {
        Prepare(e);
      } else if e.GiveUp? || e.Observe? || e.Invoke? || e.Return? || e.StoreHandled? {
        Work(e);
      } else {
        Receive(e);
      }
    }

    /**
      A client's life, from its start over any interleaving: the handler's revisions strictly
      increase, and it is never about to run an operation whose cancellation was accepted, for
      an id that came at one revision.
    */
    method LiveThrough(events: seq<Event>)
      requires View() == INIT
      modifies this
      ensures View() == Run(INIT, events) && Increasing(handled)
      ensures forall op | op in accepted && KeepsRevision(events, op.id, op.revision) :: worker != Cleared(op)
    {
      for k := 0 to |events|
        invariant View() == Run(INIT, events[..k])
      {
        RunAppend(INIT, events[..k], events[k]);
        assert events[..k + 1] == events[..k] + [events[k]];
        Perform(events[k]);
      }
      assert events[..|events|] == events;
      RunKeepsInv(events);
      forall op | op in accepted && KeepsRevision(events, op.id, op.revision) ensures worker != Cleared(op) {
        CancelledIdNeverRuns(events, Invoke, op);
      }
    }
  }

  const CACHE_SIZE := 256

  /** The newest `CACHE_SIZE` ids, in order of completion. */
  function Newest(order: seq<Id>): seq<Id> {
    if |order| <= CACHE_SIZE then order else order[|order| - CACHE_SIZE..]
  }

  ghost predicate Distinct(order: seq<Id>) {
    forall i, j | 0 <= i < j < |order| :: order[i] != order[j]
  }

  /** The cache holds exactly the ids of its order. */
  ghost predicate Holds(completed: map<Id, nat>, order: seq<Id>) {
    Distinct(order) && forall id :: id in completed <==> id in order
  }

  ghost predicate Below(completed: map<Id, nat>, observed: nat) {
    forall id | id in completed :: completed[id] <= observed
  }

  /** What is left of a cache. */
  ghost predicate PartOf(part: map<Id, nat>, whole: map<Id, nat>) {
    forall id | id in part :: id in whole && part[id] == whole[id]
  }

  lemma PartIsBelow(part: map<Id, nat>, whole: map<Id, nat>, id: Id, revision: nat, observed: nat)
    requires PartOf(part, whole[id := revision]) && Below(whole, observed) && revision <= observed
    ensures Below(part, observed)
  {
  }

  lemma HoldsOneMore(completed: map<Id, nat>, order: seq<Id>, id: Id, revision: nat)
    requires Holds(completed, order) && id !in completed
    ensures Holds(completed[id := revision], order + [id])
  {
    var longer := order + [id];
    assert longer[|order|] == id;
    assert forall i | 0 <= i < |order| :: longer[i] == order[i] && longer[i] in order;
  }

  lemma HoldsOneLess(completed: map<Id, nat>, order: seq<Id>)
    requires Holds(completed, order) && order != []
    ensures Holds(completed - {order[0]}, order[1..])
  {
    assert order == [order[0]] + order[1..];
  }

  lemma NewestHasTheLast(order: seq<Id>, id: Id)
    ensures id in Newest(order + [id])
  {
    var newest := Newest(order + [id]);
    assert newest[|newest| - 1] == id;
  }

  /** The value after some stores, each of which only raises it. */
  function Stored(value: nat, stores: seq<nat>): nat {
    if stores == [] then value else Max(Stored(value, stores[..|stores| - 1]), stores[|stores| - 1])
  }

  lemma {:induction false} StoredGrows(value: nat, stores: seq<nat>)
    ensures value <= Stored(value, stores) && forall v | v in stores :: v <= Stored(value, stores)
  {
    if stores != [] {
      StoredGrows(value, stores[..|stores| - 1]);
      assert stores == stores[..|stores| - 1] + [stores[|stores| - 1]];
    }
  }

  /** The revision and the completed cache a client keeps across sessions. */
  class Client {
    var observed: nat
    var completed: map<Id, nat>
    var completedOrder: seq<Id>

    /** The cache holds each id of its order once, and only revisions that are observed. */
    ghost predicate Valid()
      reads this
    {
      && Holds(completed, completedOrder)
      && Below(completed, observed)
      && |completedOrder| <= CACHE_SIZE
    }

    constructor ()
      ensures Valid() && observed == 0 && completed == map[]
    {
      observed, completed, completedOrder := 0, map[], [];
    }

    /**
      storeMax: loads, compares and swaps, and starts over when the other loop stored something
      in between; `others` is what it stores, one value an attempt.  The outcome is that of the
      other stores and then this one.
    */
    method StoreObserved(revision: nat, others: seq<nat>) returns (used: nat)
      modifies this`observed
      ensures used <= |others| && observed == Max(Stored(old(observed), others[..used]), revision)
    {
      used := 0;
      while true
        invariant used <= |others| && observed == Stored(old(observed), others[..used])
        decreases |others| - used
      {
        var current := observed;
        if revision <= current { return; }
        if used < |others| {
          assert others[..used + 1][..used] == others[..used];
          observed, used := Max(observed, others[used]), used + 1;
        }
        if observed == current {
          observed := revision;
          return;
        }
      }
    }

    /** Drops the oldest completions over the cache's size. */
    method Evict()
      requires Holds(completed, completedOrder)
      modifies this`completed, this`completedOrder
      ensures Holds(completed, completedOrder)
      ensures completedOrder == Newest(old(completedOrder))
      ensures PartOf(completed, old(completed))
    {
      var drop := 0;
      while |completedOrder| > CACHE_SIZE
        invariant drop <= |old(completedOrder)| && completedOrder == old(completedOrder)[drop..]
        invariant drop == 0 || |completedOrder| >= CACHE_SIZE
        invariant Holds(completed, completedOrder)
        invariant PartOf(completed, old(completed))
      {
        HoldsOneLess(completed, completedOrder);
        completed := completed - {completedOrder[0]};
        completedOrder := completedOrder[1..];
        drop := drop + 1;
      }
    }

    /** completeCancelledOperation and completeFailedOperation: store the revision, then remember it. */
    method Complete(op: Operation, others: seq<nat>) returns (used: nat)
      requires Valid()
      modifies this
      ensures Valid() && used <= |others| && observed == Max(Stored(old(observed), others[..used]), op.revision)
      ensures completedOrder == if op.id in old(completed) then old(completedOrder) else Newest(old(completedOrder) + [op.id])
      ensures op.id in completed && completed[op.id] == op.revision
      ensures forall id | id in completed && id != op.id :: id in old(completed) && completed[id] == old(completed[id])
    {
      used := StoreObserved(op.revision, others);
      StoredGrows(old(observed), others[..used]);
      Remember(op);
    }

    /** rememberCompleted: adds the operation to the cache and drops the oldest over its size. */
    method Remember(op: Operation)
      requires Valid() && op.revision <= observed
      modifies this`completed, this`completedOrder
      ensures Valid()
      ensures completedOrder == if op.id in old(completed) then old(completedOrder) else Newest(old(completedOrder) + [op.id])
      ensures op.id in completed && completed[op.id] == op.revision
      ensures forall id | id in completed && id != op.id :: id in old(completed) && completed[id] == old(completed[id])
    {
      ghost var before := completed;
      NewestHasTheLast(completedOrder, op.id);
      if op.id !in completed {
        HoldsOneMore(completed, completedOrder, op.id, op.revision);
        completedOrder := completedOrder + [op.id];
      }
      completed := completed[op.id := op.revision];
      Evict();
      PartIsBelow(completed, before, op.id, op.revision, observed);
    }
  }
}
