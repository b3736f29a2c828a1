/**
  The Supervisor's operation journal (Supervisor.handle and load in plugin/supervisor.go).

  Callers race for one mutex: each critical section is one event, the journal on disk
  is the last one written, a write may fail, and the process may crash at any point and
  load the file again.
*/
module PluginJournal {

  /** Operation ids and idempotency keys; a body is what journalMatches compares besides them. */
  type Id = nat
  type Key = nat
  type Body = nat

  datatype Request = Request(id: Id, key: Key, body: Body)

  datatype Outcome = Succeeded(result: nat) | Failed(error: nat)

  datatype Phase = Running | Interrupted | Done(outcome: Outcome)

  datatype Entry = Entry(key: Key, body: Body, phase: Phase)

  type Entries = map<Id, Entry>

  /**
    What is in memory and on disk.  `waiting` are the ids with a done channel; `executors`
    are the callers between their admission and their completion.
  */
  datatype State = State(open: bool, memory: Entries, disk: Entries, waiting: set<Id>, executors: multiset<Id>)

  datatype Event =
    | Deliver(request: Request, written: bool)
    | Complete(id: Id, outcome: Outcome, written: bool)
    | OtherPersist
    | Crash
    | Load(written: bool)

  datatype Reply =
    | Closed
    | IdBound
    | KeyBound
    | Answer(outcome: Outcome)
    | Wait
    | Retry
    | WriteFailed
    | Execute(repair: bool)
    | Nothing

  const INIT := State(true, map[], map[], {}, multiset{})

  predicate Matches(e: Entry, request: Request) {
    e.key == request.key && e.body == request.body
  }

  predicate KeyTaken(entries: Entries, request: Request) {
    exists id | id in entries :: id != request.id && entries[id].key == request.key
  }

  function Recovered(entries: Entries): Entries {
    map id | id in entries :: if entries[id].phase.Running? then entries[id].(phase := Interrupted) else entries[id]
  }

  /** The admission loop's critical section. */
  function Admit(s: State, request: Request, written: bool): (State, Reply) {
    var known := request.id in s.memory;
    if !s.open then (s, Closed)
    else if known && !Matches(s.memory[request.id], request) then (s, IdBound)
    else if known && s.memory[request.id].phase.Done? then (s, Answer(s.memory[request.id].phase.outcome))
    else if known && s.memory[request.id].phase.Running? && request.id in s.waiting then (s, Wait)
    else if known && s.memory[request.id].phase.Running? then
      var memory := s.memory[request.id := s.memory[request.id].(phase := Interrupted)];
      (s.(memory := memory, disk := if written then memory else s.disk), Retry)
    else if KeyTaken(s.memory, request) then (s, KeyBound)
    else
      var memory := s.memory[request.id := Entry(request.key, request.body, Running)];
      if written then
        (State(s.open, memory, memory, s.waiting + {request.id}, s.executors + multiset{request.id}), Execute(known))
      else (s.(memory := s.memory - {request.id}, waiting := s.waiting - {request.id}), WriteFailed)
  }

  function Step(s: State, e: Event): (State, Reply) {
    match e
    case Deliver(request, written) => Admit(s, request, written)
    case Complete(id, outcome, written) =>
      if id in s.executors && id in s.memory then
        var memory := s.memory[id := s.memory[id].(phase := Done(outcome))];
        (State(s.open, memory, if written then memory else s.disk, s.waiting - {id}, s.executors - multiset{id}), Nothing)
      else (s, Nothing)
    case OtherPersist => (if s.open then s.(disk := s.memory) else s, Nothing)
    case Crash => (State(false, map[], s.disk, {}, multiset{}), Nothing)
    case Load(written) =>
      if s.open then (s, Nothing)
      else
        var memory := Recovered(s.disk);
        if memory == s.disk || written then (State(true, memory, memory, {}, multiset{}), Nothing)
        else (s, Nothing)
  }

  function Run(s: State, events: seq<Event>): State {
    if events == [] then s else Step(Run(s, events[..|events| - 1]), events[|events| - 1]).0
  }

  /** What the k-th event of a run answers. */
  function ReplyAt(s: State, events: seq<Event>, k: nat): Reply
    requires k < |events|
  {
    Step(Run(s, events[..k]), events[k]).1
  }

  ghost predicate UniqueKeys(entries: Entries) {
    forall a, b | a in entries && b in entries && a != b :: entries[a].key != entries[b].key
  }

  /** `id` is recorded as finished with `outcome` for `request`. */
  predicate Recorded(entries: Entries, request: Request, outcome: Outcome) {
    request.id in entries && entries[request.id] == Entry(request.key, request.body, Done(outcome))
  }

  ghost predicate Inv(s: State) {
    && UniqueKeys(s.memory) && UniqueKeys(s.disk)
    && (forall id :: s.executors[id] == if id in s.waiting then 1 else 0)
    && (forall id :: id in s.waiting <==> id in s.memory && s.memory[id].phase.Running?)
    && (!s.open ==> s.memory == map[])
    && (s.open ==> forall id | id in s.disk && s.disk[id].phase.Done? :: id in s.memory && s.memory[id] == s.disk[id])
  }

  lemma AdmitKeepsInv(s: State, request: Request, written: bool)
    requires Inv(s)
    ensures Inv(Admit(s, request, written).0)
  {
  }

  lemma StepKeepsInv(s: State, e: Event)
    requires Inv(s)
    ensures Inv(Step(s, e).0)
  {
    match e
    case Deliver(request, written) => AdmitKeepsInv(s, request, written);
    case _ =>
  }

  /**
    Over every run: no two entries share an idempotency key, in memory or on disk, and at
    most one caller executes an id at a time, exactly while the id is journaled as running.
  */
  lemma {:induction false} RunKeepsInv(s: State, events: seq<Event>)
    requires Inv(s)
    ensures Inv(Run(s, events))
  {
    if events != [] {
      RunKeepsInv(s, events[..|events| - 1]);
      StepKeepsInv(Run(s, events[..|events| - 1]), events[|events| - 1]);
    }
  }

  lemma StepKeepsRecord(s: State, e: Event, request: Request, outcome: Outcome)
    requires Inv(s) && Recorded(s.disk, request, outcome)
    ensures Recorded(Step(s, e).0.disk, request, outcome)
  {
  }

  lemma {:induction false} RunKeepsRecord(s: State, events: seq<Event>, request: Request, outcome: Outcome)
    requires Inv(s) && Recorded(s.disk, request, outcome)
    ensures Inv(Run(s, events)) && Recorded(Run(s, events).disk, request, outcome)
  {
    RunKeepsInv(s, events);
    if events != [] {
      var before := events[..|events| - 1];
      RunKeepsInv(s, before);
      RunKeepsRecord(s, before, request, outcome);
      StepKeepsRecord(Run(s, before), events[|events| - 1], request, outcome);
    }
  }

  /**
    Once an operation is durably journaled as finished, then through any deliveries,
    duplicates, completions, crashes and reloads it is never executed again, and whenever
    the Supervisor is open an equal request is answered with the recorded outcome.
  */
  lemma FinishedOperationIsFinal(s: State, events: seq<Event>, k: nat, request: Request, outcome: Outcome)
    requires Inv(s) && Recorded(s.disk, request, outcome)
    requires k < |events| && events[k].Deliver? && events[k].request.id == request.id
    ensures !ReplyAt(s, events, k).Execute?
    ensures Run(s, events[..k]).open ==>
      ReplyAt(s, events, k) == (if events[k].request == request then Answer(outcome) else IdBound)
  {
    RunKeepsRecord(s, events[..k], request, outcome);
  }

  // ---- When an operation is executed

  /** Not finished: in memory it is up for an exact replay, on disk it may still say running. */
  ghost predicate Unfinished(s: State, request: Request) {
    && request.id in s.disk && !s.disk[request.id].phase.Done? && Matches(s.disk[request.id], request)
    && (s.open ==> request.id in s.memory && s.memory[request.id] == Entry(request.key, request.body, Interrupted))
  }

  lemma StepKeepsUnfinished(s: State, e: Event, request: Request)
    requires Inv(s) && Unfinished(s, request) && (e.Deliver? ==> e.request.id != request.id)
    ensures Unfinished(Step(s, e).0, request)
  {
  }

  lemma {:induction false} RunKeepsUnfinished(s: State, events: seq<Event>, request: Request)
    requires Inv(s) && Unfinished(s, request)
    requires forall k | 0 <= k < |events| && events[k].Deliver? :: events[k].request.id != request.id
    ensures Inv(Run(s, events)) && Unfinished(Run(s, events), request)
  {
    RunKeepsInv(s, events);
    if events != [] {
      var before := events[..|events| - 1];
      RunKeepsInv(s, before);
      RunKeepsUnfinished(s, before, request);
      StepKeepsUnfinished(Run(s, before), events[|events| - 1], request);
    }
  }

  /**
    An operation that was on disk as running when the Supervisor died is executed again, as a
    repair replay, the next time it is delivered: through any other deliveries and completions,
    failed loads and further crashes.
  */
  lemma InterruptedIsReplayed(s: State, events: seq<Event>, request: Request, written: bool)
    requires Inv(s) && request.id in s.disk && s.disk[request.id] == Entry(request.key, request.body, Running)
    requires forall k | 0 <= k < |events| && events[k].Deliver? :: events[k].request.id != request.id
    ensures var t := Run(Step(s, Crash).0, events);
      t.open ==> Step(t, Deliver(request, written)).1 == if written then Execute(true) else WriteFailed
  {
    var crashed := Step(s, Crash).0;
    StepKeepsInv(s, Crash);
    RunKeepsUnfinished(crashed, events, request);
  }

  /** A load that is written opens a closed journal, and one that has nothing to recover needs no write. */
  lemma LoadOpens(s: State, written: bool)
    requires Inv(s) && !s.open
    ensures var t := Step(s, Load(written)).0;
      && (t.open <==> written || forall id | id in s.disk :: !s.disk[id].phase.Running?)
      && (!t.open ==> t == s)
      && (t.open ==> t.memory == t.disk && t.memory.Keys == s.disk.Keys && forall id | id in t.memory :: !t.memory[id].phase.Running?)
  {
    var loaded := Recovered(s.disk);
    if forall id | id in s.disk :: !s.disk[id].phase.Running? {
      assert loaded == s.disk;
    } else {
      var id :| id in s.disk && s.disk[id].phase.Running?;
      assert loaded[id] != s.disk[id];
    }
  }

  /** A new operation with an unused key is executed and durably journaled as running. */
  lemma NewIsExecuted(s: State, request: Request)
    requires Inv(s) && s.open && request.id !in s.memory && forall id | id in s.memory :: s.memory[id].key != request.key
    ensures var (t, reply) := Step(s, Deliver(request, true));
      && reply == Execute(false) && t.executors == s.executors + multiset{request.id}
      && t.disk == t.memory == s.memory[request.id := Entry(request.key, request.body, Running)]
  {
  }

  /** Execution needs an open journal, a working write, no other operation with the key, and an id that is new or interrupted. */
  lemma ExecutedExactly(s: State, request: Request, written: bool)
    requires Inv(s)
    ensures var reply := Step(s, Deliver(request, written)).1;
      && (reply.Execute? <==>
        && s.open && written && (forall id | id in s.memory && id != request.id :: s.memory[id].key != request.key)
        && (request.id in s.memory ==> s.memory[request.id] == Entry(request.key, request.body, Interrupted)))
      && (reply.Execute? ==> reply.repair == (request.id in s.memory))
  {
  }

  /**
    An admission whose write fails executes nothing and leaves the disk alone. It takes the
    operation out of memory: an interrupted one is not up for a repair replay any more, and the
    next delivery executes it as a new one.
  */
  lemma FailedWriteForgets(s: State, request: Request)
    requires Inv(s) && Step(s, Deliver(request, false)).1 == WriteFailed
    ensures var t := Step(s, Deliver(request, false)).0;
      && t.disk == s.disk && t.executors == s.executors && t.memory == s.memory - {request.id}
      && (request.id !in s.memory ==> t == s)
      && Step(t, Deliver(request, true)).1 == Execute(false)
  {
    var t := Step(s, Deliver(request, false)).0;
    if request.id !in s.memory {
      assert t.memory == s.memory && t.waiting == s.waiting;
    }
  }

  /** The executor's outcome: every equal request is answered with it from then on, and on disk it is final. */
  lemma CompletedIsRecorded(s: State, request: Request, outcome: Outcome, written: bool)
    requires Inv(s) && request.id in s.executors && Matches(s.memory[request.id], request)
    ensures var t := Step(s, Complete(request.id, outcome, written)).0;
      && Recorded(t.memory, request, outcome) && (written ==> Recorded(t.disk, request, outcome))
      && request.id !in t.executors && Step(t, Deliver(request, written)).1 == Answer(outcome)
  {
  }

  /** Being executed or finished in this life of the Supervisor. */
  ghost predicate Begun(s: State, id: Id) {
    s.open && id in s.memory && !s.memory[id].phase.Interrupted?
  }

  lemma StepKeepsBegun(s: State, e: Event, id: Id)
    requires Inv(s) && Begun(s, id) && e != Crash
    ensures Begun(Step(s, e).0, id)
  {
  }

  /** Executing begins, and what has begun is not executed. */
  lemma ExecuteBegins(s: State, request: Request, written: bool)
    requires Inv(s)
    ensures Step(s, Deliver(request, written)).1.Execute? ==> Begun(Step(s, Deliver(request, written)).0, request.id) && !Begun(s, request.id)
  {
  }

  lemma {:induction false} BegunStays(s: State, events: seq<Event>, id: Id)
    requires Inv(s) && Begun(s, id) && forall k | 0 <= k < |events| :: events[k] != Crash
    ensures Inv(Run(s, events)) && Begun(Run(s, events), id)
  {
    RunKeepsInv(s, events);
    if events != [] {
      var before := events[..|events| - 1];
      RunKeepsInv(s, before);
      BegunStays(s, before, id);
      StepKeepsBegun(Run(s, before), events[|events| - 1], id);
    }
  }

  lemma {:induction false} RunSplits(s: State, events: seq<Event>, j: nat)
    requires j <= |events|
    ensures Run(s, events) == Run(Run(s, events[..j]), events[j..])
  {
    if j < |events| {
      var before := events[..|events| - 1];
      RunSplits(s, before, j);
      assert before[..j] == events[..j] && before[j..] == events[j..][..|events[j..]| - 1];
    } else {
      assert events[..j] == events && events[j..] == [];
    }
  }

  lemma CrashBetween(s: State, first: Event, between: seq<Event>, second: Event)
    requires Inv(s) && first.Deliver? && second.Deliver? && first.request.id == second.request.id
    requires Step(s, first).1.Execute? && Step(Run(Step(s, first).0, between), second).1.Execute?
    ensures Crash in between
  {
    var after := Step(s, first).0;
    StepKeepsInv(s, first);
    ExecuteBegins(s, first.request, first.written);
    RunKeepsInv(after, between);
    ExecuteBegins(Run(after, between), second.request, second.written);
    if Crash !in between {
      BegunStays(after, between, first.request.id);
    }
  }

  lemma Slices<T>(s: seq<T>, j: nat, k: nat)
    requires j <= k <= |s|
    ensures s[..k][..j] == s[..j] && s[..k][j..] == s[j..k]
  {
  }

  /** The state at k from the state at an earlier j. */
  lemma RunBetween(s: State, events: seq<Event>, j: nat, k: nat)
    requires j < k <= |events|
    ensures Run(s, events[..k]) == Run(Step(Run(s, events[..j]), events[j]).0, events[j + 1..k])
  {
    Slices(events, j, j + 1);
    Slices(events, j + 1, k);
    RunSplits(s, events[..k], j + 1);
  }

  /** An id is executed at most once between two crashes, however often it is delivered. */
  lemma ExecutedOncePerLife(events: seq<Event>, j: nat, k: nat)
    requires j < k < |events| && events[j].Deliver? && events[k].Deliver? && events[j].request.id == events[k].request.id
    requires ReplyAt(INIT, events, j).Execute? && ReplyAt(INIT, events, k).Execute?
    ensures Crash in events[j + 1..k]
  {
    RunKeepsInv(INIT, events[..j]);
    RunBetween(INIT, events, j, k);
    CrashBetween(Run(INIT, events[..j]), events[j], events[j + 1..k], events[k]);
  }

  /** In a reachable state a running entry always has its done channel: the self-repair branch is dead. */
  lemma RetryIsUnreachable(events: seq<Event>, k: nat)
    requires k < |events|
    ensures ReplyAt(INIT, events, k) != Retry
  {
    RunKeepsInv(INIT, events[..k]);
  }

  /** The journal as the Supervisor holds it; `written` is whether this state write succeeds. */
  class Journal {
    var open: bool
    var memory: Entries
    var disk: Entries
    var waiting: set<Id>
    ghost var executors: multiset<Id>

    ghost function View(): State
      reads this
    {
      State(open, memory, disk, waiting, executors)
    }

    constructor ()
      ensures View() == INIT
    {
      open, memory, disk, waiting, executors := true, map[], map[], {}, multiset{};
    }

    method Persist(written: bool)
      modifies this`disk
      ensures disk == if written then memory else old(disk)
    {
      if written { disk := memory; }
    }

    /** The scan of the whole journal for another operation with the same idempotency key. */
    method FindKey(request: Request) returns (taken: bool)
      ensures taken <==> KeyTaken(memory, request)
    {
      var rest := memory.Keys;
      while rest != {}
        invariant rest <= memory.Keys
        invariant forall id | id in memory && id !in rest :: id == request.id || memory[id].key != request.key
        decreases |rest|
      {
        var id :| id in rest;
        if id != request.id && memory[id].key == request.key { return true; }
        rest := rest - {id};
      }
      taken := false;
    }

    method Deliver(request: Request, written: bool) returns (reply: Reply)
      modifies this
      ensures (View(), reply) == Step(old(View()), Event.Deliver(request, written))
    {
      if !open { return Closed; }
      if request.id in memory {
        var previous := memory[request.id];
        if !Matches(previous, request) { return IdBound; }
        match previous.phase {
          case Done(outcome) => return Answer(outcome);
          case Running =>
            if request.id in waiting { return Wait; }
            memory := memory[request.id := previous.(phase := Interrupted)];
            Persist(written);
            return Retry;
          case Interrupted =>
        }
      }
      var repair := request.id in memory;
      var taken := FindKey(request);
      if taken { return KeyBound; }
      waiting := waiting + {request.id};
      memory := memory[request.id := Entry(request.key, request.body, Running)];
      Persist(written);
      if !written {
        memory, waiting := memory - {request.id}, waiting - {request.id};
        assert memory == old(memory) - {request.id} && waiting == old(waiting) - {request.id};
        return WriteFailed;
      }
      executors := executors + multiset{request.id};
      reply := Execute(repair);
    }

    /** The executor's last critical section. */
    method Complete(id: Id, outcome: Outcome, written: bool)
      requires id in executors && id in memory
      modifies this
      ensures View() == Step(old(View()), Event.Complete(id, outcome, written)).0
    {
      memory := memory[id := memory[id].(phase := Done(outcome))];
      Persist(written);
      waiting := waiting - {id};
      executors := executors - multiset{id};
    }

    /** The loop of load: what was running becomes interrupted. */
    static method Recover(entries: Entries) returns (loaded: Entries, changed: bool)
      ensures loaded == Recovered(entries)
      ensures changed <==> exists id | id in entries :: entries[id].phase.Running?
    {
      loaded, changed := entries, false;
      var rest := entries.Keys;
      ghost var some: Id := 0;
      while rest != {}
        invariant rest <= entries.Keys == loaded.Keys
        invariant forall id | id in entries :: loaded[id] == if id in rest then entries[id] else Recovered(entries)[id]
        invariant !changed ==> loaded == entries
        invariant changed ==> some in entries && entries[some].phase.Running?
        decreases |rest|
      {
        var id :| id in rest;
        if loaded[id].phase.Running? {
          loaded, changed, some := loaded[id := loaded[id].(phase := Interrupted)], true, id;
        }
        rest := rest - {id};
      }
    }

    /** A new process reads the file; a recovered journal must be written before it is served. */
    method Load(written: bool)
      requires !open
      modifies this
      ensures View() == Step(old(View()), Event.Load(written)).0
    {
      var loaded, changed := Recover(disk);
      if changed && !written { return; }
      open, memory, disk, waiting, executors := true, loaded, loaded, {}, multiset{};
    }
  }
}
