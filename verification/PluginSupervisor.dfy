/**
  The plugin Supervisor's lifecycle operations (plugin/supervisor.go), for one
  plugin: every map of the Supervisor is read and written at that plugin's id
  only, and the per-plugin lock is held for the whole of each operation, so its
  runs are sequences of the methods below.  Other plugins show up only as state
  writes that also write this plugin's record (OtherPersist).

  Every file check, process start, stop, cleanup hook, socket removal, health
  probe and state write may fail at any point (Try); the failures are counted, so
  that an operation can be said to fail only if something else did.
*/
module PluginSupervisor {

  /** Version strings by number; 0 is the empty string, no version. */
  type Version = nat

  const NONE: Version := 0

  /** What is installed: the desired and the previous version and the configuration's hash. */
  datatype Target = Target(desired: Version, previous: Version, configHash: nat)

  /** CleanupPending and CleanupVersion. */
  datatype Cleanup = Clean | Pending(version: Version)

  /** A plugin's record. */
  datatype PluginState = PluginState(
    target: Target, observed: Version, enabled: bool, desiredRev: nat, observedRev: nat, cleanup: Cleanup)

  datatype MaybeState = None | Some(value: PluginState)

  datatype MaybeProcess = Gone | Live(number: nat)

  datatype Envelope = Envelope(target: Version, configHash: nat, revision: nat)

  datatype Kind = Install | Configure | Enable | Disable | Update | Rollback

  /** The goroutine that waits for one registered process to exit. */
  datatype Watcher = Watcher(generation: nat, process: nat)

  /** A mutating operation that answered success. */
  datatype Success = Success(revision: nat, replay: bool)

  /** What is known of a started process: nothing yet, or that it answered its probe. */
  datatype Health = Unproven | Proven(version: Version)

  /** A call of the runner's start: the version, and the cleanup that was pending then. */
  datatype Start = Start(version: Version, cleanup: Cleanup)

  /** One thing that happens to a plugin. */
  datatype Event =
    | Operation(kind: Kind, env: Envelope, replay: bool)
    | LocalInstall(version: Version)
    | Exited(watcher: Watcher)
    | Maintenance(restart: bool)
    | OtherPlugin
    | Crash(restore: bool)
    | Shutdown

  function Max(a: nat, b: nat): nat { if a < b then b else a }

  function Bump(p: PluginState, revision: nat): PluginState {
    p.(desiredRev := Max(p.desiredRev, revision), observedRev := Max(p.observedRev, revision))
  }

  function Asked(p: PluginState, revision: nat): PluginState {
    p.(desiredRev := Max(p.desiredRev, revision))
  }

  function Configured(p: PluginState, env: Envelope): PluginState {
    p.(target := p.target.(configHash := env.configHash), desiredRev := env.revision)
  }

  /** `p` with its process running and its cleanup done. */
  function Up(p: PluginState): PluginState {
    p.(enabled := true, observed := p.target.desired, cleanup := Clean)
  }

  /** The record after a version-changing update of `p`. */
  function Updated(p: PluginState, env: Envelope): PluginState {
    var target := Target(env.target, p.target.desired, env.configHash);
    Bump(p, env.revision).(target := target, cleanup := Clean, observed := if p.enabled then env.target else p.observed)
  }

  function MergePending(target: PluginState, current: PluginState): PluginState {
    if current.cleanup.Pending? then target.(cleanup := current.cleanup) else target
  }

  predicate WellFormed(p: PluginState) {
    && (p.enabled ==> p.observed == p.target.desired)
    && p.observedRev <= p.desiredRev
  }

  /** The revision a record stands at, 0 without one. */
  function Revision(p: MaybeState): nat {
    if p.Some? then p.value.desiredRev else 0
  }

  /** The record's revision did not go back, and a record was not lost. */
  predicate Grew(p: MaybeState, q: MaybeState) {
    (p.Some? ==> q.Some?) && Revision(p) <= Revision(q)
  }

  /** A registered process means the plugin is enabled, and so that it runs its desired version. */
  predicate Consistent(state: MaybeState, process: MaybeProcess, disk: MaybeState) {
    && (state.Some? ==> WellFormed(state.value))
    && (process.Live? ==> state.Some? && state.value.enabled)
    && (disk.Some? ==> WellFormed(disk.value))
    && Grew(disk, state)
  }

  /** Failures only add up, and the Agent's death is one. */
  predicate Counted(before: nat, after: nat, wasDead: bool, dead: bool) {
    before <= after && (wasDead ==> dead) && (before == after ==> wasDead == dead)
  }

  /** The record says that the version's cleanup is pending; one without a version is that of the desired one. */
  predicate Records(p: PluginState, version: Version) {
    p.cleanup.Pending? && (if p.cleanup.version == NONE then p.target.desired else p.cleanup.version) == version
  }

  /** Cleanup hooks that failed and have not worked since: none, one, or those of several versions. */
  datatype Owed = Nothing | One(version: Version) | Many

  function Owe(o: Owed, version: Version): Owed {
    if o.Nothing? || o == One(version) then One(version) else Many
  }

  function Paid(o: Owed, version: Version): Owed {
    if o == One(version) then Nothing else o
  }

  /** Every start since `before` found no cleanup pending. */
  ghost predicate CleanStarts(before: seq<Start>, after: seq<Start>) {
    before <= after && forall i | |before| <= i < |after| :: after[i].cleanup.Clean?
  }

  /** Successes are ordered by revision, strictly unless the later one is a repair replay. */
  ghost predicate Ordered(log: seq<Success>) {
    forall i, j | 0 <= i < j < |log| ::
      log[i].revision <= log[j].revision && (!log[j].replay ==> log[i].revision < log[j].revision)
  }

  /** What an operation asks of the record before anything is done. */
  predicate Accepts(kind: Kind, state: MaybeState, env: Envelope) {
    match kind
    case Install => true
    case Update => state.Some?
    case Disable => state.Some? && state.value.target.desired == env.target
    case Rollback => state.Some? && state.value.target.previous != NONE && state.value.target.previous == env.target
    case _ => state.Some? && state.value.target.desired != NONE && state.value.target.desired == env.target
  }

  /** The revision is newer than the record's; a replay of an interrupted operation may repeat it. */
  predicate Newer(state: MaybeState, env: Envelope, replay: bool) {
    state.None? || env.revision > state.value.desiredRev || (replay && env.revision == state.value.desiredRev)
  }

  /** Versions and configuration after an operation: those that it asked for. */
  predicate Targets(kind: Kind, before: MaybeState, env: Envelope, after: Target) {
    if before.None? then kind.Install? && after == Target(env.target, NONE, 0)
    else
      var was := before.value.target;
      match kind
      case Configure => after == was.(configHash := env.configHash)
      case Update => after == Target(env.target, if was.desired == env.target then was.previous else was.desired, env.configHash)
      case Rollback => after == Target(env.target, if was.desired == env.target then was.previous else was.desired, env.configHash)
      case _ => after == was
  }

  /** What a successful operation means. */
  predicate Achieves(kind: Kind, before: MaybeState, env: Envelope, after: PluginState, process: MaybeProcess) {
    var wasEnabled := before.Some? && before.value.enabled;
    && Targets(kind, before, env, after.target) && after.desiredRev == env.revision
    && after.enabled == (if kind.Enable? then true else if kind.Disable? then false else wasEnabled)
    && (after.enabled && !kind.Install? ==> process.Live? && after.observed == after.target.desired)
    && (!after.enabled ==> process.Gone?)
    && (kind.Disable? ==> after.cleanup.Clean?)
    && (after.observedRev == env.revision || (!after.enabled && !kind.Disable? && !kind.Install?))
  }

  /** What an operation asks and achieves does not depend on the cleanup of the record before it. */
  lemma CleanupDoesNotMatter(kind: Kind, a: MaybeState, b: MaybeState, env: Envelope, replay: bool, after: PluginState, process: MaybeProcess)
    requires a.Some? <==> b.Some?
    requires a.Some? ==> b.value == a.value.(cleanup := b.value.cleanup)
    ensures Accepts(kind, a, env) == Accepts(kind, b, env) && Newer(a, env, replay) == Newer(b, env, replay)
    ensures Achieves(kind, a, env, after, process) == Achieves(kind, b, env, after, process)
  {
  }

  const NO_RECORD := PluginState(Target(NONE, NONE, 0), NONE, false, 0, 0, Clean)

  /** Successes in order, each at a revision that the record on disk has reached. */
  ghost predicate Durable(log: seq<Success>, disk: MaybeState) {
    && Ordered(log)
    && (log != [] ==> disk.Some?)
    && (forall i | 0 <= i < |log| :: log[i].revision <= Revision(disk))
  }

  lemma LogStays(log: seq<Success>, before: MaybeState, after: MaybeState)
    requires Durable(log, before) && Grew(before, after)
    ensures Durable(log, after)
  {
  }

  /** A success that was newer than the record before it, and is on disk. */
  lemma LogGrows(log: seq<Success>, before: MaybeState, disk: MaybeState, success: Success)
    requires Durable(log, disk) && (log != [] ==> before.Some?) && (forall i | 0 <= i < |log| :: log[i].revision <= Revision(before))
    requires before.Some? ==> success.revision > Revision(before) || (success.replay && success.revision == Revision(before))
    requires disk.Some? && success.revision <= Revision(disk)
    ensures Durable(log + [success], disk)
  {
  }

  class Supervisor {
    /** state.Plugins[id], processes[id], processesGeneration[id]. */
    var state: MaybeState
    var process: MaybeProcess
    var generation: nat
    /** The record in state.json. */
    var disk: MaybeState
    var nextProcess: nat
    var watchers: set<Watcher>
    /** The Agent died in the middle of an operation: nothing it still does reaches the disk. */
    var crashed: bool
    ghost var starts: seq<Start>
    ghost var log: seq<Success>
    /** The targets of all records written so far. */
    ghost var targets: set<Target>
    /** How many things have failed so far, the Agent's death among them. */
    ghost var faults: nat
    /** The version whose cleanup hook failed and has not worked since. */
    ghost var owed: Owed
    /** The version of the registered process, which was started and answered its probe. */
    ghost var runs: Version
    /** How many probes were answered. */
    ghost var probes: nat
    /** How many processes run that are not registered and that no stop was tried on. */
    ghost var loose: int
    /** The versions whose signed manifest declares plugin.cleanup. */
    const capable: set<Version>

    ghost predicate WatchersValid()
      reads this
    {
      forall w | w in watchers ::
        && w.generation <= generation && w.process < nextProcess
        && (w.generation == generation <==> process == Live(w.process))
    }

    ghost predicate Valid()
      reads this
    {
      && Consistent(state, process, disk) && WatchersValid()
      && (process.Live? ==> runs == state.value.target.desired)
    }

    /** Every success is durable: the record on disk stands at its revision or later. */
    ghost predicate LogValid()
      reads this
    {
      Durable(log, disk)
    }

    /** A cleanup that failed is on the record, and a process runs beside one of its own version at most. */
    ghost predicate OnRecord()
      reads this
    {
      && NONE !in capable
      && (owed.Nothing? || (owed.One? && state.Some? && Records(state.value, owed.version)))
      && (process.Live? && state.Some? && state.value.cleanup.Pending? ==> Records(state.value, state.value.target.desired))
    }

    /** What is owed is on record and is of the version of the given record. */
    ghost predicate Beside(p: PluginState)
      reads this
    {
      OnRecord() && state.Some? && state.value.target == p.target && (state.value.cleanup.Pending? ==> Records(state.value, p.target.desired))
    }

    /** No cleanup is pending or owed. */
    ghost predicate Settled()
      reads this
    {
      NONE !in capable && owed.Nothing? && (state.Some? ==> state.value.cleanup.Clean?)
    }

    constructor (capable: set<Version>)
      requires NONE !in capable
      ensures Valid() && LogValid() && OnRecord() && state.None? && disk.None? && process.Gone? && log == [] && starts == []
      ensures !crashed && faults == 0 && loose == 0
      ensures this.capable == capable
    {
      state, process, generation, disk, nextProcess, crashed := None, Gone, 0, None, 0, false;
      watchers, starts, log, targets, faults, owed := {}, [], [], {}, 0, Nothing;
      runs, probes, loose := NONE, 0, 0;
      this.capable := capable;
    }

    /** Something outside works or fails. */
    method Try() returns (ok: bool)
      modifies this`faults
      ensures faults == if ok then old(faults) else old(faults) + 1
    {
      ok := *;
      if !ok { faults := faults + 1; }
    }

    /**
      A state write: every one is of a well-formed record at no lower revision. One that fails
      leaves the old file; the Agent may die at any write, after which none succeeds.
    */
    method Persist() returns (ok: bool)
      requires Grew(disk, state) && (state.Some? ==> WellFormed(state.value))
      modifies this`disk, this`crashed, this`targets, this`faults
      ensures disk == if ok then state else old(disk)
      ensures old(crashed) ==> crashed && !ok
      ensures targets == old(targets) + if ok && state.Some? then {state.value.target} else {}
      ensures faults >= old(faults) && (!ok || (crashed && !old(crashed)) ==> faults > old(faults))
      ensures faults == old(faults) ==> crashed == old(crashed)
    {
      ok := Try();
      if ok && crashed {
        ok := false;
        faults := faults + 1;
      }
      if ok {
        disk := state;
        if state.Some? { targets := targets + {state.value.target}; }
      }
      var lives := Try();
      crashed := crashed || !lives;
    }

    /** Registers a started process that answered its probe. */
    method SetProcess(p: nat, ghost health: Health)
      requires WatchersValid() && p < nextProcess && (forall w | w in watchers :: w.process != p) && health.Proven?
      modifies this`process, this`generation, this`watchers, this`runs, this`loose
      ensures WatchersValid() && process == Live(p) && runs == health.version && loose == old(loose) - 1
    {
      generation, process := generation + 1, Live(p);
      runs, loose := health.version, loose - 1;
      var watched := *;
      if watched { watchers := watchers + {Watcher(generation, p)}; }
    }

    /** Takes a process out of the registry; it still runs. */
    method RemoveProcess()
      requires WatchersValid()
      modifies this`process, this`generation, this`loose
      ensures WatchersValid() && process.Gone? && loose == old(loose) + if old(process).Live? then 1 else 0
    {
      if process.Live? { loose := loose + 1; }
      generation, process := generation + 1, Gone;
    }

    /** Takes a process out of the registry that has ended. */
    method RemoveEnded()
      requires WatchersValid()
      modifies this`process, this`generation
      ensures WatchersValid() && process.Gone?
    {
      generation, process := generation + 1, Gone;
    }

    /** Starts a process of a version. */
    method Launch(version: Version) returns (ok: bool, p: nat, ghost started: Version)
      requires state.Some?
      modifies this`starts, this`nextProcess, this`faults, this`loose
      ensures starts == old(starts) + [Start(version, state.value.cleanup)]
      ensures faults == if ok then old(faults) else old(faults) + 1
      ensures p == old(nextProcess) && nextProcess == old(nextProcess) + (if ok then 1 else 0)
      ensures loose == old(loose) + (if ok then 1 else 0) && started == version
    {
      p, started := nextProcess, version;
      starts := starts + [Start(version, state.value.cleanup)];
      ok := Try();
      if ok { nextProcess, loose := nextProcess + 1, loose + 1; }
    }

    method Probe(ghost started: Version) returns (ok: bool, ghost health: Health)
      modifies this`faults, this`probes
      ensures faults == if ok then old(faults) else old(faults) + 1
      ensures probes == if ok then old(probes) + 1 else old(probes)
      ensures health == if ok then Proven(started) else Unproven
    {
      ok := Try();
      if ok { probes := probes + 1; }
      health := if ok then Proven(started) else Unproven;
    }

    /** Tries to stop a process that is not registered. */
    method Stop() returns (ok: bool)
      modifies this`faults, this`loose
      ensures faults == if ok then old(faults) else old(faults) + 1
      ensures loose == old(loose) - 1
    {
      ok := Try();
      loose := loose - 1;
    }

    /** Sets the record with a new process and tries to write it. */
    method RecordRunning(p: nat, ghost health: Health, next: PluginState)
      requires Valid() && state.Some? && WellFormed(next) && next.enabled && Revision(state) <= next.desiredRev
      requires p < nextProcess && (forall w | w in watchers :: w.process != p)
      requires health == Proven(next.target.desired)
      modifies this`state, this`process, this`generation, this`disk, this`crashed, this`targets, this`faults, this`watchers, this`runs, this`loose
      ensures Valid() && Grew(old(disk), disk) && process == Live(p) && state == Some(next)
      ensures Counted(old(faults), faults, old(crashed), crashed)
      ensures faults == old(faults) ==> disk == state
      ensures loose == old(loose) - 1
    {
      SetProcess(p, health);
      state := Some(next);
      var _ := Persist();
    }

    /** Sets the record without a process and tries to write it. */
    method RecordStopped(next: PluginState)
      requires Valid() && state.Some? && WellFormed(next) && Revision(state) <= next.desiredRev
      modifies this`state, this`process, this`generation, this`disk, this`crashed, this`targets, this`faults, this`loose
      ensures Valid() && Grew(old(disk), disk) && process.Gone? && state == Some(next)
      ensures targets <= old(targets) + {next.target}
      ensures Counted(old(faults), faults, old(crashed), crashed)
      ensures faults == old(faults) ==> disk == state
      ensures loose == old(loose) + if old(process).Live? then 1 else 0
    {
      RemoveProcess();
      state := Some(next);
      var _ := Persist();
    }

    /** Registers a started process with its record; a record that cannot be written takes both back. */
    method Publish(p: nat, ghost health: Health, next: PluginState, previous: PluginState) returns (ok: bool)
      requires Valid() && state.Some? && p < nextProcess && (forall w | w in watchers :: w.process != p)
      requires WellFormed(next) && next.enabled && WellFormed(previous)
      requires Revision(state) <= next.desiredRev && Revision(state) <= previous.desiredRev
      requires health == Proven(next.target.desired)
      modifies this`state, this`process, this`generation, this`watchers, this`disk, this`crashed, this`targets, this`faults, this`runs, this`loose
      ensures Valid() && Grew(old(disk), disk)
      ensures ok ==> process == Live(p) && state == Some(next) && disk == state
      ensures !ok ==> process.Gone? && state == Some(previous) && disk == old(disk) && faults > old(faults)
      ensures targets <= old(targets) + {next.target}
      ensures Counted(old(faults), faults, old(crashed), crashed)
      ensures loose == old(loose) - if ok then 1 else 0
    {
      SetProcess(p, health);
      state := Some(next);
      ok := Persist();
      if !ok {
        RemoveProcess();
        state := Some(previous);
      }
    }

    method MarkCleanupPending(version: Version)
      requires Valid()
      modifies this`state, this`process, this`generation, this`disk, this`crashed, this`targets, this`faults, this`loose
      ensures Valid() && Grew(old(disk), disk)
      ensures old(state).None? ==> state.None? && process == old(process)
      ensures old(state).Some? ==>
        process.Gone? && state == Some(old(state).value.(enabled := false, cleanup := Pending(version)))
      ensures old(state).Some? ==> targets <= old(targets) + {old(state).value.target}
      ensures Counted(old(faults), faults, old(crashed), crashed)
      ensures old(process).Gone? ==> loose == old(loose)
    {
      if state.Some? { RecordStopped(state.value.(enabled := false, cleanup := Pending(version))); }
    }

    /**
      Starts a version and probes it.  A process that fails its probe is stopped and
      cleaned up; when that fails too, the version's cleanup is left pending.
    */
    method StartVersion(version: Version) returns (ok: bool, p: nat, ghost health: Health)
      requires Valid() && state.Some? && process.Gone?
      modifies this`state, this`process, this`generation, this`disk, this`crashed, this`targets, this`faults, this`owed, this`loose, this`starts, this`nextProcess, this`runs, this`probes
      ensures Valid() && Grew(old(disk), disk)
      ensures starts == old(starts) || starts == old(starts) + [Start(version, old(state).value.cleanup)]
      ensures ok ==> state == old(state) && process == old(process) && disk == old(disk)
      ensures ok ==> p < nextProcess && (forall w | w in watchers :: w.process != p)
      ensures !ok ==>
        || (state == old(state) && process == old(process))
        || (process.Gone? && state == Some(old(state).value.(enabled := false, cleanup := Pending(version))))
      ensures targets <= old(targets) + {old(state).value.target}
      ensures Counted(old(faults), faults, old(crashed), crashed)
      ensures !ok ==> faults > old(faults)
      ensures !ok && faults == old(faults) + 1 ==> state == old(state) && process == old(process) && disk == old(disk)
      ensures ok ==> owed == old(owed)
      ensures owed in {old(owed), Paid(old(owed), version), Owe(old(owed), version)}
      ensures owed != old(owed) && owed == Owe(old(owed), version) ==> version in capable && state.Some? && state.value.cleanup == Pending(version)
      ensures loose == old(loose) + (if ok then 1 else 0) && (ok ==> health == Proven(version))
      ensures probes >= old(probes) && (ok ==> probes > old(probes))
    {
      p, health := nextProcess, Unproven;
      ok := Try(); // verifyInstalledVersion, socket path length, runner capabilities
      if !ok { return; }
      ghost var started;
      ok, p, started := Launch(version);
      if !ok { return; }
      ok, health := Probe(started);
      if !ok {
        var stopped, cleaned := StopAndClean(version, true);
        if version in capable && (!stopped || !cleaned) { MarkCleanupPending(version); }
      }
    }

    /** Runs a version's cleanup hook, if it has one. */
    method Hook(version: Version) returns (ok: bool)
      modifies this`faults, this`owed
      ensures version !in capable ==> ok
      ensures owed == if ok then Paid(old(owed), version) else Owe(old(owed), version)
      ensures faults == if ok then old(faults) else old(faults) + 1
    {
      ok := true;
      if version in capable { ok := Try(); }
      owed := if ok then Paid(owed, version) else Owe(owed, version);
    }

    /** Stops a process, if there is one, and runs the version's cleanup hook. */
    method StopAndClean(version: Version, running: bool) returns (stopped: bool, cleaned: bool)
      modifies this`faults, this`owed, this`loose
      ensures !running ==> stopped
      ensures version !in capable ==> cleaned
      ensures owed == if cleaned then Paid(old(owed), version) else Owe(old(owed), version)
      ensures faults >= old(faults) && (stopped && cleaned <==> faults == old(faults))
      ensures loose == old(loose) - if running then 1 else 0
    {
      stopped := true;
      if running { stopped := Stop(); }
      cleaned := Hook(version);
    }

    /** Verifies and stops the version, runs its hook if it is verified, and removes the socket. */
    method StopDesired(version: Version, running: bool) returns (safe: bool, cleaned: bool)
      modifies this`faults, this`owed, this`loose
      ensures faults >= old(faults) && (safe <==> faults == old(faults)) && (safe ==> cleaned)
      ensures !cleaned ==> owed == Owe(old(owed), version)
      ensures cleaned ==> owed == old(owed) || owed == Paid(old(owed), version)
      ensures safe ==> owed == Paid(old(owed), version)
      ensures loose == old(loose) - if running then 1 else 0
    {
      var verified := Try();
      var socketRemoved := Try();
      var stopped := true;
      if running { stopped := Stop(); }
      cleaned := true;
      if verified { cleaned := Hook(version); }
      safe := verified && stopped && cleaned && socketRemoved;
    }

    /** Records a failed transition: `original`, disabled, at the revision that was asked for. */
    method RecordTransitionFailure(original: PluginState, revision: nat, cleaned: bool)
      requires Valid() && state.Some? && WellFormed(original) && Revision(state) <= Asked(original, revision).desiredRev
      modifies this`state, this`process, this`generation, this`disk, this`crashed, this`targets, this`faults, this`loose
      ensures Valid() && Grew(old(disk), disk) && process.Gone?
      ensures state == Some(Asked(original, revision).(enabled := false,
        cleanup := if cleaned then original.cleanup else Pending(original.target.desired)))
      ensures targets <= old(targets) + {original.target}
      ensures Counted(old(faults), faults, old(crashed), crashed)
      ensures old(process).Gone? ==> loose == old(loose)
    {
      var next := original.(enabled := false);
      if !cleaned { next := next.(cleanup := Pending(original.target.desired)); }
      RecordStopped(Asked(next, revision));
    }

    /** A version that cannot be verified cannot be cleaned up: its cleanup is owed. */
    method Verify(version: Version) returns (ok: bool)
      modifies this`faults, this`owed
      ensures faults == if ok then old(faults) else old(faults) + 1
      ensures owed == if ok then old(owed) else Owe(old(owed), version)
    {
      ok := Try();
      if !ok { owed := Owe(owed, version); }
    }

    /** Verifies, stops and cleans up the running version; a failure is recorded. */
    method TakeDown(original: PluginState, revision: nat) returns (ok: bool)
      requires Valid() && state == Some(original)
      modifies this`state, this`process, this`generation, this`disk, this`crashed, this`targets, this`faults, this`owed, this`loose
      ensures Valid() && Grew(old(disk), disk) && process.Gone?
      ensures ok ==> state == old(state) && disk == old(disk)
      ensures !ok ==> state.Some? && !state.value.enabled
      ensures !ok ==> state.value.target == original.target && state.value.desiredRev == Asked(original, revision).desiredRev
      ensures Counted(old(faults), faults, old(crashed), crashed)
      ensures ok <==> faults == old(faults)
      ensures ok ==> owed == Paid(old(owed), original.target.desired)
      ensures loose == old(loose)
      ensures old(Settled()) ==> OnRecord()
    {
      var running := process.Live?;
      RemoveProcess();
      var verified := Verify(original.target.desired);
      if !verified {
        if running { var _ := Stop(); }
        RecordTransitionFailure(original, revision, false);
        return false;
      }
      var stopped, cleaned := StopAndClean(original.target.desired, running);
      ok := stopped && cleaned;
      if !ok { RecordTransitionFailure(original, revision, cleaned); }
    }

    /** Retries a pending cleanup; every mutating operation runs behind it. */
    method RecoverCleanup() returns (ok: bool)
      requires Valid()
      modifies this`state, this`disk, this`crashed, this`targets, this`faults, this`owed, this`loose
      ensures Valid() && Grew(old(disk), disk)
      ensures state.Some? <==> old(state).Some?
      ensures state.Some? ==> state.value == old(state).value.(cleanup := state.value.cleanup)
      ensures state.Some? && ok ==> state.value.cleanup.Clean?
      ensures state.Some? && old(state).value.cleanup.Clean? ==> ok && state == old(state)
      ensures old(state).Some? ==> targets <= old(targets) + {old(state).value.target}
      ensures Counted(old(faults), faults, old(crashed), crashed)
      ensures !ok ==> faults > old(faults)
      ensures old(OnRecord()) && process == old(process) ==> OnRecord()
      ensures loose == old(loose)
    {
      if state.None? || state.value.cleanup.Clean? { return true; }
      var version := state.value.cleanup.version;
      if version == NONE { version := state.value.target.desired; }
      var verified := Try();
      var socketRemoved := Try();
      var cleaned := true;
      if verified { cleaned := Hook(version); }
      ok := verified && cleaned && socketRemoved;
      var persisted := RecordCleanup(if ok then Clean else Pending(version));
      ok := ok && persisted;
    }

    /** Sets the cleanup of the record, or leaves it when it cannot be written. */
    method RecordCleanup(cleanup: Cleanup) returns (ok: bool)
      requires Valid() && state.Some?
      modifies this`state, this`disk, this`crashed, this`targets, this`faults
      ensures Valid() && Grew(old(disk), disk) && state == if ok then Some(old(state).value.(cleanup := cleanup)) else old(state)
      ensures targets <= old(targets) + {old(state).value.target}
      ensures Counted(old(faults), faults, old(crashed), crashed)
      ensures !ok ==> faults > old(faults)
    {
      var previous := state;
      state := Some(state.value.(cleanup := cleanup));
      ok := Persist();
      if !ok { state := previous; }
    }

    /** Publishes an installed version; revision 0 is a local install without an operation. */
    method InstallPrepared(version: Version, revision: nat) returns (ok: bool)
      requires Valid()
      modifies this`state, this`disk, this`crashed, this`targets, this`faults
      ensures Valid() && Grew(old(disk), disk)
      ensures !ok ==> state == old(state)
      ensures ok ==> disk == state
      ensures ok && old(state).Some? ==> state == Some(Bump(old(state).value, revision))
      ensures ok && old(state).None? ==>
        state == Some(PluginState(Target(version, NONE, 0), NONE, false, revision, revision, Clean))
      ensures ok && revision > 0 && Revision(old(state)) <= revision ==>
        Achieves(Kind.Install, old(state), Envelope(version, 0, revision), state.value, process)
      ensures Counted(old(faults), faults, old(crashed), crashed)
      ensures !ok ==> faults > old(faults)
      ensures old(OnRecord()) ==> OnRecord()
    {
      ok := Try(); // staging directory, immutability check, publishing rename
      if !ok { return; }
      var previous := state;
      var next := if state.Some? then state.value else PluginState(Target(version, NONE, 0), NONE, false, 0, 0, Clean);
      if revision > 0 { next := Bump(next, revision); }
      state := Some(next);
      ok := Persist();
      if !ok { state := previous; }
    }

    method Configure(env: Envelope) returns (ok: bool)
      requires Valid() && Revision(state) <= env.revision
      modifies this`state, this`process, this`generation, this`disk, this`crashed, this`targets, this`faults, this`owed, this`loose, this`starts, this`nextProcess, this`runs, this`probes, this`watchers
      ensures Valid() && Grew(old(state), state) && Grew(old(disk), disk)
      ensures old(state).None? ==> !ok && state.None?
      ensures ok ==> disk == state && old(state).value.target.desired == env.target
      ensures ok && !old(state).value.enabled ==> state.value == Configured(old(state).value, env)
      ensures ok && old(state).value.enabled ==>
        process.Live? && state.value == Up(Bump(Configured(old(state).value, env), env.revision))
      // A failure keeps versions and configuration, except that a stopped plugin whose
      // record could not be written has the new hash in memory.
      ensures !ok && old(state).Some? ==>
        || state.value.target == old(state).value.target
        || (!old(state).value.enabled && disk == old(disk) && state.value == Configured(old(state).value, env))
      ensures Counted(old(faults), faults, old(crashed), crashed)
      ensures ok ==> Accepts(Kind.Configure, old(state), env) && Achieves(Kind.Configure, old(state), env, state.value, process)
      ensures old(Settled()) ==> OnRecord()
      ensures !Accepts(Kind.Configure, old(state), env) ==> state == old(state) && process == old(process) && disk == old(disk)
      ensures !ok && Accepts(Kind.Configure, old(state), env) ==> faults > old(faults)
      ensures loose == old(loose)
    {
      ok := Try(); // containsInlineSecret
      if !ok || state.None? || state.value.target.desired == NONE || env.target != state.value.target.desired { return false; }
      var original := state.value;
      if !original.enabled {
        ok := Try(); // write config.json
        if !ok { return; }
        state := Some(Configured(original, env));
        ok := Persist();
        return;
      }
      ok := Try(); // read the old configuration
      if !ok {
        var _ := Persist(); // recordPluginError
        return;
      }
      ok := Reconfigure(original, env);
    }

    /** The end of configure for an enabled plugin: restarts it with the new configuration. */
    method Reconfigure(original: PluginState, env: Envelope) returns (ok: bool)
      requires Valid() && state == Some(original) && original.enabled && Revision(state) <= env.revision
      modifies this`state, this`process, this`generation, this`disk, this`crashed, this`targets, this`faults, this`owed, this`loose, this`starts, this`nextProcess, this`runs, this`probes, this`watchers
      ensures Valid() && Grew(old(disk), disk) && state.Some?
      ensures ok ==> disk == state && process.Live? && state.value == Up(Bump(Configured(original, env), env.revision))
      ensures !ok ==> state.value.target == original.target && state.value.desiredRev == env.revision
      ensures Counted(old(faults), faults, old(crashed), crashed)
      ensures !ok ==> faults > old(faults)
      ensures old(Settled()) ==> OnRecord()
      ensures loose == old(loose)
    {
      ok := TakeDown(original, env.revision);
      if !ok { return; }
      ok := StartConfigured(original, env);
    }

    /** The old process is down: the new configuration comes up, or the old one again. */
    method StartConfigured(original: PluginState, env: Envelope) returns (ok: bool)
      requires Valid() && state == Some(original) && original.enabled && process.Gone? && Revision(state) <= env.revision
      modifies this`state, this`process, this`generation, this`disk, this`crashed, this`targets, this`faults, this`owed, this`loose, this`starts, this`nextProcess, this`runs, this`probes, this`watchers
      ensures Valid() && Grew(old(disk), disk) && state.Some?
      ensures ok ==> disk == state && process.Live? && state.value == Up(Bump(Configured(original, env), env.revision))
      ensures !ok ==> state.value.target == original.target && state.value.desiredRev == env.revision
      ensures Counted(old(faults), faults, old(crashed), crashed)
      ensures !ok ==> faults > old(faults)
      ensures !ok && faults == old(faults) + 1 ==> process.Live? && state.value.enabled
      ensures old(Settled()) ==> OnRecord()
      ensures loose == old(loose)
    {
      ok := Try(); // remove the socket, write config.json
      if ok {
        var next := Configured(original, env).(observedRev := Max(original.observedRev, env.revision), cleanup := Clean);
        ok := StartAndPublish(original, next);
      }
      if !ok { RollbackConfiguration(original, env.revision); }
    }

    /** Starts the desired version and publishes it with its record; a process whose record cannot be written is stopped. */
    method StartAndPublish(original: PluginState, next: PluginState) returns (ok: bool)
      requires Valid() && state == Some(original) && process.Gone?
      requires WellFormed(next) && next.enabled && Revision(state) <= next.desiredRev
      modifies this`state, this`process, this`generation, this`disk, this`crashed, this`targets, this`faults, this`owed, this`loose, this`starts, this`nextProcess, this`runs, this`probes, this`watchers
      ensures Valid() && Grew(old(disk), disk) && state.Some?
      ensures ok ==> disk == state && process.Live? && state.value == next && owed == old(owed)
      ensures !ok ==> process.Gone? && state.value.target == original.target && state.value.desiredRev == original.desiredRev
      ensures !ok ==> state == old(state) || state.value.cleanup == Pending(next.target.desired)
      ensures Counted(old(faults), faults, old(crashed), crashed)
      ensures !ok ==> faults > old(faults)
      ensures !ok && faults == old(faults) + 1 ==> state == old(state)
      ensures old(Settled()) && !ok ==> OnRecord()
      ensures loose == old(loose)
    {
      var p;
      ghost var health;
      ok, p, health := StartVersion(next.target.desired);
      if ok {
        ok := Publish(p, health, next, original);
        if !ok { var _ := Stop(); }
      }
    }

    /** Puts the old configuration back and restarts the same version with it. */
    method RollbackConfiguration(original: PluginState, revision: nat)
      requires Valid() && state.Some? && process.Gone? && WellFormed(original)
      requires Revision(state) <= Asked(original, revision).desiredRev
      modifies this`state, this`process, this`generation, this`disk, this`crashed, this`targets, this`faults, this`owed, this`loose, this`starts, this`nextProcess, this`runs, this`probes, this`watchers
      ensures Valid() && Grew(old(disk), disk) && state.Some?
      ensures state.value.target == original.target && state.value.desiredRev == Asked(original, revision).desiredRev
      ensures process.Live? <==> state.value.enabled
      ensures Counted(old(faults), faults, old(crashed), crashed)
      ensures faults == old(faults) ==> process.Live?
      ensures original.cleanup.Clean? && old(Beside(original)) ==> OnRecord()
      ensures loose == old(loose)
    {
      var ok := Try(); // restore config.json
      var p := 0;
      ghost var health := Unproven;
      if ok { ok, p, health := StartVersion(original.target.desired); }
      var next := Asked(MergePending(original, state.value), revision);
      if ok {
        RecordRunning(p, health, next.(enabled := true, observed := original.target.desired));
      } else {
        RecordStopped(next.(enabled := false));
      }
    }

    method Enable(env: Envelope) returns (ok: bool)
      requires Valid() && Revision(state) <= env.revision
      modifies this`state, this`process, this`generation, this`disk, this`crashed, this`targets, this`faults, this`owed, this`loose, this`starts, this`nextProcess, this`runs, this`probes, this`watchers
      ensures Valid() && Grew(old(state), state) && Grew(old(disk), disk)
      ensures old(state).None? ==> !ok && state.None?
      ensures ok ==> disk == state && process.Live? && old(state).value.target.desired == env.target
      ensures ok ==>
        || state.value == Up(Bump(old(state).value, env.revision))
        || (process == old(process) && state.value == Bump(old(state).value, env.revision))
      ensures !ok && old(state).Some? ==> state.value.target == old(state).value.target
      ensures Counted(old(faults), faults, old(crashed), crashed)
      ensures ok ==> Accepts(Kind.Enable, old(state), env) && Achieves(Kind.Enable, old(state), env, state.value, process)
      ensures old(Settled()) ==> OnRecord()
      ensures !Accepts(Kind.Enable, old(state), env) ==> state == old(state) && process == old(process) && disk == old(disk)
      ensures !ok && Accepts(Kind.Enable, old(state), env) ==> faults > old(faults)
      ensures loose == old(loose)
      ensures probes >= old(probes) && (ok ==> probes > old(probes))
    {
      if state.None? || state.value.target.desired == NONE || state.value.target.desired != env.target { return false; }
      var original := state.value;
      if process.Live? && original.enabled && original.observed == original.target.desired {
        var healthy, _ := Probe(runs);
        if healthy {
          state := Some(Bump(original, env.revision));
          ok := Persist();
          return;
        }
        ok := ClearAway(original, env.revision);
        if !ok { return; }
      }
      ok := StartEnabled(env.revision);
    }

    /** Takes an unhealthy process down and removes its socket. */
    method ClearAway(original: PluginState, revision: nat) returns (ok: bool)
      requires Valid() && state == Some(original)
      modifies this`state, this`process, this`generation, this`disk, this`crashed, this`targets, this`faults, this`owed, this`loose
      ensures Valid() && Grew(old(state), state) && Grew(old(disk), disk) && process.Gone? && state.Some?
      ensures ok ==> state == old(state) && disk == old(disk) && (old(owed).Nothing? ==> owed.Nothing?)
      ensures !ok ==> state.value.target == original.target && !state.value.enabled
      ensures Counted(old(faults), faults, old(crashed), crashed)
      ensures !ok ==> faults > old(faults)
      ensures old(Settled()) ==> OnRecord()
      ensures loose == old(loose)
    {
      ok := TakeDown(original, revision);
      if !ok { return; }
      ok := Try(); // remove the socket
      if !ok { RecordStopped(original.(enabled := false)); }
    }

    /** The end of enable: starts the desired version and records it. */
    method StartEnabled(revision: nat) returns (ok: bool)
      requires Valid() && state.Some? && process.Gone?
      modifies this`state, this`process, this`generation, this`disk, this`crashed, this`targets, this`faults, this`owed, this`loose, this`starts, this`nextProcess, this`runs, this`probes, this`watchers
      ensures Valid() && Grew(old(disk), disk) && state.Some?
      ensures ok ==> disk == state && process.Live? && state.value == Up(Bump(old(state).value, revision))
      ensures !ok ==> state.value.target == old(state).value.target && state.value.desiredRev == Revision(old(state))
      ensures Counted(old(faults), faults, old(crashed), crashed)
      ensures !ok ==> faults > old(faults)
      ensures old(Settled()) ==> OnRecord()
      ensures loose == old(loose)
      ensures probes >= old(probes) && (ok ==> probes > old(probes))
    {
      var p;
      ghost var health;
      ok, p, health := StartVersion(state.value.target.desired);
      if !ok {
        var _ := Persist(); // recordPluginError
        return;
      }
      ok := Publish(p, health, Up(Bump(state.value, revision)), state.value);
      if !ok { var _ := Stop(); }
    }

    method Disable(env: Envelope) returns (ok: bool)
      requires Valid() && Revision(state) <= env.revision
      modifies this`state, this`process, this`generation, this`disk, this`crashed, this`targets, this`faults, this`owed, this`loose
      ensures Valid() && Grew(old(state), state) && Grew(old(disk), disk)
      ensures old(state).None? ==> !ok && state.None?
      ensures ok ==> disk == state && process.Gone? && old(state).value.target.desired == env.target
      ensures ok ==> state.value == Bump(old(state).value, env.revision).(enabled := false, cleanup := Clean)
      ensures !ok && old(state).Some? ==> state.value.target == old(state).value.target
      ensures !ok && old(state).Some? && env.target == state.value.target.desired ==> process.Gone? && !state.value.enabled
      ensures Counted(old(faults), faults, old(crashed), crashed)
      ensures ok ==> Accepts(Kind.Disable, old(state), env) && Achieves(Kind.Disable, old(state), env, state.value, process)
      ensures old(Settled()) ==> OnRecord()
      ensures !Accepts(Kind.Disable, old(state), env) ==> state == old(state) && process == old(process) && disk == old(disk)
      ensures !ok && Accepts(Kind.Disable, old(state), env) ==> faults > old(faults)
      ensures loose == old(loose)
    {
      if state.None? || state.value.target.desired != env.target { return false; }
      var running := process.Live?;
      RemoveProcess();
      var next := Asked(state.value.(enabled := false), env.revision);
      var safe, cleaned := StopDesired(next.target.desired, running);
      if safe {
        next := Bump(next, env.revision).(cleanup := Clean);
      } else if !cleaned {
        next := next.(cleanup := Pending(next.target.desired));
      }
      state := Some(next);
      ok := Persist();
      ok := ok && safe;
    }

    /**
      Changes the version, or reconfigures or re-enables the same one.  The record says
      either that the update happened or what it said before.
    */
    method Update(env: Envelope) returns (ok: bool)
      requires Valid() && Revision(state) <= env.revision
      requires state.Some? ==> state.value.cleanup.Clean?
      modifies this`state, this`process, this`generation, this`disk, this`crashed, this`targets, this`faults, this`owed, this`loose, this`starts, this`nextProcess, this`runs, this`probes, this`watchers
      ensures Valid() && Grew(old(state), state) && Grew(old(disk), disk)
      ensures old(state).None? ==> !ok && state.None?
      ensures ok ==> disk == state && env.revision == state.value.desiredRev && state.value.target.desired == env.target
      ensures old(state).Some? && old(state).value.target.desired != env.target ==>
        && state.value.target == (if ok then Updated(old(state).value, env) else old(state).value).target
        && (ok ==> state.value == Updated(old(state).value, env) && process.Live? == state.value.enabled)
        && CleanStarts(old(starts), starts)
      ensures old(state).Some? && old(state).value.target.desired == env.target ==>
        && state.value.target.previous == old(state).value.target.previous && state.value.target.desired == env.target
        && (ok ==> state.value.target.configHash == env.configHash)
      ensures old(state).Some? && old(state).value.target.desired != env.target ==>
        targets <= old(targets) + {old(state).value.target, Updated(old(state).value, env).target}
      ensures ok && old(state).value.target.desired == env.target ==>
        && state.value.enabled == old(state).value.enabled && (state.value.enabled ==> process.Live?)
        && (state.value.observedRev == env.revision || (!state.value.enabled && state.value.observedRev == old(state).value.observedRev))
      ensures Counted(old(faults), faults, old(crashed), crashed)
      ensures ok ==> Accepts(Kind.Update, old(state), env) && Achieves(Kind.Update, old(state), env, state.value, process)
      ensures old(Settled()) ==> OnRecord()
      ensures !Accepts(Kind.Update, old(state), env) ==> state == old(state) && process == old(process) && disk == old(disk)
      ensures !ok && Accepts(Kind.Update, old(state), env) && env.target != NONE ==> faults > old(faults)
      ensures loose == old(loose)
    {
      ok := Try(); // containsInlineSecret
      if !ok || state.None? { return false; }
      var original := state.value;
      if original.target.desired == env.target {
        ok := UpdateSame(original, env);
        return;
      }
      ok := Try(); // verify both versions, read and write the target's configuration
      if !ok { return; }
      if original.enabled {
        ok := Swap(original, env);
      } else {
        ok := Exchange(original, env);
      }
    }

    /** The version change of a stopped plugin: the old version's hook, then the record. */
    method Exchange(original: PluginState, env: Envelope) returns (ok: bool)
      requires Valid() && state == Some(original) && !original.enabled && original.cleanup.Clean? && Revision(state) <= env.revision
      modifies this`state, this`process, this`generation, this`disk, this`crashed, this`targets, this`faults, this`owed, this`loose
      ensures Valid() && Grew(old(state), state) && Grew(old(disk), disk) && state.Some? && process.Gone?
      ensures ok ==> disk == state && state.value == Updated(original, env)
      ensures !ok ==> state.value.target == original.target
      ensures targets <= old(targets) + {original.target, Updated(original, env).target}
      ensures Counted(old(faults), faults, old(crashed), crashed)
      ensures !ok ==> faults > old(faults)
      ensures old(Settled()) ==> OnRecord()
      ensures loose == old(loose)
    {
      var _, cleaned := StopAndClean(original.target.desired, false);
      if !cleaned {
        RecordTransitionFailure(original, env.revision, false);
        return false;
      }
      state := Some(Updated(original, env));
      ok := Persist();
      if !ok { state := Some(original); }
    }

    /** An update to the version there is: a new configuration, a restart, or the revision alone. */
    method UpdateSame(original: PluginState, env: Envelope) returns (ok: bool)
      requires Valid() && Revision(state) <= env.revision && state == Some(original) && original.target.desired == env.target
      modifies this`state, this`process, this`generation, this`disk, this`crashed, this`targets, this`faults, this`owed, this`loose, this`starts, this`nextProcess, this`runs, this`probes, this`watchers
      ensures Valid() && Grew(old(state), state) && Grew(old(disk), disk) && state.Some?
      ensures ok ==> disk == state && env.revision == state.value.desiredRev && state.value.target.configHash == env.configHash
      ensures state.value.target.previous == original.target.previous && state.value.target.desired == env.target
      ensures ok ==> state.value.enabled == original.enabled && (state.value.enabled ==> process.Live?)
      ensures ok ==> state.value.observedRev == env.revision || (!original.enabled && state.value.observedRev == original.observedRev)
      ensures Counted(old(faults), faults, old(crashed), crashed)
      ensures !ok && original.target.desired != NONE ==> faults > old(faults)
      ensures old(Settled()) ==> OnRecord()
      ensures loose == old(loose)
    {
      ok := Try(); // read the stored configuration
      if !ok { return; }
      var sameBytes := *;
      if original.target.configHash != env.configHash || !sameBytes {
        ok := Configure(env);
      } else if original.enabled {
        ok := Enable(env);
      } else {
        state := Some(Bump(original, env.revision));
        ok := Persist();
      }
    }

    /** The version change of an enabled plugin: the old process down, the new one up. */
    method Swap(original: PluginState, env: Envelope) returns (ok: bool)
      requires Valid() && state == Some(original) && original.enabled && original.cleanup.Clean?
      requires Revision(state) <= env.revision
      modifies this`state, this`process, this`generation, this`disk, this`crashed, this`targets, this`faults, this`owed, this`loose, this`starts, this`nextProcess, this`runs, this`probes, this`watchers
      ensures Valid() && Grew(old(state), state) && Grew(old(disk), disk) && state.Some?
      ensures ok ==> disk == state && process.Live? && state.value == Updated(original, env)
      ensures !ok ==> state.value.target == original.target
      ensures CleanStarts(old(starts), starts)
      ensures targets <= old(targets) + {original.target, Updated(original, env).target}
      ensures Counted(old(faults), faults, old(crashed), crashed)
      ensures !ok ==> faults > old(faults)
      ensures old(Settled()) ==> OnRecord()
      ensures loose == old(loose)
      ensures !ok ==> (process.Live? <==> state.value.enabled)
    {
      var running := process.Live?;
      RemoveProcess();
      var stopped, cleaned := StopAndClean(original.target.desired, running);
      if !stopped || !cleaned {
        RecordTransitionFailure(original, env.revision, cleaned);
        return false;
      }
      ok := Try(); // remove the socket
      if !ok {
        RecordStopped(original.(enabled := false));
        return;
      }
      ok := StartTarget(original, env);
    }

    /** The old process is down: the new version comes up, or the old one again. */
    method StartTarget(original: PluginState, env: Envelope) returns (ok: bool)
      requires Valid() && state == Some(original) && process.Gone? && original.enabled && original.cleanup.Clean?
      requires Revision(state) <= env.revision
      modifies this`state, this`process, this`generation, this`disk, this`crashed, this`targets, this`faults, this`owed, this`loose, this`starts, this`nextProcess, this`runs, this`probes, this`watchers
      ensures Valid() && Grew(old(state), state) && Grew(old(disk), disk) && state.Some?
      ensures ok ==> disk == state && process.Live? && state.value == Updated(original, env)
      ensures !ok ==> state.value.target == original.target
      ensures CleanStarts(old(starts), starts)
      ensures targets <= old(targets) + {original.target, Updated(original, env).target}
      ensures Counted(old(faults), faults, old(crashed), crashed)
      ensures !ok ==> faults > old(faults)
      ensures !ok && faults == old(faults) + 1 ==> process.Live? && state.value == Up(Bump(original, state.value.observedRev))
      ensures old(Settled()) ==> OnRecord()
      ensures loose == old(loose)
      ensures !ok ==> (process.Live? <==> state.value.enabled)
    {
      var p;
      ghost var health;
      ok, p, health := StartVersion(env.target);
      if ok {
        ok := Publish(p, health, Updated(original, env), original);
        if !ok { UndoTarget(original, env); }
      } else if state.value.cleanup.Pending? {
        var _ := RecoverCleanup();
        RecordRollbackBlocked(original, env.revision);
      } else {
        RestartOld(original, env.revision);
      }
    }

    /** The target runs but could not be recorded: it goes, and the old version comes back once it is clean. */
    method UndoTarget(original: PluginState, env: Envelope)
      requires Valid() && state == Some(original) && process.Gone? && original.cleanup.Clean?
      requires Revision(state) <= env.revision
      modifies this`state, this`process, this`generation, this`disk, this`crashed, this`targets, this`faults, this`owed, this`loose, this`starts, this`nextProcess, this`runs, this`probes, this`watchers
      ensures Valid() && Grew(old(state), state) && Grew(old(disk), disk) && state.Some?
      ensures state.value.target == original.target
      ensures CleanStarts(old(starts), starts)
      ensures targets <= old(targets) + {original.target}
      ensures Counted(old(faults), faults, old(crashed), crashed)
      ensures faults == old(faults) ==> process.Live? && state.value == Up(original)
      ensures old(Settled()) ==> OnRecord()
      ensures loose == old(loose) - 1
      ensures process.Live? <==> state.value.enabled
    {
      var stopped, cleaned := StopAndClean(env.target, true);
      if !cleaned {
        MarkCleanupPending(env.target);
        var _ := RecoverCleanup();
      }
      if !stopped || !cleaned {
        RecordRollbackBlocked(original, env.revision);
      } else {
        RestartOld(original, 0);
      }
    }

    /** recordUpdateRollbackBlocked: disabled, keeping the pending cleanup the target left behind. */
    method RecordRollbackBlocked(original: PluginState, revision: nat)
      requires Valid() && state.Some? && WellFormed(original) && Revision(state) <= Asked(original, revision).desiredRev
      modifies this`state, this`process, this`generation, this`disk, this`crashed, this`targets, this`faults, this`loose
      ensures Valid() && Grew(old(disk), disk) && process.Gone?
      ensures state == Some(Asked(MergePending(original, old(state).value), revision).(enabled := false))
      ensures targets <= old(targets) + {original.target}
      ensures Counted(old(faults), faults, old(crashed), crashed)
      ensures old(process).Gone? ==> loose == old(loose)
    {
      RecordStopped(Asked(MergePending(original, state.value).(enabled := false), revision));
    }

    /** Restarts the version an update came from; only with no cleanup pending. */
    method RestartOld(original: PluginState, revision: nat)
      requires Valid() && state == Some(original) && process.Gone? && original.cleanup.Clean?
      modifies this`state, this`process, this`generation, this`disk, this`crashed, this`targets, this`faults, this`owed, this`loose, this`starts, this`nextProcess, this`runs, this`probes, this`watchers
      ensures Valid() && Grew(old(state), state) && Grew(old(disk), disk) && state.Some?
      ensures state.value.target == original.target
      ensures process.Live? <==> state.value.enabled
      ensures process.Live? ==> state.value == Up(Bump(original, revision))
      ensures CleanStarts(old(starts), starts)
      ensures targets <= old(targets) + {original.target}
      ensures Counted(old(faults), faults, old(crashed), crashed)
      ensures faults == old(faults) ==> process.Live? && disk == state
      ensures old(Settled()) ==> OnRecord()
      ensures loose == old(loose)
    {
      var ok, p;
      ghost var health;
      ok, p, health := StartVersion(original.target.desired);
      if ok {
        SetProcess(p, health);
        state := Some(Up(Bump(original, revision)));
      } else {
        state := Some(Asked(MergePending(original, state.value), revision).(enabled := false));
      }
      var _ := Persist();
    }

    /** Back to the previous version, which must be the one the operation names. */
    method Rollback(env: Envelope) returns (ok: bool)
      requires Valid() && Revision(state) <= env.revision
      requires state.Some? ==> state.value.cleanup.Clean?
      modifies this`state, this`process, this`generation, this`disk, this`crashed, this`targets, this`faults, this`owed, this`loose, this`starts, this`nextProcess, this`runs, this`probes, this`watchers
      ensures Valid() && Grew(old(state), state) && Grew(old(disk), disk)
      ensures old(state).None? ==> !ok && state.None?
      ensures ok ==> disk == state && env.revision == state.value.desiredRev
      ensures ok ==> old(state).value.target.previous == env.target == state.value.target.desired
      ensures old(state).Some? && old(state).value.target.previous != env.target ==> !ok && state == old(state)
      ensures ok && old(state).value.target.desired != env.target ==>
        state.value.target.previous == old(state).value.target.desired && state.value.target.configHash == env.configHash
      ensures !ok && old(state).Some? && old(state).value.target.desired != env.target ==>
        state.value.target == old(state).value.target
      ensures Counted(old(faults), faults, old(crashed), crashed)
      ensures ok ==> Accepts(Kind.Rollback, old(state), env) && Achieves(Kind.Rollback, old(state), env, state.value, process)
      ensures old(Settled()) ==> OnRecord()
      ensures !Accepts(Kind.Rollback, old(state), env) ==> state == old(state) && process == old(process) && disk == old(disk)
      ensures !ok && Accepts(Kind.Rollback, old(state), env) ==> faults > old(faults)
      ensures loose == old(loose)
    {
      if state.None? || state.value.target.previous == NONE || state.value.target.previous != env.target { return false; }
      ok := Update(env);
    }

    /** An update and a rollback that both succeed swap the two versions back. */
    method UpdateThenRollback(up: Envelope, down: Envelope) returns (there: bool, back: bool)
      requires Valid() && state.Some? && state.value.cleanup.Clean? && up.target != state.value.target.desired
      requires Revision(state) <= up.revision <= down.revision
      modifies this`state, this`process, this`generation, this`disk, this`crashed, this`targets, this`faults, this`owed, this`loose, this`starts, this`nextProcess, this`runs, this`probes, this`watchers
      ensures Valid()
      ensures !there ==> state.Some? && state.value.target == old(state).value.target
      ensures there && !back ==> state.Some? && state.value.target == Target(up.target, old(state).value.target.desired, up.configHash)
      ensures there && back ==> disk == state && state.Some?
      ensures there && back ==> state.value.target == Target(old(state).value.target.desired, up.target, down.configHash)
    {
      back := false;
      there := Update(up);
      if there { back := Rollback(down); }
    }

    /**
      A mutating operation as handle runs it under the plugin's lock: pending cleanup first,
      then the revision check, then the operation.  A replay of an interrupted operation may
      repeat the current revision.
    */
    method Execute(kind: Kind, env: Envelope, replay: bool) returns (ok: bool)
      requires Valid() && LogValid() && env.revision > 0
      modifies this
      ensures Valid() && LogValid() && Grew(old(state), state) && Grew(old(disk), disk)
      ensures log == if ok then old(log) + [Success(env.revision, replay)] else old(log)
      ensures ok && old(state).Some? ==> env.revision > Revision(old(state)) || (replay && env.revision == Revision(old(state)))
      ensures ok ==> disk == state && Revision(state) == env.revision
      ensures ok ==> Accepts(kind, old(state), env) && Achieves(kind, old(state), env, state.value, process)
      ensures Counted(old(faults), faults, old(crashed), crashed)
      ensures !ok && !old(crashed) && env.target != NONE && Accepts(kind, old(state), env) && Newer(old(state), env, replay) ==> faults > old(faults)
      ensures old(OnRecord()) ==> OnRecord()
      ensures loose == old(loose)
      ensures ok && kind.Enable? ==> probes > old(probes)
      ensures ok ==> !crashed
    {
      ok := RecoverThenDispatch(kind, env, replay);
      LogStays(log, old(disk), disk);
      if ok {
        LogGrows(log, old(state), disk, Success(env.revision, replay));
        log := log + [Success(env.revision, replay)];
      }
    }

    method RecoverThenDispatch(kind: Kind, env: Envelope, replay: bool) returns (ok: bool)
      requires Valid() && env.revision > 0
      modifies this`state, this`process, this`generation, this`disk, this`crashed, this`targets, this`faults, this`owed, this`loose, this`starts, this`nextProcess, this`runs, this`probes, this`watchers
      ensures Valid() && Grew(old(state), state) && Grew(old(disk), disk)
      ensures ok ==> disk == state && state.Some? && Revision(state) == env.revision && Newer(old(state), env, replay)
      ensures ok ==> Accepts(kind, old(state), env) && Achieves(kind, old(state), env, state.value, process)
      ensures Counted(old(faults), faults, old(crashed), crashed)
      ensures !ok && !old(crashed) && env.target != NONE && Accepts(kind, old(state), env) && Newer(old(state), env, replay) ==> faults > old(faults)
      ensures old(OnRecord()) ==> OnRecord()
      ensures loose == old(loose)
      ensures ok && kind.Enable? ==> probes > old(probes)
      ensures ok ==> !crashed
    {
      ok := RecoverCleanup();
      if !ok { return; }
      ghost var recovered := state;
      ok := DispatchNewer(kind, env, replay);
      CleanupDoesNotMatter(kind, old(state), recovered, env, replay, if state.Some? then state.value else NO_RECORD, process);
    }

    /** Behind the recovery: the revision check, then the operation. */
    method DispatchNewer(kind: Kind, env: Envelope, replay: bool) returns (ok: bool)
      requires Valid() && env.revision > 0 && (state.Some? ==> state.value.cleanup.Clean?)
      modifies this`state, this`process, this`generation, this`disk, this`crashed, this`targets, this`faults, this`owed, this`loose, this`starts, this`nextProcess, this`runs, this`probes, this`watchers
      ensures Valid() && Grew(old(state), state) && Grew(old(disk), disk)
      ensures ok ==> disk == state && state.Some? && Revision(state) == env.revision && Newer(old(state), env, replay)
      ensures ok ==> Accepts(kind, old(state), env) && Achieves(kind, old(state), env, state.value, process)
      ensures Counted(old(faults), faults, old(crashed), crashed)
      ensures !ok && !old(crashed) && env.target != NONE && Accepts(kind, old(state), env) && Newer(old(state), env, replay) ==> faults > old(faults)
      ensures old(OnRecord()) ==> OnRecord()
      ensures loose == old(loose)
      ensures ok && kind.Enable? ==> probes > old(probes)
      ensures ok ==> !crashed
    {
      if !Newer(state, env, replay) { return false; } // rejectStaleRevision
      ok := Dispatch(kind, env);
      ok := ok && !crashed; // a dead Agent answers nothing
    }

    method Dispatch(kind: Kind, env: Envelope) returns (ok: bool)
      requires Valid() && env.revision > 0 && Revision(state) <= env.revision
      requires state.Some? ==> state.value.cleanup.Clean?
      modifies this`state, this`process, this`generation, this`disk, this`crashed, this`targets, this`faults, this`owed, this`loose, this`starts, this`nextProcess, this`runs, this`probes, this`watchers
      ensures Valid() && Grew(old(state), state) && Grew(old(disk), disk)
      ensures ok ==> disk == state && state.Some? && Revision(state) == env.revision
      ensures ok ==> Accepts(kind, old(state), env) && Achieves(kind, old(state), env, state.value, process)
      ensures !Accepts(kind, old(state), env) ==> state == old(state) && process == old(process) && disk == old(disk)
      ensures Counted(old(faults), faults, old(crashed), crashed)
      ensures !ok && env.target != NONE && Accepts(kind, old(state), env) ==> faults > old(faults)
      ensures old(OnRecord()) ==> OnRecord()
      ensures loose == old(loose)
      ensures ok && kind.Enable? ==> probes > old(probes)
    {
      ok := kind.Disable?;
      if !ok { ok := Try(); } // download and verify the package, or stage the secret configuration
      if !ok { return; }
      ok := Carry(kind, env);
      var committed := kind.Disable? || kind.Install?;
      if !committed { committed := Try(); } // remove stale secrets
      ok := ok && committed;
    }

    /** executePreparedOperation: the operation of the kind. */
    method Carry(kind: Kind, env: Envelope) returns (ok: bool)
      requires Valid() && env.revision > 0 && Revision(state) <= env.revision
      requires state.Some? ==> state.value.cleanup.Clean?
      modifies this`state, this`process, this`generation, this`disk, this`crashed, this`targets, this`faults, this`owed, this`loose, this`starts, this`nextProcess, this`runs, this`probes, this`watchers
      ensures Valid() && Grew(old(state), state) && Grew(old(disk), disk)
      ensures ok ==> disk == state && state.Some? && Revision(state) == env.revision
      ensures ok ==> Accepts(kind, old(state), env) && Achieves(kind, old(state), env, state.value, process)
      ensures !Accepts(kind, old(state), env) ==> state == old(state) && process == old(process) && disk == old(disk)
      ensures Counted(old(faults), faults, old(crashed), crashed)
      ensures !ok && env.target != NONE && Accepts(kind, old(state), env) ==> faults > old(faults)
      ensures old(OnRecord()) ==> OnRecord()
      ensures loose == old(loose)
      ensures ok && kind.Enable? ==> probes > old(probes)
    {
      match kind {
        case Install => ok := InstallPrepared(env.target, env.revision);
        case Configure => ok := Configure(env);
        case Enable => ok := Enable(env);
        case Disable => ok := Disable(env);
        case Update => ok := Update(env);
        case Rollback => ok := Rollback(env);
      }
    }

    /** A watcher's process exited: acts only if that process is the registered one. */
    method ObserveExit(w: Watcher)
      requires Valid() && LogValid() && w in watchers
      modifies this`state, this`process, this`generation, this`disk, this`crashed, this`targets, this`faults, this`owed, this`loose
      ensures Valid() && LogValid() && Grew(old(state), state) && Grew(old(disk), disk)
      ensures old(process) != Live(w.process) ==>
        state == old(state) && process == old(process) && generation == old(generation) && disk == old(disk)
      ensures old(process) == Live(w.process) ==>
        && process.Gone?
        && state.value == old(state).value.(enabled := false, cleanup := state.value.cleanup)
        && state.value.cleanup in {Clean, Pending(state.value.target.desired)}
      ensures Counted(old(faults), faults, old(crashed), crashed)
      ensures old(OnRecord()) ==> OnRecord()
      ensures old(process) == Live(w.process) && faults == old(faults) ==> state.value.cleanup.Clean? && disk == state
      ensures loose == old(loose)
    {
      if generation != w.generation { return; }
      RemoveEnded();
      if state.None? { return; }
      var stopped := state.value.(enabled := false, cleanup := Pending(state.value.target.desired));
      state := Some(stopped);
      var _ := Persist();
      var safe, _ := StopDesired(stopped.target.desired, false);
      if safe { state := Some(stopped.(cleanup := Clean)); }
      var _ := Persist();
    }

    /** The maintenance monitor probes the plugin and may restart its desired version. */
    method Maintain(restart: bool)
      requires Valid() && LogValid()
      modifies this`state, this`process, this`generation, this`disk, this`crashed, this`targets, this`faults, this`owed, this`loose, this`starts, this`nextProcess, this`runs, this`probes, this`watchers
      ensures Valid() && LogValid() && Grew(old(state), state) && Grew(old(disk), disk)
      ensures old(state).Some? ==> state.value.target == old(state).value.target
      ensures !restart ==> state == old(state) && process == old(process)
      ensures Counted(old(faults), faults, old(crashed), crashed)
      ensures old(OnRecord()) ==> OnRecord()
      ensures restart && old(state).Some? && old(state).value.target.desired != NONE && old(state).value.cleanup.Clean? && faults == old(faults) ==>
        process.Live? && state.value == Up(old(state).value)
      ensures loose == old(loose)
    {
      var written := Persist();
      if !written || !restart || state.None? || state.value.target.desired == NONE || state.value.cleanup.Pending? { return; }
      ghost var _ := RestartDesired();
    }

    /** Takes the process down and starts the desired version again. */
    method RestartDesired() returns (ghost down: bool)
      requires Valid() && state.Some?
      modifies this`state, this`process, this`generation, this`disk, this`crashed, this`targets, this`faults, this`owed, this`loose, this`starts, this`nextProcess, this`runs, this`probes, this`watchers
      ensures Valid() && Grew(old(state), state) && Grew(old(disk), disk)
      ensures state.value.target == old(state).value.target
      ensures old(Settled()) ==> OnRecord()
      ensures Counted(old(faults), faults, old(crashed), crashed)
      ensures faults == old(faults) ==> process.Live? && state.value == Up(old(state).value)
      ensures loose == old(loose)
      ensures !down ==> process.Gone? && !state.value.enabled && (old(Settled()) && owed.Nothing? ==> state.value.cleanup.Clean?)
      ensures !down ==> faults > old(faults)
    {
      var original := state.value;
      var running := process.Live?;
      RemoveProcess();
      var stopped, cleaned := StopAndClean(original.target.desired, running);
      down := stopped && cleaned;
      if !stopped || !cleaned {
        RecordTransitionFailure(original, original.desiredRev, true);
        if !cleaned { MarkCleanupPending(original.target.desired); }
        return;
      }
      var ok := Try(); // remove the socket
      if !ok { return; }
      ok := StartEnabled(0);
    }

    /** Another plugin's operation writes the whole state file. */
    method OtherPersist()
      requires Valid() && LogValid()
      modifies this`disk, this`crashed, this`targets, this`faults
      ensures Valid() && LogValid() && Grew(old(disk), disk)
      ensures old(OnRecord()) ==> OnRecord()
    {
      var _ := Persist();
    }

    /** The Agent process ends and a new Supervisor loads the file, recovers and restores. */
    method Restart(restore: bool)
      requires Valid() && LogValid()
      modifies this`state, this`process, this`generation, this`disk, this`crashed, this`targets, this`faults, this`owed, this`loose, this`starts, this`nextProcess, this`runs, this`probes, this`watchers
      ensures Valid() && LogValid() && Grew(old(disk), disk)
      ensures state.Some? <==> old(disk).Some?
      ensures state.Some? ==> state.value.target == old(disk).value.target && Revision(state) == Revision(old(disk))
      ensures process.Live? ==> old(disk).value.enabled
      ensures old(OnRecord()) ==> OnRecord()
      ensures faults >= old(faults)
      ensures faults == old(faults) && state.Some? ==> state.value.cleanup.Clean? && (process.Live? <==> restore && old(disk).value.enabled)
      ensures loose == 0
      ensures faults == old(faults) ==> !crashed
    {
      Reload(restore);
      LogStays(log, old(disk), disk);
    }

    method Reload(restore: bool)
      requires Valid()
      modifies this`state, this`process, this`generation, this`disk, this`crashed, this`targets, this`faults, this`owed, this`loose, this`starts, this`nextProcess, this`runs, this`probes, this`watchers
      ensures Valid() && Grew(old(disk), disk)
      ensures state.Some? <==> old(disk).Some?
      ensures state.Some? ==> state.value.target == old(disk).value.target && Revision(state) == Revision(old(disk))
      ensures process.Live? ==> old(disk).value.enabled
      ensures old(OnRecord()) ==> OnRecord()
      ensures faults >= old(faults)
      ensures faults == old(faults) && state.Some? ==> state.value.cleanup.Clean? && (process.Live? <==> restore && old(disk).value.enabled)
      ensures loose == 0
      ensures faults == old(faults) ==> !crashed
    {
      state, process, generation, watchers, crashed := disk, Gone, 0, {}, false;
      loose := 0; // what became of the old Agent's processes is not known
      if !(owed.One? && state.Some? && Records(state.value, owed.version)) { owed := Nothing; } // what the file does not say is forgotten
      var ok := RecoverCleanup();
      if state.None? || !state.value.enabled || state.value.cleanup.Pending? { return; }
      if restore { Restore(); } // the maintenance store or an interrupted operation may defer it
    }

    /** Starts what the file says is enabled. */
    method Restore()
      requires Valid() && state.Some? && state.value.enabled && state.value.cleanup.Clean? && process.Gone?
      modifies this`state, this`process, this`generation, this`disk, this`crashed, this`targets, this`faults, this`owed, this`loose, this`starts, this`nextProcess, this`runs, this`probes, this`watchers
      ensures Valid() && Grew(old(disk), disk) && state.Some?
      ensures state.value.target == old(state).value.target && Revision(state) == Revision(old(state))
      ensures Counted(old(faults), faults, old(crashed), crashed)
      ensures faults == old(faults) ==> process.Live? && state.value.cleanup.Clean?
      ensures old(Settled()) ==> OnRecord()
      ensures loose == old(loose)
    {
      var ok, p;
      ghost var health;
      ok, p, health := StartVersion(state.value.target.desired);
      if ok {
        SetProcess(p, health);
        state := Some(Up(state.value));
      }
      var _ := Persist();
    }

    /** Stops the plugin for good; success means no process and no pending cleanup. */
    method Close() returns (ok: bool)
      requires Valid() && LogValid()
      modifies this`state, this`process, this`generation, this`disk, this`crashed, this`targets, this`faults, this`owed, this`loose
      ensures Valid() && LogValid() && Grew(old(state), state) && Grew(old(disk), disk)
      ensures old(state).Some? ==> state.value == old(state).value.(cleanup := state.value.cleanup)
      ensures ok ==> process.Gone? && disk == state && (state.Some? ==> state.value.cleanup.Clean?)
      ensures Counted(old(faults), faults, old(crashed), crashed)
      ensures old(OnRecord()) ==> OnRecord()
      ensures !ok ==> faults > old(faults)
      ensures loose == old(loose)
    {
      ok := true;
      if process.Live? { ok := StopForClose(); }
      var recovered := RecoverCleanup();
      var persisted := Persist();
      ok := ok && recovered && persisted;
    }

    /** The running process is stopped; its cleanup stays pending unless all of it went well. */
    method StopForClose() returns (ok: bool)
      requires Valid() && LogValid() && process.Live?
      modifies this`state, this`process, this`generation, this`faults, this`owed, this`loose
      ensures Valid() && LogValid() && Grew(old(state), state) && state.Some?
      ensures state.value == old(state).value.(cleanup := state.value.cleanup)
      ensures ok ==> process.Gone?
      ensures faults >= old(faults) && (ok <==> faults == old(faults))
      ensures process.Live? ==> process == old(process)
      ensures old(OnRecord()) ==> OnRecord()
      ensures ok ==> state.value.cleanup.Clean?
      ensures loose == old(loose)
    {
      var stopped, clean;
      ok, stopped, clean := StopRunning(state.value.target.desired);
      if stopped { RemoveEnded(); }
      state := Some(state.value.(cleanup := if clean then Clean else Pending(state.value.target.desired)));
    }

    /** Stops a version; its hook runs only after a stop of a verified one. */
    method StopRunning(version: Version) returns (ok: bool, stopped: bool, clean: bool)
      modifies this`faults, this`owed
      ensures faults >= old(faults) && (ok <==> faults == old(faults)) && (ok ==> clean) && (clean ==> stopped)
      ensures owed == if clean then Paid(old(owed), version) else owed
      ensures clean || owed == old(owed) || owed == Owe(old(owed), version)
    {
      var verified := Try();
      stopped := Try();
      var cleaned := true;
      if stopped && verified { cleaned := Hook(version); }
      var socketRemoved := true;
      if stopped { socketRemoved := Try(); }
      clean := verified && stopped && cleaned;
      ok := clean && socketRemoved;
    }

    /** Any run: every operation, notice and restart, each able to fail anywhere. */
    method Run(script: seq<Event>)
      requires Valid() && LogValid()
      modifies this
      ensures Valid() && LogValid() && Grew(old(disk), disk) && old(log) <= log
      ensures old(OnRecord()) ==> OnRecord()
      ensures old(loose) == 0 ==> loose == 0
    {
      for i := 0 to |script|
        invariant Valid() && LogValid() && Grew(old(disk), disk) && old(log) <= log && (old(OnRecord()) ==> OnRecord())
        invariant old(loose) == 0 ==> loose == 0
      {
        if crashed {
          var restore: bool := *;
          Restart(restore);
        } else {
          Happen(script[i]);
        }
      }
    }

    /** One thing that happens while the Agent runs; it may die at any write of it. */
    method Happen(event: Event)
      requires Valid() && LogValid()
      modifies this
      ensures Valid() && LogValid() && Grew(old(disk), disk) && old(log) <= log
      ensures old(OnRecord()) ==> OnRecord()
      ensures old(loose) == 0 ==> loose == 0
      ensures event.LocalInstall? && old(state).None? && faults == old(faults) ==> state.Some? && state.value.target == Target(event.version, NONE, 0)
    {
      match event {
        case Operation(kind, env, replay) =>
          if env.revision > 0 { var _ := Execute(kind, env, replay); }
        case LocalInstall(version) => var _ := InstallPrepared(version, 0);
        case Exited(w) => if w in watchers { ObserveExit(w); }
        case Maintenance(restart) => Maintain(restart);
        case OtherPlugin => OtherPersist();
        case Crash(restore) => Restart(restore);
        case Shutdown => var _ := Close();
      }
    }
  }
}
