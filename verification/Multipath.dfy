/**
  The MPTCP path monitor (anxline/multipath.go): probes decide a path's health with
  hysteresis, and dead paths are taken out of the kernel while another one is usable.
*/
module Multipath {

  datatype Action = Delete | Backup

  /** The endpoint id and whether its own flags say backup. */
  datatype Path = Path(endpoint: nat, backup: bool)

  datatype PathState = PathState(
    path: Path, healthy: bool, demoted: bool, failures: nat, successes: nat, demotes: nat, restores: nat)

  function Fresh(path: Path): PathState {
    PathState(path, true, false, 0, 0, 0, 0)
  }

  // ---- Health

  /** One probe result on a path's counters and verdict. */
  function Judge(p: PathState, ok: bool, failAfter: nat, recoverAfter: nat): PathState {
    if ok then
      p.(failures := 0, successes := p.successes + 1, healthy := p.healthy || p.successes + 1 >= recoverAfter)
    else
      p.(successes := 0, failures := p.failures + 1, healthy := p.healthy && p.failures + 1 < failAfter)
  }

  /** The n probes before time t all said `ok`. */
  ghost predicate Window(history: seq<bool>, t: nat, n: nat, ok: bool) {
    n <= t <= |history| && forall j | t - n <= j < t :: history[j] == ok
  }

  /** The latest decisive window was a failing one. */
  ghost predicate Dead(history: seq<bool>, failAfter: nat, recoverAfter: nat) {
    exists t: nat :: Window(history, t, failAfter, false)
      && forall u | t < u <= |history| :: !Window(history, u, recoverAfter, true)
  }

  /** The counters are the lengths of the last run of failures and of successes. */
  ghost predicate Counts(p: PathState, history: seq<bool>) {
    && Window(history, |history|, p.failures, false) && !Window(history, |history|, p.failures + 1, false)
    && Window(history, |history|, p.successes, true) && !Window(history, |history|, p.successes + 1, true)
  }

  ghost predicate Tracks(p: PathState, history: seq<bool>, failAfter: nat, recoverAfter: nat) {
    Counts(p, history) && (p.healthy <==> !Dead(history, failAfter, recoverAfter))
  }

  lemma WindowBefore(history: seq<bool>, ok: bool, t: nat, n: nat, value: bool)
    requires t <= |history|
    ensures Window(history + [ok], t, n, value) <==> Window(history, t, n, value)
  {
    assert forall j | 0 <= j < |history| :: (history + [ok])[j] == history[j];
  }

  lemma WindowNow(history: seq<bool>, ok: bool, n: nat, value: bool)
    ensures Window(history + [ok], |history| + 1, n + 1, value) <==> ok == value && Window(history, |history|, n, value)
  {
    var next := history + [ok];
    if ok == value && Window(history, |history|, n, value) {
      assert forall j | |history| - n <= j < |history| + 1 :: next[j] == value;
    }
    if Window(next, |history| + 1, n + 1, value) {
      assert next[|history|] == value;
      assert forall j | |history| - n <= j < |history| :: history[j] == next[j];
    }
  }

  lemma WindowShrinks(history: seq<bool>, n: nat, m: nat, value: bool)
    requires n <= m
    ensures Window(history, |history|, m, value) ==> Window(history, |history|, n, value)
  {
  }

  lemma JudgeCounts(p: PathState, history: seq<bool>, ok: bool, failAfter: nat, recoverAfter: nat)
    requires Counts(p, history)
    ensures Counts(Judge(p, ok, failAfter, recoverAfter), history + [ok])
  {
    WindowNow(history, ok, p.failures, false);
    WindowNow(history, ok, p.failures + 1, false);
    WindowNow(history, ok, p.successes, true);
    WindowNow(history, ok, p.successes + 1, true);
    WindowNow(history, ok, 0, !ok);
  }

  /** The last n probes said `value` exactly when the counter has reached n. */
  lemma WindowIsCount(history: seq<bool>, count: nat, n: nat, value: bool)
    requires Window(history, |history|, count, value) && !Window(history, |history|, count + 1, value)
    ensures Window(history, |history|, n, value) <==> n <= count
  {
    if n > count {
      WindowShrinks(history, count + 1, n, value);
    } else {
      WindowShrinks(history, n, count, value);
    }
  }

  /** Hysteresis is a function of the whole history: the counters give the latest decisive window. */
  lemma JudgeTracks(p: PathState, history: seq<bool>, ok: bool, failAfter: nat, recoverAfter: nat)
    requires failAfter >= 1 && recoverAfter >= 1 && Tracks(p, history, failAfter, recoverAfter)
    ensures Tracks(Judge(p, ok, failAfter, recoverAfter), history + [ok], failAfter, recoverAfter)
  {
    var next, q := history + [ok], Judge(p, ok, failAfter, recoverAfter);
    JudgeCounts(p, history, ok, failAfter, recoverAfter);
    WindowIsCount(next, q.failures, failAfter, false);
    WindowIsCount(next, q.successes, recoverAfter, true);
    forall t: nat, n: nat, value | t <= |history| ensures Window(next, t, n, value) <==> Window(history, t, n, value) {
      WindowBefore(history, ok, t, n, value);
    }
    if q.failures >= failAfter {
      assert Window(next, |next|, failAfter, false);
    } else if Dead(history, failAfter, recoverAfter) && q.successes < recoverAfter {
      var t: nat :| Window(history, t, failAfter, false) && forall u | t < u <= |history| :: !Window(history, u, recoverAfter, true);
      assert Window(next, t, failAfter, false);
    }
  }

  // ---- A sweep with working commands

  predicate OtherUsable(paths: seq<PathState>, i: nat) {
    exists j | 0 <= j < |paths| && j != i :: paths[j].healthy && !paths[j].demoted
  }

  /** Marking a path backup does nothing when its own flags already say so. */
  predicate Demotable(p: PathState, action: Action) {
    !(action.Backup? && p.path.backup)
  }

  function Moved(paths: seq<PathState>, i: nat, action: Action): PathState
    requires i < |paths|
  {
    var p := paths[i];
    if !p.healthy && !p.demoted && OtherUsable(paths, i) && Demotable(p, action) then
      p.(demoted := true, demotes := p.demotes + 1)
    else if p.healthy && p.demoted then
      p.(demoted := false, restores := p.restores + 1)
    else p
  }

  function Sweep(paths: seq<PathState>, i: nat, action: Action): (swept: seq<PathState>)
    requires i <= |paths|
    ensures |swept| == |paths|
    decreases |paths| - i
  {
    if i == |paths| then paths else Sweep(paths[i := Moved(paths, i, action)], i + 1, action)
  }

  /** The same paths with the same health. */
  ghost predicate SameHealth(a: seq<PathState>, b: seq<PathState>) {
    |a| == |b| && forall k | 0 <= k < |a| :: a[k].path == b[k].path && a[k].healthy == b[k].healthy
  }

  ghost predicate SomeHealthy(paths: seq<PathState>) {
    exists k | 0 <= k < |paths| :: paths[k].healthy
  }

  ghost predicate HealthyAreIn(paths: seq<PathState>) {
    forall k | 0 <= k < |paths| :: paths[k].healthy ==> !paths[k].demoted
  }

  /** Exactly the dead paths that can be taken out are out. */
  ghost predicate Exact(paths: seq<PathState>, action: Action) {
    forall k | 0 <= k < |paths| :: paths[k].demoted <==> !paths[k].healthy && Demotable(paths[k], action)
  }

  /** One sweep gives every healthy path back and moves nothing when none is healthy. */
  lemma {:induction false} SweepRestores(paths: seq<PathState>, i: nat, action: Action)
    requires i <= |paths|
    requires forall k | 0 <= k < i :: paths[k].healthy ==> !paths[k].demoted
    ensures SameHealth(Sweep(paths, i, action), paths) && HealthyAreIn(Sweep(paths, i, action))
    ensures !SomeHealthy(paths) ==> Sweep(paths, i, action) == paths
    decreases |paths| - i
  {
    if i < |paths| {
      var next := paths[i := Moved(paths, i, action)];
      SweepRestores(next, i + 1, action);
      if !SomeHealthy(paths) {
        assert next == paths;
      }
    }
  }

  /** With every healthy path in, a sweep takes out exactly the dead ones. */
  lemma {:induction false} SweepTakesOut(paths: seq<PathState>, i: nat, action: Action)
    requires i <= |paths| && HealthyAreIn(paths) && SomeHealthy(paths)
    requires forall k | 0 <= k < |paths| :: paths[k].demoted ==> Demotable(paths[k], action)
    requires forall k | 0 <= k < i :: paths[k].demoted <==> !paths[k].healthy && Demotable(paths[k], action)
    ensures Exact(Sweep(paths, i, action), action)
    decreases |paths| - i
  {
    if i < |paths| {
      var h :| 0 <= h < |paths| && paths[h].healthy;
      assert !paths[i].healthy ==> OtherUsable(paths, i);
      var next := paths[i := Moved(paths, i, action)];
      assert next[h].healthy;
      SweepTakesOut(next, i + 1, action);
    }
  }

  /** Nothing is left to do when the dead paths are out, or when every path is dead. */
  lemma {:induction false} SweepRests(paths: seq<PathState>, i: nat, action: Action)
    requires i <= |paths| && (Exact(paths, action) || !SomeHealthy(paths))
    ensures Sweep(paths, i, action) == paths
    decreases |paths| - i
  {
    if i < |paths| {
      assert Moved(paths, i, action) == paths[i];
      assert paths[i := Moved(paths, i, action)] == paths;
      SweepRests(paths, i + 1, action);
    }
  }

  function JudgeAll(paths: seq<PathState>, results: seq<bool>, failAfter: nat, recoverAfter: nat): (judged: seq<PathState>)
    requires |results| == |paths|
    ensures |judged| == |paths|
  {
    seq(|paths|, i requires 0 <= i < |paths| => Judge(paths[i], results[i], failAfter, recoverAfter))
  }

  /** One probe round whose commands all work. */
  function Round(paths: seq<PathState>, results: seq<bool>, failAfter: nat, recoverAfter: nat, action: Action): (next: seq<PathState>)
    requires |results| == |paths|
    ensures |next| == |paths|
  {
    Sweep(JudgeAll(paths, results, failAfter, recoverAfter), 0, action)
  }

  /** What a round may move: which paths are out, and how often. */
  ghost predicate SamePlaces(a: seq<PathState>, b: seq<PathState>) {
    && |a| == |b|
    && forall k | 0 <= k < |a| ::
      a[k].demoted == b[k].demoted && a[k].demotes == b[k].demotes && a[k].restores == b[k].restores
  }

  /**
    Two rounds with the same verdicts reach the fixed point: if any path is healthy, the
    paths out are exactly the dead ones, and a third such round moves nothing.
  */
  lemma TwoRoundsSettle(p0: seq<PathState>, r1: seq<bool>, r2: seq<bool>, r3: seq<bool>, failAfter: nat, recoverAfter: nat, action: Action)
    requires |r1| == |r2| == |r3| == |p0|
    requires forall k | 0 <= k < |p0| :: p0[k].demoted ==> Demotable(p0[k], action)
    requires var p1 := Round(p0, r1, failAfter, recoverAfter, action);
      var p2 := Round(p1, r2, failAfter, recoverAfter, action);
      SameHealth(p1, p2) && SameHealth(p2, Round(p2, r3, failAfter, recoverAfter, action))
    ensures var p1 := Round(p0, r1, failAfter, recoverAfter, action);
      var p2 := Round(p1, r2, failAfter, recoverAfter, action);
      && (SomeHealthy(p2) ==> Exact(p2, action))
      && SamePlaces(p2, Round(p2, r3, failAfter, recoverAfter, action))
  {
    var q1 := JudgeAll(p0, r1, failAfter, recoverAfter);
    SweepRestores(q1, 0, action);
    OutStaysDemotable(q1, 0, action);
    var p1 := Round(p0, r1, failAfter, recoverAfter, action);
    SecondRound(p1, r2, failAfter, recoverAfter, action);
    ThirdRound(Round(p1, r2, failAfter, recoverAfter, action), r3, failAfter, recoverAfter, action);
  }

  lemma SecondRound(p: seq<PathState>, results: seq<bool>, failAfter: nat, recoverAfter: nat, action: Action)
    requires |results| == |p| && HealthyAreIn(p) && SameHealth(p, Round(p, results, failAfter, recoverAfter, action))
    requires forall k | 0 <= k < |p| :: p[k].demoted ==> Demotable(p[k], action)
    ensures var next := Round(p, results, failAfter, recoverAfter, action); SomeHealthy(next) ==> Exact(next, action)
  {
    var judged := JudgeAll(p, results, failAfter, recoverAfter);
    SweepRestores(judged, 0, action);
    if SomeHealthy(judged) {
      SweepTakesOut(judged, 0, action);
    }
  }

  lemma ThirdRound(p: seq<PathState>, results: seq<bool>, failAfter: nat, recoverAfter: nat, action: Action)
    requires |results| == |p| && SameHealth(p, Round(p, results, failAfter, recoverAfter, action))
    requires SomeHealthy(p) ==> Exact(p, action)
    ensures SamePlaces(p, Round(p, results, failAfter, recoverAfter, action))
  {
    var judged := JudgeAll(p, results, failAfter, recoverAfter);
    SweepRestores(judged, 0, action);
    SweepRests(judged, 0, action);
  }

  lemma {:induction false} OutStaysDemotable(paths: seq<PathState>, i: nat, action: Action)
    requires i <= |paths| && forall k | 0 <= k < |paths| :: paths[k].demoted ==> Demotable(paths[k], action)
    ensures forall k | 0 <= k < |paths| :: Sweep(paths, i, action)[k].demoted ==> Demotable(Sweep(paths, i, action)[k], action)
    decreases |paths| - i
  {
    if i < |paths| {
      OutStaysDemotable(paths[i := Moved(paths, i, action)], i + 1, action);
    }
  }

  /** One round is not enough: the only healthy path may be the one that is out. */
  lemma OneRoundIsNotEnough(a: Path, b: Path)
    ensures var dead := Fresh(a).(healthy := false, failures := 2);
      var back := Fresh(b).(demoted := true, demotes := 1, successes := 5);
      var swept := Sweep([dead, back], 0, Delete);
      SomeHealthy(swept) && !Exact(swept, Delete)
  {
    var dead := Fresh(a).(healthy := false, failures := 2);
    var back := Fresh(b).(demoted := true, demotes := 1, successes := 5);
    var paths := [dead, back];
    assert Moved(paths, 0, Delete) == dead;
    assert paths[0 := dead] == paths;
    var next := [dead, back.(demoted := false, restores := 1)];
    assert Moved(paths, 1, Delete) == next[1];
    assert paths[1 := next[1]] == next;
    assert Sweep(paths, 0, Delete) == Sweep(paths, 1, Delete) == Sweep(next, 2, Delete) == next;
    assert next[1].healthy && !next[0].demoted;
  }

  // ---- The monitor

  /** What holds in every reachable state. */
  ghost predicate Sound(paths: seq<PathState>, action: Action) {
    && (exists k | 0 <= k < |paths| :: !paths[k].demoted)
    && (forall k | 0 <= k < |paths| :: paths[k].demotes == paths[k].restores + if paths[k].demoted then 1 else 0)
    && (forall k | 0 <= k < |paths| :: paths[k].demoted ==> Demotable(paths[k], action))
    && (forall j, k | 0 <= j < k < |paths| :: paths[j].path.endpoint != paths[k].path.endpoint)
  }

  /** With the delete action an endpoint is in the kernel exactly while its path is not out. */
  ghost predicate Agrees(paths: seq<PathState>, endpoints: set<nat>) {
    forall k | 0 <= k < |paths| :: paths[k].path.endpoint in endpoints <==> !paths[k].demoted
  }

  /** The probe results of one path. */
  ghost function ResultsOf(history: seq<seq<bool>>, k: nat): seq<bool>
    requires forall round | round in history :: k < |round|
  {
    seq(|history|, t requires 0 <= t < |history| => history[t][k])
  }

  ghost predicate Judged(paths: seq<PathState>, history: seq<seq<bool>>, failAfter: nat, recoverAfter: nat) {
    && (forall round | round in history :: |round| == |paths|)
    && forall k | 0 <= k < |paths| :: Tracks(paths[k], ResultsOf(history, k), failAfter, recoverAfter)
  }

  /** The same counters and health: a move touches neither. */
  ghost predicate SameCounters(a: seq<PathState>, b: seq<PathState>) {
    SameHealth(a, b) && forall k | 0 <= k < |a| :: a[k].failures == b[k].failures && a[k].successes == b[k].successes
  }

  lemma SameCountersTransitive(a: seq<PathState>, b: seq<PathState>, c: seq<PathState>)
    requires SameCounters(a, b) && SameCounters(b, c)
    ensures SameCounters(a, c)
  {
  }

  lemma CountersJudge(a: seq<PathState>, b: seq<PathState>, history: seq<seq<bool>>, failAfter: nat, recoverAfter: nat)
    requires SameCounters(a, b) && Judged(a, history, failAfter, recoverAfter)
    ensures Judged(b, history, failAfter, recoverAfter)
  {
    forall k | 0 <= k < |b| ensures Tracks(b[k], ResultsOf(history, k), failAfter, recoverAfter) {
      assert Tracks(a[k], ResultsOf(history, k), failAfter, recoverAfter);
    }
  }

  /** Judging moves nothing. */
  lemma JudgeStaysSound(paths: seq<PathState>, results: seq<bool>, failAfter: nat, recoverAfter: nat, action: Action)
    requires |results| == |paths| && Sound(paths, action)
    ensures Sound(JudgeAll(paths, results, failAfter, recoverAfter), action)
    ensures forall endpoints :: Agrees(paths, endpoints) ==> Agrees(JudgeAll(paths, results, failAfter, recoverAfter), endpoints)
  {
    var k :| 0 <= k < |paths| && !paths[k].demoted;
    assert !JudgeAll(paths, results, failAfter, recoverAfter)[k].demoted;
  }

  class Monitor {
    const failAfter: nat
    const recoverAfter: nat
    const action: Action
    var paths: seq<PathState>
    /** The kernel's endpoints; a command that fails changes nothing. */
    var endpoints: set<nat>
    ghost var history: seq<seq<bool>>
    /** How many commands failed. */
    ghost var faults: nat

    ghost predicate Valid()
      reads this
    {
      failAfter >= 1 && recoverAfter >= 1 && Sound(paths, action) && Judged(paths, history, failAfter, recoverAfter)
    }

    /** What a validated configuration gives: at least two paths, distinct endpoints, positive thresholds. */
    constructor (list: seq<Path>, failAfter: nat, recoverAfter: nat, action: Action, endpoints: set<nat>)
      requires |list| >= 2 && failAfter >= 1 && recoverAfter >= 1
      requires forall j, k | 0 <= j < k < |list| :: list[j].endpoint != list[k].endpoint
      ensures Valid() && history == [] && paths == seq(|list|, i requires 0 <= i < |list| => Fresh(list[i]))
      ensures this.endpoints == endpoints && this.action == action && faults == 0
      ensures this.failAfter == failAfter && this.recoverAfter == recoverAfter
    {
      this.failAfter, this.recoverAfter, this.action, this.endpoints := failAfter, recoverAfter, action, endpoints;
      paths := seq(|list|, i requires 0 <= i < |list| => Fresh(list[i]));
      history, faults := [], 0;
      new;
      assert !paths[0].demoted;
    }

    /** A command works or fails. */
    method Command() returns (ok: bool)
      modifies this`faults
      ensures faults == if ok then old(faults) else old(faults) + 1
    {
      ok := *;
      if !ok { faults := faults + 1; }
    }

    method AddEndpoint(id: nat) returns (ok: bool)
      modifies this`endpoints, this`faults
      ensures endpoints == if ok then old(endpoints) + {id} else old(endpoints)
      ensures faults == if ok then old(faults) else old(faults) + 1
    {
      ok := Command();
      if ok {
        endpoints := endpoints + {id};
      }
    }

    method DeleteEndpoint(id: nat) returns (ok: bool)
      modifies this`endpoints, this`faults
      ensures endpoints == if ok then old(endpoints) - {id} else old(endpoints)
      ensures faults == if ok then old(faults) else old(faults) + 1
    {
      ok := Command();
      if ok {
        endpoints := endpoints - {id};
      }
    }

    /** Adds the endpoints the kernel does not have; those it has are left alone. */
    method EnsureEndpoints() returns (ok: bool)
      modifies this`endpoints, this`faults
      ensures old(endpoints) <= endpoints <= old(endpoints) + set k | 0 <= k < |paths| :: paths[k].path.endpoint
      ensures ok <==> faults == old(faults)
      ensures ok ==> forall k | 0 <= k < |paths| :: paths[k].path.endpoint in endpoints
    {
      for k := 0 to |paths|
        invariant old(endpoints) <= endpoints <= (old(endpoints) + set k | 0 <= k < |paths| :: paths[k].path.endpoint) && faults == old(faults)
        invariant forall j | 0 <= j < k :: paths[j].path.endpoint in endpoints
      {
        if paths[k].path.endpoint !in endpoints {
          var added := AddEndpoint(paths[k].path.endpoint);
          if !added {
            return false;
          }
        }
      }
      return true;
    }

    method Demote(i: nat) returns (worked: bool)
      requires i < |paths| && !paths[i].demoted
      modifies this`paths, this`endpoints, this`faults
      ensures paths == old(paths) || (Demotable(old(paths)[i], action)
          && paths == old(paths)[i := old(paths)[i].(demoted := true, demotes := old(paths)[i].demotes + 1)])
      ensures worked && Demotable(old(paths)[i], action) ==> paths[i].demoted
      ensures action.Delete? ==>
        endpoints == if paths[i].demoted then old(endpoints) - {paths[i].path.endpoint} else old(endpoints)
      ensures faults >= old(faults) && (worked <==> faults == old(faults))
    {
      var p := paths[i];
      if action.Backup? {
        if p.path.backup {
          return true;
        }
        worked := Command();
      } else {
        worked := DeleteEndpoint(p.path.endpoint);
      }
      if worked {
        paths := paths[i := p.(demoted := true, demotes := p.demotes + 1)];
      }
    }

    method Restore(i: nat) returns (worked: bool)
      requires i < |paths| && paths[i].demoted
      modifies this`paths, this`endpoints, this`faults
      ensures paths == if worked
        then old(paths)[i := old(paths)[i].(demoted := false, restores := old(paths)[i].restores + 1)]
        else old(paths)
      ensures action.Delete? ==>
        endpoints == if worked then old(endpoints) + {paths[i].path.endpoint} else old(endpoints)
      ensures faults >= old(faults) && (worked <==> faults == old(faults))
    {
      if action.Backup? {
        worked := Command();
      } else {
        worked := AddEndpoint(paths[i].path.endpoint);
      }
      if worked {
        paths := paths[i := paths[i].(demoted := false, restores := paths[i].restores + 1)];
      }
    }

    /** Whether another path is healthy and in. */
    method FindUsable(i: nat) returns (usable: bool)
      ensures usable == OtherUsable(paths, i)
    {
      for j := 0 to |paths|
        invariant forall k | 0 <= k < j && k != i :: !(paths[k].healthy && !paths[k].demoted)
      {
        if j != i && paths[j].healthy && !paths[j].demoted {
          return true;
        }
      }
      return false;
    }

    /** One path of the sweep: taken out only beside a usable one, given back when healthy. */
    method Move(i: nat) returns (worked: bool)
      requires i < |paths| && Sound(paths, action)
      modifies this`paths, this`endpoints, this`faults
      ensures Sound(paths, action) && SameCounters(old(paths), paths)
      ensures paths == old(paths) || paths == old(paths)[i := Moved(old(paths), i, action)]
      ensures worked ==> paths == old(paths)[i := Moved(old(paths), i, action)]
      ensures action.Delete? && Agrees(old(paths), old(endpoints)) ==> Agrees(paths, endpoints)
      ensures faults >= old(faults) && (worked <==> faults == old(faults))
    {
      worked := true;
      if !paths[i].healthy && !paths[i].demoted {
        var usable := FindUsable(i);
        if usable {
          worked := TakeOut(i);
        }
      } else if paths[i].healthy && paths[i].demoted {
        worked := GiveBack(i);
      }
    }

    /** The probe results on every path's counters. */
    method Count(results: seq<bool>)
      requires |results| == |paths|
      modifies this`paths
      ensures paths == JudgeAll(old(paths), results, failAfter, recoverAfter)
    {
      ghost var was := paths;
      for i := 0 to |paths|
        invariant |paths| == |was|
        invariant forall k | 0 <= k < i :: paths[k] == Judge(was[k], results[k], failAfter, recoverAfter)
        invariant forall k | i <= k < |paths| :: paths[k] == was[k]
      {
        paths := paths[i := Judge(paths[i], results[i], failAfter, recoverAfter)];
      }
    }

    /** Every path in turn. */
    method SweepAll() returns (worked: bool)
      requires Sound(paths, action)
      modifies this`paths, this`endpoints, this`faults
      ensures Sound(paths, action) && SameCounters(old(paths), paths)
      ensures action.Delete? && Agrees(old(paths), old(endpoints)) ==> Agrees(paths, endpoints)
      ensures worked ==> paths == Sweep(old(paths), 0, action)
      ensures faults >= old(faults) && (worked <==> faults == old(faults))
    {
      worked := true;
      for i := 0 to |paths|
        invariant SameCounters(old(paths), paths) && Sound(paths, action)
        invariant faults >= old(faults) && (worked <==> faults == old(faults))
        invariant action.Delete? && Agrees(old(paths), old(endpoints)) ==> Agrees(paths, endpoints)
        invariant worked ==> Sweep(paths, i, action) == Sweep(old(paths), 0, action)
      {
        ghost var before := paths;
        var moved := Move(i);
        SameCountersTransitive(old(paths), before, paths);
        worked := worked && moved;
      }
    }

    /**
      One probe round, over any results and any failing commands. When every command works
      it is exactly Round.
    */
    method Check(results: seq<bool>) returns (worked: bool)
      requires Valid() && |results| == |paths|
      modifies this`paths, this`endpoints, this`faults, this`history
      ensures Valid() && history == old(history) + [results] && |paths| == |old(paths)|
      ensures action.Delete? && Agrees(old(paths), old(endpoints)) ==> Agrees(paths, endpoints)
      ensures worked ==> paths == Round(old(paths), results, failAfter, recoverAfter, action)
      ensures faults >= old(faults) && (worked <==> faults == old(faults))
    {
      JudgeStaysSound(paths, results, failAfter, recoverAfter, action);
      JudgedGrows(paths, history, results, failAfter, recoverAfter);
      Count(results);
      ghost var judged := paths;
      worked := SweepAll();
      history := history + [results];
      CountersJudge(judged, paths, history, failAfter, recoverAfter);
    }

    /** Any number of rounds. */
    method CheckAll(rounds: seq<seq<bool>>)
      requires Valid() && forall round | round in rounds :: |round| == |paths|
      modifies this`paths, this`endpoints, this`faults, this`history
      ensures Valid() && history == old(history) + rounds && faults >= old(faults)
      ensures action.Delete? && Agrees(old(paths), old(endpoints)) ==> Agrees(paths, endpoints)
    {
      for t := 0 to |rounds|
        invariant Valid() && history == old(history) + rounds[..t] && |paths| == |old(paths)| && faults >= old(faults)
        invariant action.Delete? && Agrees(old(paths), old(endpoints)) ==> Agrees(paths, endpoints)
      {
        var _ := Check(rounds[t]);
      }
      assert rounds[..|rounds|] == rounds;
    }

    /** Gives back what was taken out; a failing command leaves its path out. */
    method Close() returns (worked: bool)
      requires Valid()
      modifies this`paths, this`endpoints, this`faults
      ensures Valid() && SameCounters(old(paths), paths)
      ensures action.Delete? && Agrees(old(paths), old(endpoints)) ==> Agrees(paths, endpoints)
      ensures worked ==> forall k | 0 <= k < |paths| :: !paths[k].demoted
      ensures worked && action.Delete? && Agrees(old(paths), old(endpoints)) ==>
        forall k | 0 <= k < |paths| :: paths[k].path.endpoint in endpoints
      ensures faults >= old(faults) && (worked <==> faults == old(faults))
    {
      worked := true;
      for i := 0 to |paths|
        invariant SameCounters(old(paths), paths) && Sound(paths, action)
        invariant faults >= old(faults) && (worked <==> faults == old(faults))
        invariant action.Delete? && Agrees(old(paths), old(endpoints)) ==> Agrees(paths, endpoints)
        invariant worked ==> forall k | 0 <= k < i :: !paths[k].demoted
      {
        if paths[i].demoted {
          ghost var before := paths;
          var back := GiveBack(i);
          SameCountersTransitive(old(paths), before, paths);
          worked := worked && back;
        }
      }
      CountersJudge(old(paths), paths, history, failAfter, recoverAfter);
    }

    method TakeOut(i: nat) returns (worked: bool)
      requires i < |paths| && !paths[i].demoted && OtherUsable(paths, i) && Sound(paths, action)
      modifies this`paths, this`endpoints, this`faults
      ensures Sound(paths, action) && SameCounters(old(paths), paths)
      ensures paths == old(paths) || (Demotable(old(paths)[i], action)
          && paths == old(paths)[i := old(paths)[i].(demoted := true, demotes := old(paths)[i].demotes + 1)])
      ensures worked && Demotable(old(paths)[i], action) ==> paths[i].demoted
      ensures action.Delete? && Agrees(old(paths), old(endpoints)) ==> Agrees(paths, endpoints)
      ensures faults >= old(faults) && (worked <==> faults == old(faults))
    {
      ghost var j :| 0 <= j < |paths| && j != i && paths[j].healthy && !paths[j].demoted;
      worked := Demote(i);
      assert !paths[j].demoted;
    }

    method GiveBack(i: nat) returns (worked: bool)
      requires i < |paths| && paths[i].demoted && Sound(paths, action)
      modifies this`paths, this`endpoints, this`faults
      ensures Sound(paths, action) && SameCounters(old(paths), paths)
      ensures paths == if worked
        then old(paths)[i := old(paths)[i].(demoted := false, restores := old(paths)[i].restores + 1)]
        else old(paths)
      ensures action.Delete? && Agrees(old(paths), old(endpoints)) ==> Agrees(paths, endpoints)
      ensures faults >= old(faults) && (worked <==> faults == old(faults))
    {
      worked := Restore(i);
      assert worked ==> !paths[i].demoted;
    }
  }

  lemma JudgedGrows(paths: seq<PathState>, history: seq<seq<bool>>, results: seq<bool>, failAfter: nat, recoverAfter: nat)
    requires failAfter >= 1 && recoverAfter >= 1 && |results| == |paths| && Judged(paths, history, failAfter, recoverAfter)
    ensures Judged(JudgeAll(paths, results, failAfter, recoverAfter), history + [results], failAfter, recoverAfter)
  {
    forall k | 0 <= k < |paths|
      ensures Tracks(Judge(paths[k], results[k], failAfter, recoverAfter), ResultsOf(history + [results], k), failAfter, recoverAfter)
    {
      JudgeTracks(paths[k], ResultsOf(history, k), results[k], failAfter, recoverAfter);
      assert ResultsOf(history + [results], k) == ResultsOf(history, k) + [results[k]];
    }
  }

  /** A monitor's whole life: start, any probe rounds, close. */
  method Watch(list: seq<Path>, failAfter: nat, recoverAfter: nat, action: Action, endpoints: set<nat>, rounds: seq<seq<bool>>)
    returns (m: Monitor, started: bool, closed: bool)
    requires |list| >= 2 && failAfter >= 1 && recoverAfter >= 1
    requires forall j, k | 0 <= j < k < |list| :: list[j].endpoint != list[k].endpoint
    requires forall round | round in rounds :: |round| == |list|
    ensures started ==> m.Valid() && m.history == rounds && (action.Delete? ==> Agrees(m.paths, m.endpoints))
    ensures started && closed ==> forall k | 0 <= k < |m.paths| :: !m.paths[k].demoted
    ensures m.failAfter == failAfter && m.recoverAfter == recoverAfter && m.action == action
    ensures m.faults == 0 ==> started && closed
  {
    m := new Monitor(list, failAfter, recoverAfter, action, endpoints);
    closed := false;
    started := m.EnsureEndpoints();
    if !started {
      return;
    }
    m.CheckAll(rounds);
    closed := m.Close();
  }
}
