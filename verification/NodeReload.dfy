/**
  Replacing a running node (node/reload.go and reconcileLocked in node/task.go): delete the
  old one, start the new one, and put the old one back when that fails. What the core, the
  rules and the certificate answer is an argument; a call that fails changes nothing, except
  that a failed change of users may leave any users on the node.
*/
module NodeReload {

  datatype Option<T> = None | Some(value: T)

  type Tag = nat

  /** A user list, up to what comparing two lists tells apart. */
  type Users = nat

  /** A node configuration: its content, the tag it builds, and whether it needs a certificate. */
  datatype Info = Info(content: nat, tag: Tag, tls: bool)

  /** What the core runs under a tag. */
  datatype Node = Node(info: Info, users: Users)

  datatype Add = Works | InUse | Broken

  /**
    What one start is answered: the rules, the certificate, the attempts to add the node, its
    users (and those a failed call leaves on it), and the delete after failed users.
  */
  datatype Answers = Answers(rules: bool, certificate: bool, adds: seq<Add>, usersAdded: bool, left: Users, deleted: bool)

  /** A node whose users failed and that could not be deleted again is abandoned. */
  datatype Start = Started | NotStarted | Abandoned

  /** How a replacement ended: what became of the new node and, after it failed, of the previous one. */
  datatype Result = Replaced | DeleteFailed | NothingBefore(first: Start) | PutBack(first: Start, second: Start)

  /** The controller, and the core's nodes and the limiter registry it shares with others. */
  datatype State = State(
    named: bool, tag: Tag, info: Option<Info>, users: Users, nodeAdded: bool, core: map<Tag, Node>, limiters: map<Tag, Users>)

  const ATTEMPTS := 4

  function AddAt(adds: seq<Add>, i: nat): Add { if i < |adds| then adds[i] else Broken }

  /** From the i-th attempt on, again only while the address is in use. */
  predicate AddWorks(adds: seq<Add>, i: nat)
    decreases ATTEMPTS - i
  {
    i < ATTEMPTS && (AddAt(adds, i).Works? || (AddAt(adds, i).InUse? && AddWorks(adds, i + 1)))
  }

  /** One of the first four attempts works, and all before it found the address in use. */
  lemma {:induction false} AddWorksWithinFour(adds: seq<Add>, i: nat)
    ensures AddWorks(adds, i) <==>
      exists k | i <= k < ATTEMPTS :: AddAt(adds, k).Works? && forall j | i <= j < k :: AddAt(adds, j).InUse?
    decreases ATTEMPTS - i
  {
    if i < ATTEMPTS {
      AddWorksWithinFour(adds, i + 1);
      if AddWorks(adds, i) && !AddAt(adds, i).Works? {
        var k :| i + 1 <= k < ATTEMPTS && AddAt(adds, k).Works? && forall j | i + 1 <= j < k :: AddAt(adds, j).InUse?;
        assert forall j | i <= j < k :: AddAt(adds, j).InUse?;
      }
    }
  }

  /** The tag and a new limiter; a named node keeps both. */
  function Retag(s: State, n: Info): State {
    if s.named then s else s.(tag := n.tag, limiters := (s.limiters - {s.tag})[n.tag := s.users])
  }

  /** The node got as far as the core. */
  predicate Added(core: map<Tag, Node>, t: Tag, n: Info, a: Answers) {
    a.rules && (n.tls ==> a.certificate) && t !in core && AddWorks(a.adds, 0)
  }

  function StartStep(s: State, n: Info, a: Answers): (State, Start) {
    var r := Retag(s, n);
    if !Added(r.core, r.tag, n, a) then (r, NotStarted)
    else if a.usersAdded then (r.(core := r.core[r.tag := Node(n, s.users)], nodeAdded := true), Started)
    else if a.deleted then (r, NotStarted)
    else (r.(core := r.core[r.tag := Node(n, a.left)], nodeAdded := true), Abandoned)
  }

  /** The old node is gone. */
  function Cleared(s: State): State {
    if s.nodeAdded then s.(core := s.core - {s.tag}, nodeAdded := false) else s
  }

  function ReplaceStep(s: State, n: Info, deleted: bool, first: Answers, second: Answers): (State, Result) {
    if s.nodeAdded && s.tag in s.core && !deleted then (s, DeleteFailed)
    else
      var (t, one) := StartStep(Cleared(s), n, first);
      if one.Started? then (t.(info := Some(n)), Replaced)
      else if s.info.None? then (t, NothingBefore(one))
      else
        var (u, two) := StartStep(t, s.info.value, second);
        (u, PutBack(one, two))
  }

  // ---- What the controller may say of the core

  /** The registry holds one limiter of this controller, under its tag. */
  ghost predicate OneLimiter(s: State, entries: map<Tag, Users>) {
    s.tag !in entries && s.tag in s.limiters && s.limiters == entries[s.tag := s.limiters[s.tag]]
  }

  /** nodeAdded tells: the core runs exactly one node of this controller, under its tag, or none. */
  ghost predicate Truthful(s: State, nodes: map<Tag, Node>) {
    if s.nodeAdded then s.tag !in nodes && s.tag in s.core && s.core == nodes[s.tag := s.core[s.tag]]
    else s.core == nodes
  }

  /** And that node has the controller's configuration and the given users. */
  ghost predicate Runs(s: State, nodes: map<Tag, Node>, us: Users) {
    Truthful(s, nodes) && (s.nodeAdded ==> s.info.Some? && s.core[s.tag] == Node(s.info.value, us))
  }

  /** No other controller uses the tag. */
  ghost predicate Free(t: Tag, nodes: map<Tag, Node>, entries: map<Tag, Users>) {
    t !in nodes && t !in entries
  }

  /** A controller that says the truth, with its limiter, beside the nodes and limiters of the others. */
  ghost predicate Sound(s: State, nodes: map<Tag, Node>, entries: map<Tag, Users>) {
    && Truthful(s, nodes) && OneLimiter(s, entries) && Free(s.tag, nodes, entries)
    && (!s.named && s.info.Some? ==> s.tag == s.info.value.tag)
  }

  /** And what runs is what it says. */
  ghost predicate Steady(s: State, nodes: map<Tag, Node>, entries: map<Tag, Users>, us: Users) {
    Sound(s, nodes, entries) && Runs(s, nodes, us)
  }

  /** The new node's users and its delete both fail. */
  predicate Abandons(n: Info, a: Answers) {
    a.rules && (n.tls ==> a.certificate) && AddWorks(a.adds, 0) && !a.usersAdded && !a.deleted
  }

  /**
    The one way nodeAdded stops telling the truth: the new node is abandoned, and the previous
    configuration is put back under another tag.
  */
  ghost predicate Misled(s: State, n: Info, deleted: bool, first: Answers) {
    && (!s.nodeAdded || deleted) && Abandons(n, first)
    && s.info.Some? && !s.named && n.tag != s.info.value.tag
  }

  /** What the core holds after each outcome. */
  ghost function CoreAfter(s: State, nodes: map<Tag, Node>, n: Info, first: Answers, second: Answers, result: Result): map<Tag, Node> {
    var newTag := if s.named then s.tag else n.tag;
    match result
    case Replaced => nodes[newTag := Node(n, s.users)]
    case DeleteFailed => s.core
    case NothingBefore(one) => if one.Abandoned? then nodes[newTag := Node(n, first.left)] else nodes
    case PutBack(one, two) =>
      var left := if one.Abandoned? then nodes[newTag := Node(n, first.left)] else nodes;
      if s.info.None? || two.NotStarted? then left
      else left[s.tag := Node(s.info.value, if two.Started? then s.users else second.left)]
  }

  lemma StartIsExact(s: State, n: Info, a: Answers, nodes: map<Tag, Node>, entries: map<Tag, Users>)
    requires OneLimiter(s, entries) && (s.named || n.tag !in entries)
    ensures var (t, start) := StartStep(s, n, a);
      && OneLimiter(t, entries) && t.tag == (if s.named then s.tag else n.tag)
      && t.limiters[t.tag] == (if s.named then s.limiters[s.tag] else s.users)
      && t.info == s.info && t.users == s.users && t.named == s.named
      && (start.Abandoned? <==> Abandons(n, a) && t.tag !in s.core)
      && (start.NotStarted? ==> t.core == s.core && t.nodeAdded == s.nodeAdded)
      && (start.Started? ==> t.tag !in s.core && t.core == s.core[t.tag := Node(n, s.users)] && t.nodeAdded)
      && (start.Abandoned? ==> t.core == s.core[t.tag := Node(n, a.left)] && t.nodeAdded)
  {
  }

  /** What each outcome of a replacement leaves, and the outcome itself. */
  lemma ReplaceIsExact(s: State, n: Info, deleted: bool, first: Answers, second: Answers,
                       nodes: map<Tag, Node>, entries: map<Tag, Users>)
    requires Sound(s, nodes, entries) && (s.named || Free(n.tag, nodes, entries))
    ensures var (t, result) := ReplaceStep(s, n, deleted, first, second);
      && t.core == CoreAfter(s, nodes, n, first, second, result)
      && OneLimiter(t, entries) && t.users == s.users && t.named == s.named
      && t.info == (if result.Replaced? then Some(n) else s.info)
      && (result.DeleteFailed? <==> s.nodeAdded && !deleted) && (result.DeleteFailed? ==> t == s)
      && (!result.DeleteFailed? ==> t.limiters[t.tag] == if s.named then s.limiters[s.tag] else s.users)
      && (match result
          case Replaced => t.nodeAdded && t.tag == (if s.named then s.tag else n.tag) && !Abandons(n, first)
          case DeleteFailed => true
          case NothingBefore(one) =>
            s.info.None? && t.tag == (if s.named then s.tag else n.tag) && t.nodeAdded == one.Abandoned? == Abandons(n, first)
          case PutBack(one, two) =>
            s.info.Some? && t.tag == s.tag && one.Abandoned? == Abandons(n, first) && t.nodeAdded == (one.Abandoned? || !two.NotStarted?))
  {
    if s.nodeAdded && !deleted {
      assert ReplaceStep(s, n, deleted, first, second).1 == DeleteFailed;
    } else {
      var cleared := Cleared(s);
      assert cleared.core == nodes;
      StartIsExact(cleared, n, first, nodes, entries);
      var t := StartStep(cleared, n, first).0;
      if s.info.Some? {
        StartIsExact(t, s.info.value, second, nodes, entries);
      }
    }
  }

  /** nodeAdded tells the truth after a replacement exactly when it was not misled. */
  lemma TruthfulUnlessMisled(s: State, n: Info, deleted: bool, first: Answers, second: Answers,
                             nodes: map<Tag, Node>, entries: map<Tag, Users>)
    requires Sound(s, nodes, entries) && (s.named || Free(n.tag, nodes, entries))
    ensures var t := ReplaceStep(s, n, deleted, first, second).0;
      && (Truthful(t, nodes) <==> !Misled(s, n, deleted, first))
      && (Sound(t, nodes, entries) <==> !Misled(s, n, deleted, first))
  {
    ReplaceIsExact(s, n, deleted, first, second, nodes, entries);
    var t := ReplaceStep(s, n, deleted, first, second).0;
    if Misled(s, n, deleted, first) {
      assert n.tag in t.core && n.tag != t.tag && n.tag !in nodes;
    } else if t.nodeAdded {
      assert t.core == nodes[t.tag := t.core[t.tag]];
    }
  }

  /** The node and its users are started. */
  predicate Starts(n: Info, a: Answers) {
    a.rules && (n.tls ==> a.certificate) && AddWorks(a.adds, 0) && a.usersAdded
  }

  /** Once the old node is gone: what runs has the controller's configuration. */
  predicate ConfigRight(s: State, n: Info, first: Answers) {
    Abandons(n, first) ==> s.info == Some(n)
  }

  /** And the controller's users. */
  predicate UsersRight(s: State, n: Info, first: Answers, second: Answers) {
    if Abandons(n, first) then first.left == s.users
    else !Starts(n, first) && s.info.Some? && Abandons(s.info.value, second) ==> second.left == s.users
  }

  /** If a node of the controller runs, it has the configuration. */
  predicate ConfigFits(s: State) {
    s.nodeAdded ==> s.info.Some? && s.tag in s.core && s.core[s.tag].info == s.info.value
  }

  predicate UsersFit(s: State) {
    s.nodeAdded ==> s.tag in s.core && s.core[s.tag].users == s.users
  }

  /** A truthful controller runs what it says exactly when both fit. */
  lemma RunsIsFits(s: State, nodes: map<Tag, Node>)
    ensures Runs(s, nodes, s.users) <==> Truthful(s, nodes) && ConfigFits(s) && UsersFit(s)
  {
  }

  /** After a replacement that was not misled, what runs has the controller's configuration exactly in these cases. */
  lemma ConfigFitsExactly(s: State, n: Info, deleted: bool, first: Answers, second: Answers,
                          nodes: map<Tag, Node>, entries: map<Tag, Users>)
    requires Sound(s, nodes, entries) && (s.named || Free(n.tag, nodes, entries)) && !Misled(s, n, deleted, first)
    ensures ConfigFits(ReplaceStep(s, n, deleted, first, second).0) <==>
      if s.nodeAdded && !deleted then ConfigFits(s) else ConfigRight(s, n, first)
  {
    ReplaceIsExact(s, n, deleted, first, second, nodes, entries);
    TwoStarts(s, n, first, second, nodes, entries);
  }

  /** And the controller's users in these. */
  lemma UsersFitExactly(s: State, n: Info, deleted: bool, first: Answers, second: Answers,
                        nodes: map<Tag, Node>, entries: map<Tag, Users>)
    requires Sound(s, nodes, entries) && (s.named || Free(n.tag, nodes, entries)) && !Misled(s, n, deleted, first)
    ensures UsersFit(ReplaceStep(s, n, deleted, first, second).0) <==>
      if s.nodeAdded && !deleted then UsersFit(s) else UsersRight(s, n, first, second)
  {
    ReplaceIsExact(s, n, deleted, first, second, nodes, entries);
    TwoStarts(s, n, first, second, nodes, entries);
  }

  /** How the new configuration and then the previous one start once the old node is gone. */
  lemma TwoStarts(s: State, n: Info, first: Answers, second: Answers, nodes: map<Tag, Node>, entries: map<Tag, Users>)
    requires Sound(s, nodes, entries) && (s.named || Free(n.tag, nodes, entries))
    ensures var (t, one) := StartStep(Cleared(s), n, first);
      && (one.Started? <==> Starts(n, first)) && (one.Abandoned? <==> Abandons(n, first))
      && (one.NotStarted? && s.info.Some? ==>
        (StartStep(t, s.info.value, second).1.Abandoned? <==> Abandons(s.info.value, second)))
      && (one.Abandoned? && s.info.Some? && t.tag == s.tag ==> StartStep(t, s.info.value, second).1.NotStarted?)
  {
    var cleared := Cleared(s);
    assert cleared.core == nodes;
    StartIsExact(cleared, n, first, nodes, entries);
    if s.info.Some? {
      StartIsExact(StartStep(cleared, n, first).0, s.info.value, second, nodes, entries);
    }
  }

  /**
    From any truthful state, the core runs exactly what the controller says after a replacement
    unless nodeAdded was misled, or the node that runs has another configuration or other users.
  */
  lemma RunsExactly(s: State, n: Info, deleted: bool, first: Answers, second: Answers,
                    nodes: map<Tag, Node>, entries: map<Tag, Users>)
    requires Sound(s, nodes, entries) && (s.named || Free(n.tag, nodes, entries))
    ensures Runs(ReplaceStep(s, n, deleted, first, second).0, nodes, s.users) <==>
      if s.nodeAdded && !deleted then Runs(s, nodes, s.users)
      else !Misled(s, n, deleted, first) && ConfigRight(s, n, first) && UsersRight(s, n, first, second)
  {
    var t := ReplaceStep(s, n, deleted, first, second).0;
    ReplaceIsExact(s, n, deleted, first, second, nodes, entries);
    TruthfulUnlessMisled(s, n, deleted, first, second, nodes, entries);
    RunsIsFits(s, nodes);
    RunsIsFits(t, nodes);
    if !Misled(s, n, deleted, first) {
      ConfigFitsExactly(s, n, deleted, first, second, nodes, entries);
      UsersFitExactly(s, n, deleted, first, second, nodes, entries);
    }
  }

  /**
    When the delete that follows failed users works, the core ends with the new configuration,
    the previous one under its previous tag with the same users, or nothing.
  */
  lemma ReplacedPutBackOrDown(s: State, n: Info, deleted: bool, first: Answers, second: Answers,
                              nodes: map<Tag, Node>, entries: map<Tag, Users>)
    requires Sound(s, nodes, entries) && (s.named || Free(n.tag, nodes, entries))
    requires !Abandons(n, first) && (s.info.Some? ==> !Abandons(s.info.value, second))
    ensures var (t, result) := ReplaceStep(s, n, deleted, first, second);
      match result
      case DeleteFailed => t == s
      case Replaced => Steady(t, nodes, entries, s.users) && t.nodeAdded && t.info == Some(n)
      case NothingBefore(_) => Steady(t, nodes, entries, s.users) && !t.nodeAdded && t.core == nodes
      case PutBack(_, two) =>
        && Steady(t, nodes, entries, s.users) && t.info == s.info && t.tag == s.tag
        && t.nodeAdded == two.Started? && (!t.nodeAdded ==> t.core == nodes)
  {
    ReplaceIsExact(s, n, deleted, first, second, nodes, entries);
    if s.info.Some? && !(s.nodeAdded && !deleted) {
      var t := StartStep(Cleared(s), n, first).0;
      assert Cleared(s).core == nodes;
      StartIsExact(Cleared(s), n, first, nodes, entries);
      StartIsExact(t, s.info.value, second, nodes, entries);
    }
  }

  /** A started unnamed node with no other controller beside it. */
  function Alone(n: Info, us: Users): State {
    State(false, n.tag, Some(n), us, true, map[n.tag := Node(n, us)], map[n.tag := us])
  }

  lemma AloneIsSteady(n: Info, us: Users)
    ensures Steady(Alone(n, us), map[], map[], us)
  {
  }

  const ABANDONED := Answers(true, true, [Works], false, 0, false)

  /** A replacement that leaves two nodes of one controller in the core. */
  lemma TwoNodesRun(prior: Info, n: Info, us: Users)
    requires prior.tag != n.tag
    ensures var (t, result) := ReplaceStep(Alone(prior, us), n, true, ABANDONED, Answers(true, true, [Works], true, 0, true));
      && result == PutBack(Abandoned, Started) && t.nodeAdded && t.tag == prior.tag
      && t.core == map[n.tag := Node(n, 0), prior.tag := Node(prior, us)]
  {
    var s := Alone(prior, us);
    AloneIsSteady(prior, us);
    assert AddAt([Works], 0) == Works;
    ReplaceIsExact(s, n, true, ABANDONED, Answers(true, true, [Works], true, 0, true), map[], map[]);
  }

  /** A replacement after which nodeAdded speaks of a tag that no node has, while another node runs. */
  lemma OnlyTheAbandonedRuns(prior: Info, n: Info, us: Users)
    requires prior.tag != n.tag
    ensures var (t, result) := ReplaceStep(Alone(prior, us), n, true, ABANDONED, Answers(false, true, [], true, 0, true));
      && result == PutBack(Abandoned, NotStarted) && t.nodeAdded && t.tag == prior.tag
      && t.core == map[n.tag := Node(n, 0)]
  {
    var s := Alone(prior, us);
    AloneIsSteady(prior, us);
    assert AddAt([Works], 0) == Works;
    ReplaceIsExact(s, n, true, ABANDONED, Answers(false, true, [], true, 0, true), map[], map[]);
  }

  /** The same with the configured name as the tag. */
  function AloneNamed(name: Tag, n: Info, us: Users): State {
    State(true, name, Some(n), us, true, map[name := Node(n, us)], map[name := us])
  }

  // ---- Reconciliation

  /** What the core answers to a change of users in place: done, or failed with some users left. */
  datatype Diff = Applied | Partly(left: Users)

  datatype Outcome = Unchanged | Diffed(ok: bool) | Reloaded(result: Result)

  /** Users that differ are deleted and added in place; a node that is not there fails. */
  function DiffStep(s: State, us: Users, d: Diff): (State, bool) {
    if us == s.users then (s, true)
    else if s.tag !in s.core then (s, false)
    else if d.Applied? then
      (s.(core := s.core[s.tag := s.core[s.tag].(users := us)], limiters := s.limiters[s.tag := us], users := us), true)
    else (s.(core := s.core[s.tag := s.core[s.tag].(users := d.left)]), false)
  }

  /** A configuration equal to the running one is no change. */
  predicate Skips(s: State, newN: Option<Info>) {
    newN.None? || (s.nodeAdded && s.info == newN)
  }

  function ReconcileStep(s: State, newN: Option<Info>, newU: Option<Users>, d: Diff,
                         deleted: bool, first: Answers, second: Answers): (State, Outcome) {
    if !Skips(s, newN) then
      var (t, result) := ReplaceStep(s.(users := if newU.Some? then newU.value else s.users), newN.value, deleted, first, second);
      (t, Reloaded(result))
    else if newU.None? then (s, Unchanged)
    else
      var (t, ok) := DiffStep(s, newU.value, d);
      (t, Diffed(ok))
  }

  /** What a replacement leaves that took a user list first, and when the limiter has the current users. */
  ghost predicate ReloadLeaves(s: State, n: Info, us: Users, deleted: bool, first: Answers, second: Answers,
                               nodes: map<Tag, Node>, t: State, result: Result)
    requires t.tag in t.limiters
  {
    && t.users == us && (Truthful(t, nodes) <==> !Misled(s, n, deleted, first))
    && (!result.DeleteFailed? ==>
      (Runs(t, nodes, us) <==>
        !Misled(s, n, deleted, first) && ConfigRight(s, n, first) && UsersRight(s.(users := us), n, first, second)))
    && (t.limiters[t.tag] == us <==> (!s.named && !result.DeleteFailed?) || us == s.users)
  }

  /** What a change of users in place leaves. */
  ghost predicate DiffLeaves(s: State, us: Users, nodes: map<Tag, Node>, entries: map<Tag, Users>, t: State, ok: bool) {
    && Sound(t, nodes, entries) && t.nodeAdded == s.nodeAdded && t.info == s.info && t.tag == s.tag && t.named == s.named
    && t.limiters[t.tag] == t.users == (if ok then us else s.users) && (ConfigFits(t) <==> ConfigFits(s))
    && (ok && Runs(s, nodes, s.users) ==> Runs(t, nodes, us))
  }

  /**
    What a reconciliation leaves. An unchanged configuration touches the core only for its users;
    it is the one that runs exactly if the controller's was.
  */
  ghost predicate Reconciled(s: State, newN: Option<Info>, newU: Option<Users>, deleted: bool, first: Answers, second: Answers,
                             nodes: map<Tag, Node>, entries: map<Tag, Users>, t: State, outcome: Outcome) {
    && OneLimiter(t, entries) && (outcome.Reloaded? <==> !Skips(s, newN)) && (outcome.Diffed? ==> newU.Some?)
    && (!outcome.Reloaded? && newN.Some? ==> t.tag in t.core && (t.core[t.tag].info == newN.value <==> ConfigFits(s)))
    && match outcome
      case Unchanged => t == s
      case Diffed(ok) => DiffLeaves(s, newU.value, nodes, entries, t, ok)
      case Reloaded(result) =>
        ReloadLeaves(s, newN.value, if newU.Some? then newU.value else s.users, deleted, first, second, nodes, t, result)
  }

  lemma ReconcileIsExact(s: State, newN: Option<Info>, newU: Option<Users>, d: Diff,
                         deleted: bool, first: Answers, second: Answers, nodes: map<Tag, Node>, entries: map<Tag, Users>)
    requires Sound(s, nodes, entries) && s.limiters[s.tag] == s.users
    requires newN.Some? && !s.named ==> Free(newN.value.tag, nodes, entries)
    ensures var (t, outcome) := ReconcileStep(s, newN, newU, d, deleted, first, second);
      Reconciled(s, newN, newU, deleted, first, second, nodes, entries, t, outcome)
  {
    if !Skips(s, newN) {
      ReloadIsExact(s, newN.value, if newU.Some? then newU.value else s.users, deleted, first, second, nodes, entries);
    } else if newU.Some? {
      DiffIsExact(s, newU.value, d, nodes, entries);
    }
  }

  lemma ReloadIsExact(s: State, n: Info, us: Users, deleted: bool, first: Answers, second: Answers,
                      nodes: map<Tag, Node>, entries: map<Tag, Users>)
    requires Sound(s, nodes, entries) && s.limiters[s.tag] == s.users && (s.named || Free(n.tag, nodes, entries))
    ensures var (t, result) := ReplaceStep(s.(users := us), n, deleted, first, second);
      OneLimiter(t, entries) && ReloadLeaves(s, n, us, deleted, first, second, nodes, t, result)
  {
    var before := s.(users := us);
    ReplaceIsExact(before, n, deleted, first, second, nodes, entries);
    TruthfulUnlessMisled(before, n, deleted, first, second, nodes, entries);
    RunsExactly(before, n, deleted, first, second, nodes, entries);
  }

  /** A change of users in place touches nothing but the users of the running node. */
  lemma DiffIsExact(s: State, us: Users, d: Diff, nodes: map<Tag, Node>, entries: map<Tag, Users>)
    requires Sound(s, nodes, entries) && s.limiters[s.tag] == s.users
    ensures var (t, ok) := DiffStep(s, us, d);
      && DiffLeaves(s, us, nodes, entries, t, ok)
      && (ok <==> us == s.users || (s.nodeAdded && d.Applied?))
      && (UsersFit(t) <==> if us == s.users then UsersFit(s) else !s.nodeAdded || d.Applied? || d.left == s.users)
  {
    if us != s.users && s.tag in s.core {
      var t := DiffStep(s, us, d).0;
      assert t.limiters == entries[t.tag := t.limiters[t.tag]];
      assert t.core == nodes[t.tag := t.core[t.tag]];
    }
  }

  /**
    A replacement after which nodeAdded is true and tells the truth, but another configuration runs
    than the controller's: asked for the one it believes to run, it does nothing.
  */
  lemma SkippedWhileAnotherRuns(name: Tag, prior: Info, n: Info, us: Users, d: Diff, second: Answers, again: Answers)
    requires prior != n
    ensures var t := ReplaceStep(AloneNamed(name, prior, us), n, true, ABANDONED, second).0;
      && Truthful(t, map[]) && t.nodeAdded && t.info == Some(prior) && t.core == map[name := Node(n, 0)]
      && ReconcileStep(t, Some(prior), None, d, true, again, again) == (t, Unchanged)
  {
    var s := AloneNamed(name, prior, us);
    assert Sound(s, map[], map[]);
    assert AddAt([Works], 0) == Works;
    ReplaceIsExact(s, n, true, ABANDONED, second, map[], map[]);
    TruthfulUnlessMisled(s, n, true, ABANDONED, second, map[], map[]);
    StartIsExact(Cleared(s), n, ABANDONED, map[], map[]);
    StartIsExact(StartStep(Cleared(s), n, ABANDONED).0, prior, second, map[], map[]);
  }

  // ---- Runs

  /** A configuration or a user list from the control stream, and what everything answers to it. */
  datatype Event =
    | Configured(config: Info, deleted: bool, first: Answers, second: Answers)
    | Listed(list: Users, answer: Diff)

  function Step(s: State, e: Event): State {
    match e
    case Configured(n, deleted, first, second) => ReconcileStep(s, Some(n), None, Applied, deleted, first, second).0
    case Listed(us, d) => DiffStep(s, us, d).0
  }

  function After(s: State, events: seq<Event>): State {
    if events == [] then s else Step(After(s, events[..|events| - 1]), events[|events| - 1])
  }

  ghost predicate MisledBy(s: State, e: Event) {
    e.Configured? && !Skips(s, Some(e.config)) && Misled(s, e.config, e.deleted, e.first)
  }

  ghost predicate NeverMisled(s: State, events: seq<Event>) {
    forall k | 0 <= k < |events| :: !MisledBy(After(s, events[..k]), events[k])
  }

  /** An event that replaces the node: a changed configuration, and the old node is gone. */
  predicate Replaces(s: State, e: Event) {
    e.Configured? && !Skips(s, Some(e.config)) && (!s.nodeAdded || e.deleted)
  }

  /** What runs has the controller's configuration after the events, given whether it did before. */
  predicate ConfigKept(s: State, events: seq<Event>) {
    if events == [] then ConfigFits(s)
    else
      var before, e := events[..|events| - 1], events[|events| - 1];
      var t := After(s, before);
      if Replaces(t, e) then ConfigRight(t, e.config, e.first) else ConfigKept(s, before)
  }

  /** And the controller's users. */
  predicate UsersKept(s: State, events: seq<Event>) {
    if events == [] then UsersFit(s)
    else
      var before, e := events[..|events| - 1], events[|events| - 1];
      var t := After(s, before);
      if Replaces(t, e) then UsersRight(t, e.config, e.first, e.second)
      else if e.Listed? && e.list != t.users then !t.nodeAdded || e.answer.Applied? || e.answer.left == t.users
      else UsersKept(s, before)
  }

  /** No other controller uses the tags of the configurations. */
  ghost predicate TagsFree(named: bool, events: seq<Event>, nodes: map<Tag, Node>, entries: map<Tag, Users>) {
    forall e | e in events && e.Configured? :: named || Free(e.config.tag, nodes, entries)
  }

  /** The registry has one limiter of this controller, with its users. */
  ghost predicate Registered(s: State, entries: map<Tag, Users>) {
    && OneLimiter(s, entries) && s.limiters[s.tag] == s.users
    && (!s.named && s.info.Some? ==> s.tag == s.info.value.tag)
  }

  lemma ReplaceKeepsLimiter(s: State, n: Info, deleted: bool, first: Answers, second: Answers, entries: map<Tag, Users>)
    requires Registered(s, entries) && (s.named || n.tag !in entries)
    ensures var t := ReplaceStep(s, n, deleted, first, second).0;
      Registered(t, entries) && t.named == s.named && t.users == s.users
  {
    if !(s.nodeAdded && s.tag in s.core && !deleted) {
      var t := StartStep(Cleared(s), n, first).0;
      StartIsExact(Cleared(s), n, first, map[], entries);
      if s.info.Some? {
        StartIsExact(t, s.info.value, second, map[], entries);
      }
    }
  }

  lemma DiffKeepsLimiter(s: State, us: Users, d: Diff, entries: map<Tag, Users>)
    requires Registered(s, entries)
    ensures Registered(DiffStep(s, us, d).0, entries) && DiffStep(s, us, d).0.named == s.named
  {
    var t := DiffStep(s, us, d).0;
    assert t.limiters == entries[s.tag := t.limiters[s.tag]];
  }

  /** Whatever runs, every event keeps the limiter in step with the list, and only a list changes it. */
  lemma StepKeepsLimiter(s: State, e: Event, nodes: map<Tag, Node>, entries: map<Tag, Users>)
    requires Registered(s, entries) && TagsFree(s.named, [e], nodes, entries)
    ensures Registered(Step(s, e), entries) && Step(s, e).named == s.named
    ensures e.Configured? ==> Step(s, e).users == s.users
  {
    match e
    case Configured(n, deleted, first, second) =>
      assert e in [e];
      if !Skips(s, Some(n)) {
        ReplaceKeepsLimiter(s, n, deleted, first, second, entries);
      }
    case Listed(us, d) =>
      DiffKeepsLimiter(s, us, d, entries);
  }

  /** An abandoned node under another tag than the controller's, which it never deletes. */
  ghost predicate Stale(s: State, t: Tag, nodes: map<Tag, Node>) {
    !s.named && s.info.Some? && s.tag == s.info.value.tag && t != s.tag && t in s.core && t !in nodes
  }

  lemma StaleIsUntruthful(s: State, t: Tag, nodes: map<Tag, Node>)
    requires Stale(s, t, nodes)
    ensures !Truthful(s, nodes)
  {
  }

  lemma StaleStays(s: State, e: Event, t: Tag, nodes: map<Tag, Node>)
    requires Stale(s, t, nodes)
    ensures Stale(Step(s, e), t, nodes)
  {
  }

  lemma MisledIsStale(s: State, e: Event, nodes: map<Tag, Node>, entries: map<Tag, Users>)
    requires Sound(s, nodes, entries) && TagsFree(s.named, [e], nodes, entries) && MisledBy(s, e)
    ensures Stale(Step(s, e), e.config.tag, nodes)
  {
    assert e in [e];
    ReplaceIsExact(s, e.config, e.deleted, e.first, e.second, nodes, entries);
  }

  /** One event that does not mislead. */
  lemma StepIsExact(s: State, e: Event, nodes: map<Tag, Node>, entries: map<Tag, Users>)
    requires Sound(s, nodes, entries) && Registered(s, entries) && TagsFree(s.named, [e], nodes, entries) && !MisledBy(s, e)
    ensures var t := Step(s, e);
      && Sound(t, nodes, entries)
      && (ConfigFits(t) <==> if Replaces(s, e) then ConfigRight(s, e.config, e.first) else ConfigFits(s))
      && (UsersFit(t) <==>
        if Replaces(s, e) then UsersRight(s, e.config, e.first, e.second)
        else if e.Listed? && e.list != s.users then !s.nodeAdded || e.answer.Applied? || e.answer.left == s.users
        else UsersFit(s))
  {
    match e
    case Configured(n, deleted, first, second) =>
      assert e in [e];
      if !Skips(s, Some(n)) {
        TruthfulUnlessMisled(s, n, deleted, first, second, nodes, entries);
        ConfigFitsExactly(s, n, deleted, first, second, nodes, entries);
        UsersFitExactly(s, n, deleted, first, second, nodes, entries);
      }
    case Listed(us, d) =>
      DiffIsExact(s, us, d, nodes, entries);
  }

  /**
    After any events nodeAdded tells the truth if and only if none of them misled it, and then the
    core runs exactly what the controller says if and only if configuration and users were kept.
    The limiter has the controller's users all along.
  */
  lemma {:induction false} RunIsExact(s: State, events: seq<Event>, nodes: map<Tag, Node>, entries: map<Tag, Users>) returns (stale: Option<Tag>)
    requires Sound(s, nodes, entries) && Registered(s, entries) && TagsFree(s.named, events, nodes, entries)
    ensures var t := After(s, events);
      && Registered(t, entries) && t.named == s.named
      && (Truthful(t, nodes) <==> NeverMisled(s, events))
      && (NeverMisled(s, events) ==> Sound(t, nodes, entries))
      && (NeverMisled(s, events) ==> (ConfigFits(t) <==> ConfigKept(s, events)) && (UsersFit(t) <==> UsersKept(s, events)))
      && (!NeverMisled(s, events) ==> stale.Some? && Stale(t, stale.value, nodes))
      && ((forall e | e in events :: e.Configured?) ==> t.users == s.users)
  {
    stale := None;
    if events != [] {
      var before, e := events[..|events| - 1], events[|events| - 1];
      assert e in events && forall x | x in before :: x in events;
      stale := RunIsExact(s, before, nodes, entries);
      NeverMisledGrows(s, events);
      var t := After(s, before);
      StepKeepsLimiter(t, e, nodes, entries);
      if stale.Some? && !NeverMisled(s, before) {
        StaleStays(t, e, stale.value, nodes);
        StaleIsUntruthful(Step(t, e), stale.value, nodes);
      } else if MisledBy(t, e) {
        MisledIsStale(t, e, nodes, entries);
        stale := Some(e.config.tag);
        StaleIsUntruthful(Step(t, e), stale.value, nodes);
      } else {
        StepIsExact(t, e, nodes, entries);
      }
    }
  }

  lemma NeverMisledGrows(s: State, events: seq<Event>)
    requires events != []
    ensures var before, e := events[..|events| - 1], events[|events| - 1];
      NeverMisled(s, events) <==> NeverMisled(s, before) && !MisledBy(After(s, before), e)
  {
    var before := events[..|events| - 1];
    assert forall k | 0 <= k <= |before| :: before[..k] == events[..k];
    assert forall k | 0 <= k < |before| :: before[k] == events[k];
  }

  /** Deletes after failed users work, and user lists are applied. */
  predicate GoesWell(e: Event) {
    match e
    case Configured(_, _, first, second) => (first.usersAdded || first.deleted) && (second.usersAdded || second.deleted)
    case Listed(_, d) => d.Applied?
  }

  /** Then nothing is misled and everything is kept. */
  lemma {:induction false} WorkingKeepsAll(s: State, events: seq<Event>)
    requires ConfigFits(s) && UsersFit(s) && forall e | e in events :: GoesWell(e)
    ensures NeverMisled(s, events) && ConfigKept(s, events) && UsersKept(s, events)
  {
    if events != [] {
      var before, e := events[..|events| - 1], events[|events| - 1];
      assert e in events && forall x | x in before :: x in events;
      WorkingKeepsAll(s, before);
      NeverMisledGrows(s, events);
    }
  }

  // ---- The controller

  /** What the other controllers have. */
  datatype Others = Others(nodes: map<Tag, Node>, entries: map<Tag, Users>)

  /** The controller tells the truth, limiter and list are in step, and the new configuration's tag is free. */
  ghost predicate Ready(s: State, newN: Option<Info>, beside: Others) {
    && Sound(s, beside.nodes, beside.entries) && s.limiters[s.tag] == s.users
    && (newN.Some? && !s.named ==> Free(newN.value.tag, beside.nodes, beside.entries))
  }

  class Controller {
    /** Named nodes keep their tag and their limiter. */
    const named: bool
    var tag: Tag
    var info: Option<Info>
    var users: Users
    var nodeAdded: bool
    var core: map<Tag, Node>
    var limiters: map<Tag, Users>

    ghost function View(): State
      reads this
    {
      State(named, tag, info, users, nodeAdded, core, limiters)
    }

    /** A controller whose node has been started, beside the others. */
    constructor (named: bool, name: Tag, n: Info, us: Users, nodes: map<Tag, Node>, entries: map<Tag, Users>)
      requires Free(if named then name else n.tag, nodes, entries)
      ensures Steady(View(), nodes, entries, us) && users == us && nodeAdded && info == Some(n) && limiters[tag] == us
    {
      var t := if named then name else n.tag;
      this.named, tag, info, users, nodeAdded := named, t, Some(n), us, true;
      core, limiters := nodes[t := Node(n, us)], entries[t := us];
    }

    /** Adds the node, again up to three times while its address is in use; a tag the core has is refused. */
    method AddCoreNode(t: Tag, n: Info, adds: seq<Add>) returns (ok: bool)
      modifies this`core
      ensures ok <==> t !in old(core) && AddWorks(adds, 0)
      ensures core == if ok then old(core)[t := Node(n, 0)] else old(core)
    {
      if t in core {
        return false;
      }
      var i := 0;
      var answer := AddAt(adds, 0);
      while i + 1 < ATTEMPTS && answer.InUse?
        invariant i < ATTEMPTS && answer == AddAt(adds, i) && AddWorks(adds, 0) == AddWorks(adds, i)
      {
        i := i + 1;
        answer := AddAt(adds, i);
      }
      ok := answer.Works?;
      if ok {
        core := core[t := Node(n, 0)];
      }
    }

    /** Brings up a configuration with the controller's users; a node whose users fail is deleted again. */
    method StartNode(n: Info, a: Answers) returns (start: Start)
      modifies this`tag, this`limiters, this`core, this`nodeAdded
      ensures (View(), start) == StartStep(old(View()), n, a)
    {
      if !named {
        var before := tag;
        tag := n.tag;
        limiters := limiters - {before};
        limiters := limiters[tag := users];
      }
      if !a.rules {
        return NotStarted;
      }
      if n.tls && !a.certificate {
        return NotStarted;
      }
      var added := AddCoreNode(tag, n, a.adds);
      if !added {
        return NotStarted;
      }
      core := core[tag := Node(n, if a.usersAdded then users else a.left)];
      assert core == old(core)[tag := Node(n, if a.usersAdded then users else a.left)];
      if !a.usersAdded {
        if a.deleted {
          core := core - {tag};
          assert core == old(core);
          return NotStarted;
        }
        nodeAdded := true;
        return Abandoned;
      }
      nodeAdded := true;
      start := Started;
    }

    /** Deletes the running node; one the core does not have is gone already. */
    method DeleteOld(deleted: bool) returns (gone: bool)
      modifies this`core, this`nodeAdded
      ensures gone <==> !(old(nodeAdded) && tag in old(core) && !deleted)
      ensures View() == if gone then Cleared(old(View())) else old(View())
    {
      if nodeAdded {
        if tag in core && !deleted {
          return false;
        }
        core := core - {tag};
        nodeAdded := false;
      }
      gone := true;
    }

    /** Replaces the running node, or puts the previous configuration back. */
    method Replace(n: Info, deleted: bool, first: Answers, second: Answers, ghost beside: Others) returns (result: Result)
      modifies this`tag, this`limiters, this`core, this`nodeAdded, this`info
      ensures (View(), result) == ReplaceStep(old(View()), n, deleted, first, second)
      ensures Sound(old(View()), beside.nodes, beside.entries) && (named || Free(n.tag, beside.nodes, beside.entries)) ==>
        (Truthful(View(), beside.nodes) <==> !Misled(old(View()), n, deleted, first))
    {
      ghost var before := View();
      if Sound(before, beside.nodes, beside.entries) && (named || Free(n.tag, beside.nodes, beside.entries)) {
        TruthfulUnlessMisled(before, n, deleted, first, second, beside.nodes, beside.entries);
      }
      result := ReplaceOrPutBack(n, deleted, first, second);
    }

    method ReplaceOrPutBack(n: Info, deleted: bool, first: Answers, second: Answers) returns (result: Result)
      modifies this`tag, this`limiters, this`core, this`nodeAdded, this`info
      ensures (View(), result) == ReplaceStep(old(View()), n, deleted, first, second)
    {
      var before := info;
      var gone := DeleteOld(deleted);
      if !gone {
        return DeleteFailed;
      }
      var one := StartNode(n, first);
      if one.Started? {
        info := Some(n);
        return Replaced;
      }
      if before.None? {
        return NothingBefore(one);
      }
      var two := StartNode(before.value, second);
      result := PutBack(one, two);
    }

    /** A new configuration, a new user list, or both. */
    method Reconcile(newN: Option<Info>, newU: Option<Users>, d: Diff, deleted: bool, first: Answers, second: Answers,
                     ghost beside: Others) returns (outcome: Outcome)
      modifies this
      ensures (View(), outcome) == ReconcileStep(old(View()), newN, newU, d, deleted, first, second)
      ensures Ready(old(View()), newN, beside) ==>
        Reconciled(old(View()), newN, newU, deleted, first, second, beside.nodes, beside.entries, View(), outcome)
    {
      if Ready(View(), newN, beside) {
        ReconcileIsExact(View(), newN, newU, d, deleted, first, second, beside.nodes, beside.entries);
      }
      if newN.Some? && !(nodeAdded && info == newN) {
        if newU.Some? {
          users := newU.value;
        }
        var result := ReplaceOrPutBack(newN.value, deleted, first, second);
        return Reloaded(result);
      }
      if newU.None? {
        return Unchanged;
      }
      var ok := ApplyDiff(newU.value, d);
      outcome := Diffed(ok);
    }

    method ApplyDiff(us: Users, d: Diff) returns (ok: bool)
      modifies this`core, this`limiters, this`users
      ensures (View(), ok) == DiffStep(old(View()), us, d)
    {
      if us == users {
        return true;
      }
      if tag !in core {
        return false;
      }
      core := core[tag := core[tag].(users := if d.Applied? then us else d.left)];
      if !d.Applied? {
        return false;
      }
      limiters := limiters[tag := us];
      users := us;
      ok := true;
    }

    /**
      Any configurations and user lists, as they come. nodeAdded tells the truth exactly while
      nothing misled it; the core then runs what the controller says exactly when configuration
      and users were kept, and always when every delete and every change of users works.
    */
    method Follow(events: seq<Event>, ghost nodes: map<Tag, Node>, ghost entries: map<Tag, Users>)
      requires Sound(View(), nodes, entries) && limiters[tag] == users && TagsFree(named, events, nodes, entries)
      modifies this
      ensures View() == After(old(View()), events) && Registered(View(), entries)
      ensures Truthful(View(), nodes) <==> NeverMisled(old(View()), events)
      ensures Runs(View(), nodes, users) <==>
        NeverMisled(old(View()), events) && ConfigKept(old(View()), events) && UsersKept(old(View()), events)
      ensures Steady(old(View()), nodes, entries, old(users)) && (forall e | e in events :: GoesWell(e)) ==>
        Steady(View(), nodes, entries, users)
      ensures (forall e | e in events :: e.Configured?) ==> users == old(users)
    {
      ghost var s := View();
      for k := 0 to |events|
        invariant View() == After(s, events[..k]) && s.named == named
      {
        assert events[..k + 1][..k] == events[..k];
        match events[k]
        case Configured(n, deleted, first, second) =>
          var _ := Reconcile(Some(n), None, Applied, deleted, first, second, Others(nodes, entries));
        case Listed(us, d) =>
          var _ := ApplyDiff(us, d);
      }
      assert events[..|events|] == events;
      ghost var _ := RunIsExact(s, events, nodes, entries);
      RunsIsFits(s, nodes);
      RunsIsFits(View(), nodes);
      if Steady(s, nodes, entries, s.users) && forall e | e in events :: GoesWell(e) {
        WorkingKeepsAll(s, events);
      }
    }
  }
}
