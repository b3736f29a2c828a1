/**
  Installing the policy routing (Manager.Apply in networkroute/networkroute.go): the Agent
  owns a range of tables and rule priorities, deletes every rule of the range that the plan
  does not have, and installs each route's default route and rules.

  A command that fails may or may not have taken effect.  The listing names each rule of the
  host; `spelled` is whether its text is the key Apply builds for that rule (a host prefix may
  be listed without its length).
*/
module RouteApply {

  datatype Family = V4 | V6

  /** A table by number, or by a name that is not one. */
  datatype Table = Number(n: nat) | Name(name: nat)

  /** Prefixes by number, 0 for none. */
  datatype Rule = Rule(priority: nat, source: nat, to: nat, table: Table)

  datatype Shown = Shown(rule: Rule, spelled: bool)

  /** The default route of a table: gateway, interface and source. */
  datatype Default = Default(gateway: nat, dev: nat, source: nat)

  datatype Route = Route(
    family: Family, source: nat, dev: nat, gateway: nat, table: nat, priority: nat, to: seq<nat>, toPriority: nat)

  function FromRule(r: Route): Rule { Rule(r.priority, r.source, 0, Number(r.table)) }

  function ToRule(r: Route, to: nat): Rule { Rule(r.toPriority, 0, to, Number(r.table)) }

  function DefaultOf(r: Route): Default { Default(r.gateway, r.dev, r.source) }

  /** The rules of one route. */
  function RulesOf(r: Route): set<Rule> {
    {FromRule(r)} + set to | to in r.to :: ToRule(r, to)
  }

  /** The rules the routes want in a family. */
  ghost predicate Wants(routes: seq<Route>, family: Family, rule: Rule) {
    exists r | r in routes :: r.family == family && rule in RulesOf(r)
  }

  ghost predicate WantsTable(routes: seq<Route>, family: Family, table: nat) {
    exists r | r in routes :: r.family == family && r.table == table
  }

  /** Each table of the family has the default route of its last route. */
  ghost predicate Serves(defaults: map<nat, Default>, routes: seq<Route>, family: Family) {
    forall i | 0 <= i < |routes| :: ServedAt(defaults, routes, family, i)
  }

  /** No later route of the family has the table, or the table leads where this route goes. */
  ghost predicate ServedAt(defaults: map<nat, Default>, routes: seq<Route>, family: Family, i: nat)
    requires i < |routes|
  {
    routes[i].family == family && !WantsTable(routes[i + 1..], family, routes[i].table) ==>
      routes[i].table in defaults && defaults[routes[i].table] == DefaultOf(routes[i])
  }

  // ---- What the rules do

  /** Where a packet comes from and goes to, by prefix. */
  datatype Packet = Packet(source: nat, to: nat)

  predicate Matches(rule: Rule, packet: Packet) {
    (rule.source == 0 || rule.source == packet.source) && (rule.to == 0 || rule.to == packet.to)
  }

  /** The rule the kernel takes: of those that match, one of the lowest priority. */
  ghost predicate Takes(rules: set<Rule>, packet: Packet, rule: Rule) {
    && rule in rules && Matches(rule, packet)
    && forall other | other in rules && Matches(other, packet) :: rule.priority <= other.priority
  }

  /** The rules are the wanted ones and the tables serve the routes. */
  ghost predicate InPlace(rules: set<Rule>, defaults: map<nat, Default>, routes: seq<Route>, family: Family) {
    (forall rule :: rule in rules <==> Wants(routes, family, rule)) && Serves(defaults, routes, family)
  }

  /**
    A packet with a route's source leaves through the route's interface and gateway, whatever its
    destination: when no other route has the source at the same or a lower priority, the peers'
    rules come after it, and no later route has its table.
  */
  lemma SourceLeadsOut(rules: set<Rule>, defaults: map<nat, Default>, routes: seq<Route>, family: Family, i: nat, packet: Packet, rule: Rule)
    requires InPlace(rules, defaults, routes, family) && i < |routes| && routes[i].family == family && packet.source == routes[i].source
    requires forall r | r in routes && r.family == family && r != routes[i] && r.source in {0, routes[i].source} :: routes[i].priority < r.priority
    requires forall r | r in routes && r.family == family && r.to != [] :: routes[i].priority < r.toPriority
    requires !WantsTable(routes[i + 1..], family, routes[i].table) && Takes(rules, packet, rule)
    ensures rule.priority == routes[i].priority && rule.source == routes[i].source && rule.table == Number(routes[i].table)
    ensures routes[i].table in defaults && defaults[routes[i].table].dev == routes[i].dev
    ensures defaults[routes[i].table].gateway == routes[i].gateway && defaults[routes[i].table].source == routes[i].source
  {
    var own := FromRule(routes[i]);
    assert routes[i] in routes && own in RulesOf(routes[i]) && Wants(routes, family, own);
    assert own in rules && Matches(own, packet);
    var r :| r in routes && r.family == family && rule in RulesOf(r);
    assert ServedAt(defaults, routes, family, i);
  }

  /** A packet to a peer, from no route's source, leaves through a route that has the peer. */
  lemma PeerLeadsOut(rules: set<Rule>, defaults: map<nat, Default>, routes: seq<Route>, family: Family, packet: Packet, rule: Rule)
    requires InPlace(rules, defaults, routes, family) && Takes(rules, packet, rule)
    requires forall r | r in routes && r.family == family :: r.source != 0 && r.source != packet.source && 0 !in r.to
    ensures exists r | r in routes && r.family == family && packet.to in r.to :: rule.priority == r.toPriority && rule.table == Number(r.table)
  {
    var r :| r in routes && r.family == family && rule in RulesOf(r);
    if rule != FromRule(r) {
      var to :| to in r.to && rule == ToRule(r, to);
    }
  }

  /** Both have the same default route in a table, or none. */
  ghost predicate SameAt(a: map<nat, Default>, b: map<nat, Default>, table: nat) {
    (table in a <==> table in b) && (table in a ==> a[table] == b[table])
  }

  function Named(shown: seq<Shown>): set<Rule> {
    set s | s in shown :: s.rule
  }

  /** The listing names every rule, and none twice. */
  ghost predicate Lists(shown: seq<Shown>, rules: set<Rule>) {
    && Named(shown) == rules
    && forall i, j | 0 <= i < j < |shown| :: shown[i].rule != shown[j].rule
  }

  function Misspelled(shown: seq<Shown>): set<Rule> {
    set s | s in shown && !s.spelled :: s.rule
  }

  /** In a listing without repetition a rule is named at its place only. */
  lemma ListedOnce(shown: seq<Shown>, i: nat)
    requires i < |shown| && forall i, j | 0 <= i < j < |shown| :: shown[i].rule != shown[j].rule
    ensures shown[..i + 1] == shown[..i] + [shown[i]]
    ensures shown[i].rule in Named(shown[i..]) && shown[i].rule !in Named(shown[..i]) && shown[i].rule !in Named(shown[i + 1..])
    ensures Named(shown[i + 1..]) <= Named(shown[i..]) && (!shown[i].spelled ==> shown[i].rule in Misspelled(shown))
  {
    assert shown[i] in shown[i..] && shown[i] in shown;
    assert shown[i..] == [shown[i]] + shown[i + 1..];
    assert forall s | s in shown[i + 1..] :: s in shown[i..];
  }

  lemma NamedAppend(shown: seq<Shown>, s: Shown)
    ensures Named(shown + [s]) == Named(shown) + {s.rule}
  {
    assert s in shown + [s];
    assert forall x | x in shown :: x in shown + [s];
  }

  /** One family's rules and tables on the host. */
  class Host {
    var rules: set<Rule>
    var defaults: map<nat, Default>
    /** The rules and tables the commands of a run named. */
    ghost var deleted: set<Rule>
    ghost var flushed: set<nat>
    ghost var added: set<Rule>
    /** The rules that were listed in another spelling than the key of the rule. */
    ghost var misspelled: set<Rule>
    /** How many commands failed. */
    ghost var faults: nat

    constructor (rules: set<Rule>, defaults: map<nat, Default>)
      ensures this.rules == rules && this.defaults == defaults && Untouched()
    {
      this.rules, this.defaults := rules, defaults;
      deleted, flushed, added, misspelled, faults := {}, {}, {}, {}, 0;
    }

    /** No command has run yet. */
    ghost predicate Untouched()
      reads this
    {
      deleted == {} && flushed == {} && added == {}
    }

    /** A command works, or fails and may have taken effect all the same. */
    method Run() returns (ok: bool, applied: bool)
      modifies this`faults
      ensures (ok ==> applied) && faults == if ok then old(faults) else old(faults) + 1
    {
      ok := *;
      applied := *;
      applied := ok || applied;
      if !ok { faults := faults + 1; }
    }

    /** `ip -j rule show`: every rule once, in some order, each spelled somehow. */
    method List() returns (ok: bool, shown: seq<Shown>)
      modifies this`faults, this`misspelled
      ensures ok ==> Lists(shown, rules) && misspelled == Misspelled(shown)
      ensures faults == if ok then old(faults) else old(faults) + 1
    {
      var read;
      ok, read := Run();
      shown := ListAll(rules);
      misspelled := Misspelled(shown);
    }

    static method ListAll(rules: set<Rule>) returns (shown: seq<Shown>)
      ensures Lists(shown, rules)
    {
      shown := [];
      var rest := rules;
      while rest != {}
        invariant rest <= rules
        invariant Lists(shown, rules - rest)
        decreases |rest|
      {
        var rule :| rule in rest;
        var spelled := *;
        NamedAppend(shown, Shown(rule, spelled));
        assert forall i | 0 <= i < |shown| :: shown[i].rule in Named(shown);
        shown, rest := shown + [Shown(rule, spelled)], rest - {rule};
      }
      assert rules - rest == rules;
    }

    method DeleteRule(rule: Rule) returns (ok: bool)
      modifies this`rules, this`deleted, this`faults
      ensures faults == if ok then old(faults) else old(faults) + 1
      ensures rules == old(rules) - {rule} || (!ok && rules == old(rules))
      ensures deleted == old(deleted) + {rule}
    {
      var applied;
      ok, applied := Run();
      if applied { rules := rules - {rule}; }
      deleted := deleted + {rule};
    }

    method FlushTable(table: nat) returns (ok: bool)
      modifies this`defaults, this`flushed, this`faults
      ensures faults == if ok then old(faults) else old(faults) + 1
      ensures defaults == old(defaults) - {table} || (!ok && defaults == old(defaults))
      ensures flushed == old(flushed) + {table}
    {
      var applied;
      ok, applied := Run();
      if applied { defaults := defaults - {table}; }
      flushed := flushed + {table};
    }

    method ReplaceDefault(table: nat, route: Default) returns (ok: bool)
      modifies this`defaults, this`faults
      ensures faults == if ok then old(faults) else old(faults) + 1
      ensures defaults == old(defaults)[table := route] || (!ok && defaults == old(defaults))
    {
      var applied;
      ok, applied := Run();
      if applied { defaults := defaults[table := route]; }
    }

    method AddRule(rule: Rule) returns (ok: bool)
      modifies this`rules, this`added, this`faults
      ensures faults == if ok then old(faults) else old(faults) + 1
      ensures rules == old(rules) + {rule} || (!ok && rules == old(rules))
      ensures added == old(added) + {rule}
    {
      added := added + {rule};
      var applied;
      ok, applied := Run();
      if applied { rules := rules + {rule}; }
    }
  }

  class Manager {
    const first: nat
    const last: nat

    constructor (first: nat, last: nat)
      ensures this.first == first && this.last == last && (first <= last ==> Owns(first) && Owns(last))
    {
      this.first, this.last := first, last;
    }

    predicate Owns(n: nat) { first <= n <= last }

    /**
      Only owned rules were deleted, wanted ones only if they were listed in another spelling, and
      only owned tables no route of the family uses were flushed.
    */
    ghost predicate Careful(host: Host, routes: seq<Route>, family: Family)
      reads host
    {
      && (forall rule | rule in host.deleted :: Owns(rule.priority) && (Wants(routes, family, rule) ==> rule in host.misspelled))
      && (forall table | table in host.flushed :: Owns(table) && !WantsTable(routes, family, table))
    }

    /** The wanted keys and tables of a family. */
    method Wanted(routes: seq<Route>, family: Family) returns (wanted: set<Rule>, tables: set<nat>)
      ensures forall rule :: rule in wanted <==> Wants(routes, family, rule)
      ensures forall table :: table in tables <==> WantsTable(routes, family, table)
    {
      wanted, tables := {}, {};
      for i := 0 to |routes|
        invariant forall rule :: rule in wanted <==> Wants(routes[..i], family, rule)
        invariant forall table :: table in tables <==> WantsTable(routes[..i], family, table)
      {
        assert routes[..i + 1] == routes[..i] + [routes[i]];
        if routes[i].family == family {
          wanted, tables := wanted + RulesOf(routes[i]), tables + {routes[i].table};
        }
      }
      assert routes[..|routes|] == routes;
    }

    /** With a rule goes its table, when it is an owned one that no route uses. */
    ghost predicate FlushedWith(host: Host, tables: set<nat>)
      reads host
    {
      forall rule | rule in host.deleted && Flushes(rule, tables) :: rule.table.n in host.flushed
    }

    predicate Flushes(rule: Rule, tables: set<nat>) {
      rule.table.Number? && Owns(rule.table.n) && rule.table.n !in tables
    }

    function FlushedBy(rule: Rule, tables: set<nat>): set<nat> {
      if Flushes(rule, tables) then {rule.table.n} else {}
    }

    /** Deletes a rule and flushes its table, when it is an owned one that no route uses. */
    method Drop(host: Host, rule: Rule, tables: set<nat>) returns (ok: bool)
      modifies host`rules, host`defaults, host`deleted, host`flushed, host`faults
      ensures host.rules == old(host.rules) - {rule} || (!ok && host.rules == old(host.rules))
      ensures host.deleted == old(host.deleted) + {rule}
      ensures host.flushed == old(host.flushed) + FlushedBy(rule, tables)
      ensures host.faults >= old(host.faults) && (ok <==> host.faults == old(host.faults))
      ensures host.defaults == old(host.defaults) || host.defaults == old(host.defaults) - FlushedBy(rule, tables)
      ensures ok ==> forall table | table in FlushedBy(rule, tables) :: table !in host.defaults
    {
      ok := host.DeleteRule(rule);
      if rule.table.Number? && Owns(rule.table.n) && rule.table.n !in tables {
        var done := host.FlushTable(rule.table.n);
        ok := ok && done;
      }
    }

    /** Deletes the owned rules that are not wanted, or not recognised as wanted, and flushes their tables. */
    method Clear(host: Host, shown: seq<Shown>, wanted: set<Rule>, tables: set<nat>, ghost routes: seq<Route>, ghost family: Family)
      returns (ok: bool, present: set<Rule>)
      requires Lists(shown, host.rules) && host.misspelled == Misspelled(shown) && host.Untouched()
      requires forall rule :: rule in wanted <==> Wants(routes, family, rule)
      requires forall table :: table in tables <==> WantsTable(routes, family, table)
      modifies host`rules, host`defaults, host`deleted, host`flushed, host`faults
      ensures Careful(host, routes, family)
      ensures host.faults >= old(host.faults) && (ok <==> host.faults == old(host.faults))
      ensures FlushedWith(host, tables) && host.deleted <= old(host.rules) && (host.deleted == {} ==> host.flushed == {})
      ensures TablesLeft(old(host.defaults), host.defaults, host.flushed, ok)
      ensures forall s | s in shown && s.spelled && s.rule in wanted && Owns(s.rule.priority) :: s.rule in present && s.rule !in host.deleted
      ensures present <= wanted
      ensures host.rules <= old(host.rules)
      ensures forall rule | rule in old(host.rules) && !Owns(rule.priority) :: rule in host.rules
      ensures ok ==> forall rule | rule in host.rules && Owns(rule.priority) :: rule in present
      ensures present <= host.rules
    {
      ok, present := true, {};
      ghost var before := host.defaults;
      for i := 0 to |shown|
        invariant Careful(host, routes, family) && FlushedWith(host, tables)
        invariant host.faults >= old(host.faults) && (ok <==> host.faults == old(host.faults))
        invariant host.rules <= old(host.rules) && Named(shown[i..]) <= host.rules
        invariant forall rule | rule in old(host.rules) && !Owns(rule.priority) :: rule in host.rules
        invariant Sorted(shown[..i], wanted, present, host.deleted, host.rules, ok)
        invariant TablesLeft(before, host.defaults, host.flushed, ok) && (host.deleted == {} ==> host.flushed == {})
      {
        var existing := shown[i];
        ListedOnce(shown, i);
        if !Owns(existing.rule.priority) {
          SortedSkips(shown[..i], existing, wanted, present, host.deleted, host.rules, ok);
          continue;
        }
        if existing.spelled && existing.rule in wanted {
          SortedKeeps(shown[..i], existing, wanted, present, host.deleted, host.rules, ok);
          present := present + {existing.rule};
          continue;
        }
        ok := Discard(host, shown[..i], existing, wanted, tables, present, before, ok);
      }
      assert shown[..|shown|] == shown;
    }

    /** A rule of the range that is not wanted as it is listed. */
    method Discard(host: Host, ghost seen: seq<Shown>, s: Shown, ghost wanted: set<Rule>, tables: set<nat>, ghost present: set<Rule>,
                   ghost before: map<nat, Default>, good: bool) returns (ok: bool)
      requires Sorted(seen, wanted, present, host.deleted, host.rules, good) && s.rule !in Named(seen) && !(s.spelled && s.rule in wanted)
      requires TablesLeft(before, host.defaults, host.flushed, good)
      modifies host`rules, host`defaults, host`deleted, host`flushed, host`faults
      ensures host.rules == old(host.rules) - {s.rule} || host.rules == old(host.rules)
      ensures host.deleted == old(host.deleted) + {s.rule} && host.flushed == old(host.flushed) + FlushedBy(s.rule, tables)
      ensures host.faults >= old(host.faults) && (ok <==> good && host.faults == old(host.faults))
      ensures Sorted(seen + [s], wanted, present, host.deleted, host.rules, ok)
      ensures TablesLeft(before, host.defaults, host.flushed, ok)
    {
      var done := Drop(host, s.rule, tables);
      ok := good && done;
      SortedDrops(seen, s, wanted, present, old(host.deleted), old(host.rules), host.rules, good, ok);
      TablesDrop(before, old(host.defaults), host.defaults, old(host.flushed), FlushedBy(s.rule, tables), good, ok);
    }

    /** The rules seen so far: the wanted ones are present, and the others of the range are gone when all went well. */
    ghost predicate Sorted(seen: seq<Shown>, wanted: set<Rule>, present: set<Rule>, deleted: set<Rule>, rules: set<Rule>, ok: bool) {
      && present <= wanted && present <= Named(seen) && present <= rules && deleted <= Named(seen)
      && (forall s | s in seen && s.spelled && s.rule in wanted && Owns(s.rule.priority) :: s.rule in present && s.rule !in deleted)
      && (ok ==> forall rule | rule in rules && Owns(rule.priority) && rule in Named(seen) :: rule in present)
    }

    lemma SortedSkips(seen: seq<Shown>, s: Shown, wanted: set<Rule>, present: set<Rule>, deleted: set<Rule>, rules: set<Rule>, ok: bool)
      requires Sorted(seen, wanted, present, deleted, rules, ok) && !Owns(s.rule.priority)
      ensures Sorted(seen + [s], wanted, present, deleted, rules, ok)
    {
      NamedAppend(seen, s);
    }

    lemma SortedKeeps(seen: seq<Shown>, s: Shown, wanted: set<Rule>, present: set<Rule>, deleted: set<Rule>, rules: set<Rule>, ok: bool)
      requires Sorted(seen, wanted, present, deleted, rules, ok) && s.rule in wanted && s.rule in rules && s.rule !in Named(seen)
      ensures Sorted(seen + [s], wanted, present + {s.rule}, deleted, rules, ok)
    {
      NamedAppend(seen, s);
    }

    lemma SortedDrops(seen: seq<Shown>, s: Shown, wanted: set<Rule>, present: set<Rule>, deleted: set<Rule>,
                      was: set<Rule>, rules: set<Rule>, good: bool, ok: bool)
      requires Sorted(seen, wanted, present, deleted, was, good) && s.rule !in Named(seen) && !(s.spelled && s.rule in wanted)
      requires (ok ==> good) && (rules == was - {s.rule} || (!ok && rules == was))
      ensures Sorted(seen + [s], wanted, present, deleted + {s.rule}, rules, ok)
    {
      NamedAppend(seen, s);
      forall x | x in seen ensures x.rule != s.rule { assert x.rule in Named(seen); }
    }

    /** Tables that were not flushed are as before, and flushed ones are empty when all went well. */
    ghost predicate TablesLeft(before: map<nat, Default>, after: map<nat, Default>, flushed: set<nat>, ok: bool) {
      && (forall table | table !in flushed :: SameAt(before, after, table)) && after.Keys <= before.Keys
      && (ok ==> forall table | table in flushed :: table !in after)
    }

    lemma TablesDrop(before: map<nat, Default>, was: map<nat, Default>, after: map<nat, Default>,
                     flushed: set<nat>, now: set<nat>, good: bool, ok: bool)
      requires TablesLeft(before, was, flushed, good) && (ok ==> good) && (after == was || after == was - now)
      requires ok ==> forall table | table in now :: table !in after
      ensures TablesLeft(before, after, flushed + now, ok)
    {
      forall table | table !in flushed + now ensures SameAt(before, after, table) {
        assert SameAt(before, was, table);
      }
    }

    /** One route: its default route first, and only then the rules that are not there yet. */
    method InstallRoute(host: Host, r: Route, present: set<Rule>) returns (ok: bool)
      requires present <= host.rules
      modifies host`rules, host`defaults, host`added, host`faults
      ensures host.faults >= old(host.faults) && (ok <==> host.faults == old(host.faults))
      ensures host.added <= old(host.added) + (RulesOf(r) - present)
      ensures host.rules != old(host.rules) ==> host.defaults == old(host.defaults)[r.table := DefaultOf(r)]
      ensures forall table | table != r.table :: SameAt(old(host.defaults), host.defaults, table)
      ensures old(host.rules) <= host.rules <= old(host.rules) + RulesOf(r)
      ensures ok ==> RulesOf(r) <= host.rules && host.defaults == old(host.defaults)[r.table := DefaultOf(r)]
    {
      ok := host.ReplaceDefault(r.table, DefaultOf(r));
      if !ok { return; }
      if FromRule(r) !in present { ok := host.AddRule(FromRule(r)); }
      for i := 0 to |r.to|
        modifies host`rules, host`added, host`faults
        invariant host.faults >= old(host.faults) && (ok <==> host.faults == old(host.faults))
        invariant host.added <= old(host.added) + (RulesOf(r) - present)
        invariant old(host.rules) <= host.rules <= old(host.rules) + RulesOf(r)
        invariant ok ==> FromRule(r) in host.rules && forall k | 0 <= k < i :: ToRule(r, r.to[k]) in host.rules
      {
        if ToRule(r, r.to[i]) !in present {
          var done := host.AddRule(ToRule(r, r.to[i]));
          ok := ok && done;
        }
      }
    }

    method Install(host: Host, routes: seq<Route>, family: Family, present: set<Rule>) returns (ok: bool)
      requires present <= host.rules
      modifies host`rules, host`defaults, host`added, host`faults
      ensures host.faults >= old(host.faults) && (ok <==> host.faults == old(host.faults))
      ensures forall rule | rule in host.added - old(host.added) :: Wants(routes, family, rule) && rule !in present
      ensures forall table | !WantsTable(routes, family, table) :: SameAt(old(host.defaults), host.defaults, table)
      ensures old(host.rules) <= host.rules
      ensures forall rule | rule in host.rules :: rule in old(host.rules) || Wants(routes, family, rule)
      ensures ok ==> forall rule | Wants(routes, family, rule) :: rule in host.rules
      ensures ok ==> Serves(host.defaults, routes, family)
    {
      ok := true;
      for i := 0 to |routes|
        invariant host.faults >= old(host.faults) && (ok <==> host.faults == old(host.faults))
        invariant forall rule | rule in host.added - old(host.added) :: Wants(routes, family, rule) && rule !in present
        invariant forall table | !WantsTable(routes, family, table) :: SameAt(old(host.defaults), host.defaults, table)
        invariant old(host.rules) <= host.rules
        invariant forall rule | rule in host.rules :: rule in old(host.rules) || Wants(routes, family, rule)
        invariant ok ==> forall rule | Wants(routes[..i], family, rule) :: rule in host.rules
        invariant ok ==> Serves(host.defaults, routes[..i], family)
      {
        assert routes[..i + 1] == routes[..i] + [routes[i]];
        ghost var before := host.defaults;
        if routes[i].family == family {
          assert routes[i] in routes;
          var done := InstallRoute(host, routes[i], present);
          ok := ok && done;
          forall table | !WantsTable(routes, family, table) ensures SameAt(old(host.defaults), host.defaults, table) {
            assert SameAt(before, host.defaults, table);
          }
        }
        if ok { ServesNext(before, host.defaults, routes, family, i); }
      }
      assert routes[..|routes|] == routes;
    }

    static lemma ServesNext(before: map<nat, Default>, after: map<nat, Default>, routes: seq<Route>, family: Family, i: nat)
      requires i < |routes| && Serves(before, routes[..i], family)
      requires after == if routes[i].family == family then before[routes[i].table := DefaultOf(routes[i])] else before
      ensures Serves(after, routes[..i + 1], family)
    {
      var more := routes[..i + 1];
      forall k | 0 <= k < i ensures ServedAt(after, more, family, k) {
        assert ServedAt(before, routes[..i], family, k);
        if !WantsTable(more[k + 1..], family, routes[k].table) {
          LaterRoutes(routes, family, i, k);
        }
      }
    }

    /** A table that none of the later routes wants is not wanted by the next one either. */
    static lemma LaterRoutes(routes: seq<Route>, family: Family, i: nat, k: nat)
      requires k < i < |routes| && !WantsTable(routes[..i + 1][k + 1..], family, routes[k].table)
      ensures !WantsTable(routes[..i][k + 1..], family, routes[k].table)
      ensures routes[i].family == family ==> routes[i].table != routes[k].table
    {
      var later := routes[..i + 1][k + 1..];
      assert later == routes[..i][k + 1..] + [routes[i]];
      assert routes[i] in later;
    }

    /** The rules of a family that fail the listing are left alone. */
    method ApplyFamily(host: Host, routes: seq<Route>, family: Family) returns (listed: bool, ok: bool)
      requires host.Untouched()
      modifies host
      ensures Careful(host, routes, family) && Sparing(host, old(host.rules), routes, family)
      ensures host.faults >= old(host.faults) && (listed && ok <==> host.faults == old(host.faults))
      ensures Frame(host, old(host.defaults), routes, family) && FlushedUnused(host, routes, family)
      ensures old(Exact(host, routes, family)) && host.misspelled == {} ==> host.deleted == {} && host.flushed == {}
      ensures old(Exact(host, routes, family)) && host.misspelled == {} && (forall rule | Wants(routes, family, rule) :: Owns(rule.priority)) ==>
        host.added == {}
      ensures listed && ok ==> forall table | table in host.flushed :: table !in host.defaults
      ensures forall rule | rule in old(host.rules) && !Owns(rule.priority) :: rule in host.rules
      ensures forall rule | rule in host.rules :: rule in old(host.rules) || Wants(routes, family, rule)
      ensures listed && ok ==> Exact(host, routes, family)
    {
      var shown;
      listed, shown := host.List();
      ok := listed;
      if !listed { return; }
      var wanted, tables := Wanted(routes, family);
      var present;
      ok, present := Clear(host, shown, wanted, tables, routes, family);
      var done := Install(host, routes, family, present);
      ok := ok && done;
      if old(Exact(host, routes, family)) && host.misspelled == {} {
        assert forall rule | rule in host.deleted :: rule in old(host.rules) && Owns(rule.priority) && Wants(routes, family, rule);
      }
    }

    /** A wanted rule that was there and listed as spelled was neither deleted nor added. */
    ghost predicate Sparing(host: Host, before: set<Rule>, routes: seq<Route>, family: Family)
      reads host
    {
      && (forall rule | rule in host.added :: Wants(routes, family, rule))
      && (forall rule | rule in before && Wants(routes, family, rule) && Owns(rule.priority) && rule !in host.misspelled ::
        rule !in host.added && rule !in host.deleted)
    }

    /** With every deleted rule its table was flushed, when it is an owned one that no route uses. */
    ghost predicate FlushedUnused(host: Host, routes: seq<Route>, family: Family)
      reads host
    {
      forall rule | rule in host.deleted && rule.table.Number? && Owns(rule.table.n) && !WantsTable(routes, family, rule.table.n) ::
        rule.table.n in host.flushed
    }

    /** No other tables were touched than those that were flushed and those of the routes. */
    ghost predicate Frame(host: Host, before: map<nat, Default>, routes: seq<Route>, family: Family)
      reads host
    {
      forall table | table !in host.flushed && !WantsTable(routes, family, table) :: SameAt(before, host.defaults, table)
    }

    /** The owned rules are exactly the wanted ones, every wanted rule is there, and the tables serve the routes. */
    ghost predicate Exact(host: Host, routes: seq<Route>, family: Family)
      reads host
    {
      && (forall rule: Rule | Owns(rule.priority) :: rule in host.rules <==> Wants(routes, family, rule))
      && (forall rule | Wants(routes, family, rule) :: rule in host.rules)
      && Serves(host.defaults, routes, family)
    }

    /** After a run without a failure the Agent's rules do what SourceLeadsOut and PeerLeadsOut say. */
    lemma ExactIsInPlace(host: Host, routes: seq<Route>, family: Family)
      requires Exact(host, routes, family) && forall rule | Wants(routes, family, rule) :: Owns(rule.priority)
      ensures InPlace((set rule | rule in host.rules && Owns(rule.priority)), host.defaults, routes, family)
    {
    }

    /** Both families; a failed command is remembered and the rest still runs, a failed listing ends the run. */
    method Apply(host4: Host, host6: Host, routes: seq<Route>) returns (ok: bool)
      requires host4 != host6
      requires host4.Untouched() && host6.Untouched()
      modifies host4, host6
      ensures Careful(host4, routes, V4) && Careful(host6, routes, V6)
      ensures Sparing(host4, old(host4.rules), routes, V4) && Sparing(host6, old(host6.rules), routes, V6)
      ensures Frame(host4, old(host4.defaults), routes, V4) && Frame(host6, old(host6.defaults), routes, V6)
      ensures FlushedUnused(host4, routes, V4) && FlushedUnused(host6, routes, V6)
      ensures ok <==> host4.faults == old(host4.faults) && host6.faults == old(host6.faults)
      ensures ok ==> Exact(host4, routes, V4) && Exact(host6, routes, V6)
      ensures forall rule | rule in old(host4.rules) && !Owns(rule.priority) :: rule in host4.rules
      ensures forall rule | rule in old(host6.rules) && !Owns(rule.priority) :: rule in host6.rules
    {
      var listed, ok4 := ApplyFamily(host4, routes, V4);
      if !listed { return false; }
      var ok6;
      listed, ok6 := ApplyFamily(host6, routes, V6);
      ok := listed && ok4 && ok6;
    }
  }
}
