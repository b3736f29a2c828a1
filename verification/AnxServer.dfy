/**
  The accepting ANX-Line ends (anxserver/manager.go): one child process is driven over
  RPCs until it admits exactly the wanted links, holds exactly the links they relay into,
  routes each of them there and keeps exactly the wanted reverse dials.

  An RPC that fails may or may not have taken effect.  A user id is derived from its user
  key (contracts/anx mgmt.proto), so the key stands for the id.
*/
module AnxServer {

  type LinkId = nat
  type Key = nat

  datatype Link = Link(id: LinkId, settings: nat)

  datatype Next = Egress | Relay(link: Link)

  datatype Dial = NoDial | Dial(id: nat, addr: nat, key: Key, jacket: nat)

  /** One accepted transport: its link, the link it is relayed into, its reverse dial. */
  datatype Accept = Accept(link: LinkId, key: Key, next: Next, dial: Dial)

  ghost predicate DistinctLinks(wanted: seq<Accept>) {
    forall i, j | 0 <= i < j < |wanted| :: wanted[i].link != wanted[j].link
  }

  ghost predicate DistinctKeys(wanted: seq<Accept>) {
    forall i, j | 0 <= i < j < |wanted| :: wanted[i].key != wanted[j].key
  }

  /** The links of a list of accepts with their keys; a later accept wins. */
  function Links(wanted: seq<Accept>): map<LinkId, Key> {
    if wanted == [] then map[] else Links(Init(wanted))[Last(wanted).link := Last(wanted).key]
  }

  /** The links relayed into; the first accept that names one gives its settings. */
  function NextLinks(wanted: seq<Accept>): map<LinkId, Link> {
    if wanted == [] then map[]
    else
      var m := NextLinks(Init(wanted));
      match Last(wanted).next
      case Egress => m
      case Relay(link) => if link.id in m then m else m[link.id := link]
  }

  /** The route table: user to the link it is relayed into. */
  function NextRoutes(wanted: seq<Accept>): map<Key, LinkId> {
    if wanted == [] then map[]
    else
      var m := NextRoutes(Init(wanted));
      match Last(wanted).next
      case Egress => m
      case Relay(link) => m[Last(wanted).key := link.id]
  }

  function Keys(wanted: seq<Accept>): set<Key> {
    set a | a in wanted :: a.key
  }

  function Dials(wanted: seq<Accept>): set<Dial> {
    set a | a in wanted && a.dial.Dial? :: a.dial
  }

  function Init<T>(s: seq<T>): seq<T>
    requires s != []
  {
    s[..|s| - 1]
  }

  function Last<T>(s: seq<T>): T
    requires s != []
  {
    s[|s| - 1]
  }

  /** Every route of the table leads into a link that is relayed into. */
  lemma {:induction false} RoutesLeadIntoLinks(wanted: seq<Accept>)
    ensures NextRoutes(wanted).Values <= NextLinks(wanted).Keys
  {
    if wanted != [] { RoutesLeadIntoLinks(Init(wanted)); }
  }

  /** For distinct keys the table is exactly the relaying accepts. */
  lemma {:induction false} RoutesAreTheRelays(wanted: seq<Accept>, key: Key, link: LinkId)
    requires DistinctKeys(wanted)
    ensures (key in NextRoutes(wanted) && NextRoutes(wanted)[key] == link) <==>
      (exists i | 0 <= i < |wanted| :: wanted[i].key == key && wanted[i].next.Relay? && wanted[i].next.link.id == link)
  {
    if wanted != [] {
      var before := Init(wanted);
      RoutesAreTheRelays(before, key, link);
      RoutesOf(before, key);
      assert forall i | 0 <= i < |before| :: wanted[i] == before[i];
      if wanted[|wanted| - 1].key == key {
        assert forall i | 0 <= i < |before| :: wanted[i].key != key;
      }
    }
  }

  /** Where a link is first relayed into. */
  ghost predicate FirstRelay(wanted: seq<Accept>, i: nat, id: LinkId) {
    && i < |wanted| && wanted[i].next.Relay? && wanted[i].next.link.id == id
    && forall j | 0 <= j < i && wanted[j].next.Relay? :: wanted[j].next.link.id != id
  }

  /** The held links are those that are relayed into, each as the first accept that names it has it. */
  lemma {:induction false} HeldAreTheRelays(wanted: seq<Accept>, id: LinkId)
    ensures id in NextLinks(wanted) <==> exists i | 0 <= i < |wanted| :: wanted[i].next.Relay? && wanted[i].next.link.id == id
    ensures forall i: nat | FirstRelay(wanted, i, id) :: id in NextLinks(wanted) && NextLinks(wanted)[id] == wanted[i].next.link
  {
    if wanted != [] {
      var before := Init(wanted);
      HeldAreTheRelays(before, id);
      assert forall i | 0 <= i < |before| :: wanted[i] == before[i];
      if id in NextLinks(before) {
        var k :| 0 <= k < |before| && before[k].next.Relay? && before[k].next.link.id == id;
        assert wanted[k].next.link.id == id;
        forall i: nat | FirstRelay(wanted, i, id) ensures NextLinks(wanted)[id] == wanted[i].next.link {
          assert FirstRelay(before, i, id);
        }
      }
    }
  }

  /** For any keys: the last accept of a key that is relayed decides its route. */
  lemma {:induction false} LastRelayDecides(wanted: seq<Accept>, key: Key)
    ensures key in NextRoutes(wanted) <==> exists i | 0 <= i < |wanted| :: wanted[i].next.Relay? && wanted[i].key == key
    ensures forall i: nat | i < |wanted| && wanted[i].next.Relay? && wanted[i].key == key
      && (forall j | i < j < |wanted| && wanted[j].next.Relay? :: wanted[j].key != key) ::
      key in NextRoutes(wanted) && NextRoutes(wanted)[key] == wanted[i].next.link.id
  {
    if wanted != [] {
      var before := Init(wanted);
      LastRelayDecides(before, key);
      assert forall i | 0 <= i < |before| :: wanted[i] == before[i];
      if key in NextRoutes(before) {
        var k :| 0 <= k < |before| && before[k].next.Relay? && before[k].key == key;
        assert wanted[k].key == key;
      }
    }
  }

  lemma {:induction false} RoutesOf(wanted: seq<Accept>, key: Key)
    ensures key in NextRoutes(wanted) ==> exists i | 0 <= i < |wanted| :: wanted[i].key == key
  {
    if wanted != [] && key in NextRoutes(wanted) && Last(wanted).key != key {
      RoutesOf(Init(wanted), key);
      var i :| 0 <= i < |wanted| - 1 && Init(wanted)[i].key == key;
      assert wanted[i].key == key;
    }
  }

  lemma {:induction false} LinksOf(wanted: seq<Accept>)
    requires DistinctLinks(wanted)
    ensures forall a | a in wanted :: a.link in Links(wanted) && Links(wanted)[a.link] == a.key
    ensures forall l | l in Links(wanted) :: exists a | a in wanted :: a.link == l && a.key == Links(wanted)[l]
  {
    if wanted != [] {
      var before := Init(wanted);
      assert forall i | 0 <= i < |before| :: wanted[i] == before[i];
      LinksOf(before);
      assert wanted == before + [Last(wanted)];
      assert forall a | a in before :: a.link != Last(wanted).link;
      forall l | l in Links(wanted) ensures exists a | a in wanted :: a.link == l && a.key == Links(wanted)[l] {
        if l == Last(wanted).link {
          assert Last(wanted) in wanted;
        } else {
          var a :| a in before && a.link == l && a.key == Links(before)[l];
          assert a in wanted;
        }
      }
    }
  }

  /** The held links that are not wanted, or wanted with other settings. */
  function Gone(have: map<LinkId, Link>, want: map<LinkId, Link>): set<LinkId> {
    set id | id in have && !(id in want && want[id] == have[id])
  }

  function New(have: map<LinkId, Link>, want: map<LinkId, Link>): map<LinkId, Link> {
    map id | id in want && !(id in have && have[id] == want[id]) :: want[id]
  }

  /** Removing what is gone and adding what is new gives the wanted links. */
  lemma Rebuilt(have: map<LinkId, Link>, want: map<LinkId, Link>)
    ensures have - Gone(have, want) + New(have, want) == want
    ensures New(have, want) == map[] ==> have - Gone(have, want) == want
    ensures New(have, want) == map[] && Gone(have, want) == {} ==> have == want
  {
    var rest := have - Gone(have, want);
    assert forall id | id in rest :: id in want && want[id] == rest[id];
    assert forall id | id in want :: id in New(have, want) || (id in rest && rest[id] == want[id]);
    if New(have, want) == map[] {
      assert rest == want;
      assert Gone(have, want) == {} ==> rest == have;
    }
  }

  predicate Have(current: map<LinkId, Key>, a: Accept) {
    a.link in current && current[a.link] == a.key
  }

  /** The links that stay, by a round of admit over `current`. */
  function Kept(current: map<LinkId, Key>, wanted: seq<Accept>): set<LinkId> {
    set a | a in wanted && Have(current, a) :: a.link
  }

  function Dropped(current: map<LinkId, Key>, wanted: seq<Accept>): set<Key> {
    set l | l in current.Keys - Kept(current, wanted) :: current[l]
  }

  function Added(current: map<LinkId, Key>, wanted: seq<Accept>): set<Key> {
    set a | a in wanted && !Have(current, a) :: a.key
  }

  /** The users a process has after it removed the dropped ones and then added the new ones. */
  function Admitted(users: set<Key>, current: map<LinkId, Key>, wanted: seq<Accept>): set<Key> {
    users - Dropped(current, wanted) + Added(current, wanted)
  }

  /** No link that stays shares its key with one that goes, unless a new link brings the key back. */
  ghost predicate NoSharedKey(current: map<LinkId, Key>, wanted: seq<Accept>) {
    forall a | a in wanted && Have(current, a) :: a.key in Dropped(current, wanted) ==> a.key in Added(current, wanted)
  }

  /** From a process that holds the tracked users, a round leaves exactly the wanted ones iff no key is shared so. */
  lemma AdmittedIsExact(current: map<LinkId, Key>, wanted: seq<Accept>)
    ensures Admitted(current.Values, current, wanted) == Keys(wanted) <==> NoSharedKey(current, wanted)
  {
    var users := Admitted(current.Values, current, wanted);
    forall k | k in users && k !in Added(current, wanted) ensures k in Keys(wanted) {
      var l :| l in current && current[l] == k;
      assert l in Kept(current, wanted);
    }
    if NoSharedKey(current, wanted) {
      forall a | a in wanted ensures a.key in users {
        if Have(current, a) { assert current[a.link] in current.Values; } else { assert a.key in Added(current, wanted); }
      }
    } else {
      var a :| a in wanted && Have(current, a) && a.key in Dropped(current, wanted) && a.key !in Added(current, wanted);
      assert a.key in Keys(wanted) && a.key !in users;
    }
  }

  ghost predicate Injective(current: map<LinkId, Key>) {
    forall l, m | l in current && m in current && l != m :: current[l] != current[m]
  }

  /** Distinct tracked keys rule the failure out. */
  lemma DistinctKeysAreNotShared(current: map<LinkId, Key>, wanted: seq<Accept>)
    requires Injective(current)
    ensures NoSharedKey(current, wanted)
  {
    forall a | a in wanted && Have(current, a) ensures a.key !in Dropped(current, wanted) {
      assert a.link in Kept(current, wanted);
      assert forall l | l in current.Keys - Kept(current, wanted) :: current[l] != a.key;
    }
  }

  /** Two links with one key: taking the second away takes the first one's user away too. */
  lemma SharedKeyLosesAUser()
    ensures var one, two := Accept(1, 7, Egress, NoDial), Accept(2, 7, Egress, NoDial);
      Links([one, two]) == map[1 := 7, 2 := 7] && Admitted(Links([one, two]).Values, Links([one, two]), [one]) == {} != Keys([one])
  {
    var one, two := Accept(1, 7, Egress, NoDial), Accept(2, 7, Egress, NoDial);
    assert Init([one, two]) == [one] && Init([one]) == [];
    var current := map[1 := 7, 2 := 7];
    assert Links([one]) == Links([])[1 := 7] && Links([one, two]) == Links([one])[2 := 7];
    assert Kept(current, [one]) == {1} by { assert one in [one] && Have(current, one); }
    assert 2 in current.Keys - Kept(current, [one]) && current[2] == 7;
    assert Added(current, [one]) == {};
    assert one.key in Keys([one]);
  }

  lemma AddedIsNotKept(current: map<LinkId, Key>, wanted: seq<Accept>, a: Accept)
    requires DistinctLinks(wanted) && a in wanted && !Have(current, a)
    ensures a.link !in Kept(current, wanted)
  {
    forall b | b in wanted && b.link == a.link ensures b == a {
    }
  }

  /** What tracked links become: the wanted ones. */
  lemma KeptAndAddedAreWanted(current: map<LinkId, Key>, wanted: seq<Accept>, next: map<LinkId, Key>)
    requires DistinctLinks(wanted)
    requires forall a | a in wanted && !Have(current, a) :: Have(next, a)
    requires forall l | l in Kept(current, wanted) :: l in next && (l in current && next[l] == current[l])
    requires forall l | l in next :: l in Kept(current, wanted) || (exists a | a in wanted :: a.link == l)
    ensures next == Links(wanted)
  {
    LinksOf(wanted);
    forall a | a in wanted ensures Have(next, a) {
      if Have(current, a) { assert a.link in Kept(current, wanted); }
    }
    forall l | l in next ensures l in Links(wanted) && next[l] == Links(wanted)[l] {
      var a :| a in wanted && a.link == l;
      assert Have(next, a);
    }
    forall l | l in Links(wanted) ensures l in next {
      var a :| a in wanted && a.link == l && a.key == Links(wanted)[l];
      assert Have(next, a);
    }
  }

  lemma ValuesOf(wanted: seq<Accept>)
    requires DistinctLinks(wanted)
    ensures Links(wanted).Values == Keys(wanted)
  {
    LinksOf(wanted);
    forall a | a in wanted ensures a.key in Links(wanted).Values {
      assert Links(wanted)[a.link] == a.key;
    }
  }

  /** Over the wanted record everything stays and nothing is new. */
  lemma NothingNew(wanted: seq<Accept>)
    requires DistinctLinks(wanted)
    ensures Kept(Links(wanted), wanted) == Links(wanted).Keys && forall a | a in wanted :: Have(Links(wanted), a)
  {
    LinksOf(wanted);
    forall l | l in Links(wanted) ensures l in Kept(Links(wanted), wanted) {
      var a :| a in wanted && a.link == l && a.key == Links(wanted)[l];
      assert Have(Links(wanted), a);
    }
  }

  lemma DistinctKeysAreInjective(wanted: seq<Accept>)
    requires DistinctLinks(wanted) && DistinctKeys(wanted)
    ensures Injective(Links(wanted))
  {
    LinksOf(wanted);
    forall l, m | l in Links(wanted) && m in Links(wanted) && l != m ensures Links(wanted)[l] != Links(wanted)[m] {
      var i :| 0 <= i < |wanted| && wanted[i].link == l && wanted[i].key == Links(wanted)[l];
      var j :| 0 <= j < |wanted| && wanted[j].link == m && wanted[j].key == Links(wanted)[m];
    }
  }

  /** The child process behind its management endpoint. */
  class Process {
    var users: set<Key>
    var links: map<LinkId, Link>
    var routes: map<Key, LinkId>
    var dials: set<Dial>
    /** How many RPCs were made, and how many of them failed. */
    ghost var calls: nat
    ghost var faults: nat

    /** No installed route names a link the process does not hold. */
    ghost predicate Held()
      reads this
    {
      routes.Values <= links.Keys
    }

    constructor ()
      ensures users == {} && links == map[] && routes == map[] && dials == {} && Held() && calls == 0 && faults == 0
    {
      users, links, routes, dials := {}, map[], map[], {};
      calls, faults := 0, 0;
    }

    /** An RPC works, or fails and may have taken effect all the same. */
    method Call() returns (ok: bool, applied: bool)
      modifies this`calls, this`faults
      ensures (ok ==> applied) && calls == old(calls) + 1 && faults == if ok then old(faults) else old(faults) + 1
    {
      ok := *;
      applied := *;
      applied := ok || applied;
      calls := calls + 1;
      if !ok { faults := faults + 1; }
    }

    method RemoveUsers(keys: set<Key>) returns (ok: bool)
      modifies this`users, this`calls, this`faults
      ensures calls == old(calls) + 1 && faults == if ok then old(faults) else old(faults) + 1
      ensures users == old(users) - keys || (!ok && users == old(users))
    {
      var applied;
      ok, applied := Call();
      if applied { users := users - keys; }
    }

    method AddUsers(keys: set<Key>) returns (ok: bool)
      modifies this`users, this`calls, this`faults
      ensures calls == old(calls) + 1 && faults == if ok then old(faults) else old(faults) + 1
      ensures users == old(users) + keys || (!ok && users == old(users))
    {
      var applied;
      ok, applied := Call();
      if applied { users := users + keys; }
    }

    method RemoveLinks(ids: set<LinkId>) returns (ok: bool)
      requires Held() && routes.Values !! ids
      modifies this`links, this`calls, this`faults
      ensures calls == old(calls) + 1 && faults == if ok then old(faults) else old(faults) + 1
      ensures Held() && (links == old(links) - ids || (!ok && links == old(links)))
    {
      var applied;
      ok, applied := Call();
      if applied { links := links - ids; }
    }

    method AddLinks(add: map<LinkId, Link>) returns (ok: bool)
      requires Held()
      modifies this`links, this`calls, this`faults
      ensures calls == old(calls) + 1 && faults == if ok then old(faults) else old(faults) + 1
      ensures Held() && (links == old(links) + add || (!ok && links == old(links)))
    {
      var applied;
      ok, applied := Call();
      if applied { links := links + add; }
    }

    method SetLinkRoutes(table: map<Key, LinkId>) returns (ok: bool)
      requires Held() && table.Values <= links.Keys
      modifies this`routes, this`calls, this`faults
      ensures calls == old(calls) + 1 && faults == if ok then old(faults) else old(faults) + 1
      ensures Held() && (routes == table || (!ok && routes == old(routes)))
    {
      var applied;
      ok, applied := Call();
      if applied { routes := table; }
    }

    method SetReverseDials(next: set<Dial>) returns (ok: bool)
      modifies this`dials, this`calls, this`faults
      ensures calls == old(calls) + 1 && faults == if ok then old(faults) else old(faults) + 1
      ensures dials == next || (!ok && dials == old(dials))
    {
      var applied;
      ok, applied := Call();
      if applied { dials := next; }
    }
  }

  /** One supervised process: what serve tracks of it. */
  class Server {
    const process: Process
    var current: map<LinkId, Key>
    var links: map<LinkId, Link>
    var routes: map<Key, LinkId>
    var routesSet: bool
    var dials: set<Dial>

    /** What is tracked of links, routes and dials is what the process has. */
    ghost predicate TracksRelay()
      reads this, process
    {
      && process.Held()
      && process.links == links && process.dials == dials
      && process.routes == if routesSet then routes else map[]
    }

    ghost predicate Tracked()
      reads this, process
    {
      process.users == current.Values && TracksRelay()
    }

    constructor (process: Process)
      requires process.users == {} && process.links == map[] && process.routes == map[] && process.dials == {}
      ensures Tracked() && this.process == process
    {
      this.process := process;
      current, links, routes, routesSet, dials := map[], map[], map[], false, {};
    }

    /** The record says that the wanted set is in place. */
    ghost predicate Holds(wanted: seq<Accept>)
      reads this
    {
      && current == Links(wanted) && dials == Dials(wanted)
      && links == NextLinks(wanted) && routes == NextRoutes(wanted) && (routesSet || routes == map[])
    }

    /** The first loop of admit: which links stay and which accepts are new. */
    method Compare(wanted: seq<Accept>) returns (keep: set<LinkId>, add: seq<Accept>)
      ensures keep == Kept(current, wanted)
      ensures Keys(add) == Added(current, wanted)
      ensures forall a :: a in add <==> a in wanted && !Have(current, a)
    {
      keep, add := {}, [];
      for i := 0 to |wanted|
        invariant keep == Kept(current, wanted[..i])
        invariant forall a :: a in add <==> a in wanted[..i] && !Have(current, a)
      {
        assert wanted[..i + 1] == wanted[..i] + [wanted[i]];
        if Have(current, wanted[i]) { keep := keep + {wanted[i].link}; } else { add := add + [wanted[i]]; }
      }
      assert wanted[..|wanted|] == wanted;
    }

    /** Takes the links that do not stay out of the process, then out of the record. */
    method RemoveStale(wanted: seq<Accept>, keep: set<LinkId>) returns (ok: bool)
      requires keep == Kept(current, wanted)
      modifies this`current, process`users, process`calls, process`faults
      ensures process.faults >= old(process.faults) && (!ok ==> process.faults > old(process.faults))
      ensures Kept(old(current), wanted) == old(current).Keys ==> ok && process.calls == old(process.calls)
      ensures old(process.calls) <= process.calls <= old(process.calls) + 1 && (old(current) == map[] ==> ok && process.faults == old(process.faults))
      ensures ok ==> process.users == old(process.users) - Dropped(old(current), wanted)
      ensures ok ==> forall l :: l in current <==> l in keep
      ensures ok ==> forall l | l in current :: l in old(current) && current[l] == old(current)[l]
    {
      var stale := current.Keys - keep;
      if stale == {} {
        assert forall l | l in current :: l in stale || l in keep;
        assert Dropped(current, wanted) == {};
        return true;
      }
      ok := process.RemoveUsers(set l | l in stale :: current[l]);
      if ok { current := current - stale; }
    }

    /** AddUsers is tried again while the process does not answer yet; adding a user twice adds it once. */
    method AddWithRetry(keys: set<Key>, patience: nat) returns (ok: bool)
      modifies process`users, process`calls, process`faults
      ensures ok ==> process.users == old(process.users) + keys
      ensures process.faults >= old(process.faults) && (!ok ==> process.faults == old(process.faults) + patience + 1)
      ensures old(process.calls) < process.calls <= old(process.calls) + patience + 1
    {
      var left := patience;
      while true
        invariant 0 <= left <= patience && process.faults == old(process.faults) + patience - left
        invariant process.calls == old(process.calls) + patience - left
        invariant process.users == old(process.users) || process.users == old(process.users) + keys
        decreases left
      {
        ok := process.AddUsers(keys);
        if ok || left == 0 { return; }
        left := left - 1;
      }
    }

    /** Notes the added accepts; none of them takes the place of a link that stays. */
    method RecordAdded(add: seq<Accept>, ghost wanted: seq<Accept>, ghost before: map<LinkId, Key>)
      requires DistinctLinks(wanted) && (forall a | a in add :: a in wanted && !Have(before, a))
      requires forall l :: l in current <==> l in Kept(before, wanted)
      requires forall l | l in current :: l in before && current[l] == before[l]
      modifies this`current
      ensures forall a | a in add :: Have(current, a)
      ensures forall l | l in Kept(before, wanted) :: l in current && (l in before && current[l] == before[l])
      ensures forall l | l in current :: l in Kept(before, wanted) || (exists a | a in wanted :: a.link == l)
    {
      for i := 0 to |add|
        invariant forall k | 0 <= k < i :: Have(current, add[k])
        invariant forall l | l in Kept(before, wanted) :: l in current && (l in before && current[l] == before[l])
        invariant forall l | l in current :: l in Kept(before, wanted) || (exists a | a in wanted :: a.link == l)
      {
        assert add[i] in add;
        AddedIsNotKept(before, wanted, add[i]);
        forall k | 0 <= k < i ensures add[k].link != add[i].link || add[k] == add[i] {
          assert add[k] in add;
        }
        current := current[add[i].link := add[i].key];
      }
    }

    /** Makes the process admit exactly the wanted links; the first call retries until the process answers. */
    method Admit(wanted: seq<Accept>, first: bool, patience: nat) returns (ok: bool)
      requires TracksRelay() && DistinctLinks(wanted)
      modifies this`current, process`users, process`calls, process`faults
      ensures TracksRelay()
      ensures process.faults >= old(process.faults) && (!ok ==> process.faults > old(process.faults))
      ensures old(current) == Links(wanted) && !first ==> ok && process.calls == old(process.calls)
      // Only the first round is tried again, and it always waits for the process to answer.
      ensures process.calls >= old(process.calls) && (!first ==> process.calls <= old(process.calls) + 2)
      ensures first && ok ==> process.calls > old(process.calls)
      ensures first && !ok && old(current) == map[] ==> process.faults == old(process.faults) + patience + 1
      ensures ok ==> current == Links(wanted)
      ensures ok ==> process.users == Admitted(old(process.users), old(current), wanted)
    {
      var before := current;
      NothingNew(wanted);
      var keep, add := Compare(wanted);
      assert current == Links(wanted) ==> add == [] by {
        if add != [] { assert add[0] in add; }
      }
      ok := RemoveStale(wanted, keep);
      if !ok { return; }
      if add == [] && !first {
        assert Keys(add) == {};
        KeptAndAddedAreWanted(before, wanted, current);
        return true;
      }
      ok := AddWithRetry(Keys(add), if first then patience else 0);
      if !ok { return; }
      RecordAdded(add, wanted, before);
      KeptAndAddedAreWanted(before, wanted, current);
    }

    /** The first loop of relay: the links to hold and the route table; fails on a link that is not admitted. */
    method PlanRelay(wanted: seq<Accept>) returns (ok: bool, links': map<LinkId, Link>, routes': map<Key, LinkId>)
      requires DistinctLinks(wanted)
      ensures ok ==> links' == NextLinks(wanted)
      ensures ok && current == Links(wanted) ==> routes' == NextRoutes(wanted)
      ensures current == Links(wanted) ==> ok
    {
      LinksOf(wanted);
      links', routes', ok := map[], map[], true;
      for i := 0 to |wanted|
        invariant links' == NextLinks(wanted[..i])
        invariant current == Links(wanted) ==> routes' == NextRoutes(wanted[..i])
      {
        assert Init(wanted[..i + 1]) == wanted[..i] && Last(wanted[..i + 1]) == wanted[i];
        var a := wanted[i];
        if a.next.Relay? {
          if a.next.link.id !in links' { links' := links'[a.next.link.id := a.next.link]; }
          assert a in wanted;
          if a.link !in current { return false, links', routes'; }
          routes' := routes'[current[a.link] := a.next.link.id];
        }
      }
      assert wanted[..|wanted|] == wanted;
    }

    /**
      Makes the process hold exactly the links the wanted accepts relay into and route each
      such accept there.  Routes are cleared before a link goes and set after the links came.
    */
    method RelayLinks(wanted: seq<Accept>) returns (ok: bool)
      requires TracksRelay() && DistinctLinks(wanted) && current == Links(wanted)
      modifies this`links, this`routes, this`routesSet, process`links, process`routes, process`calls, process`faults
      ensures process.Held()
      ensures process.faults >= old(process.faults) && (!ok ==> process.faults > old(process.faults))
      ensures process.calls >= old(process.calls)
      ensures old(links) == NextLinks(wanted) && old(routes) == NextRoutes(wanted) && (old(routesSet) || old(routes) == map[]) ==>
        ok && process.calls == old(process.calls)
      ensures ok ==> TracksRelay() && process.links == NextLinks(wanted) && process.routes == NextRoutes(wanted)
    {
      RoutesLeadIntoLinks(wanted);
      var _, links', routes' := PlanRelay(wanted);
      Rebuilt(links, links');
      var remove, add := Gone(links, links'), New(links, links');
      if remove == {} && add == map[] && routes' == routes && (routesSet || routes' == map[]) { return true; }
      ok := ClearAndRemove(remove);
      if !ok { return; }
      if add != map[] {
        ok := process.AddLinks(add);
        if !ok { return; }
        links := links + add;
      }
      ok := process.SetLinkRoutes(routes');
      if ok { routes, routesSet := routes', true; }
    }

    /** No route may name a link that goes: the table is cleared first. */
    method ClearAndRemove(remove: set<LinkId>) returns (ok: bool)
      requires TracksRelay()
      modifies this`links, this`routesSet, process`links, process`routes, process`calls, process`faults
      ensures process.Held()
      ensures process.faults >= old(process.faults) && (!ok ==> process.faults > old(process.faults))
      ensures process.calls >= old(process.calls)
      ensures ok ==> TracksRelay() && links == old(links) - remove
    {
      if remove == {} {
        assert links - remove == links;
        return true;
      }
      ok := process.SetLinkRoutes(map[]);
      if !ok { return; }
      routesSet := false;
      ok := process.RemoveLinks(remove);
      if ok { links := links - remove; }
    }

    /** Makes the process keep exactly the wanted reverse dials. */
    method DialBack(wanted: seq<Accept>) returns (ok: bool)
      requires process.dials == dials
      modifies this`dials, process`dials, process`calls, process`faults
      ensures process.faults >= old(process.faults) && (!ok ==> process.faults > old(process.faults))
      ensures process.calls >= old(process.calls)
      ensures old(dials) == Dials(wanted) ==> ok && process.calls == old(process.calls)
      ensures ok ==> process.dials == dials == Dials(wanted)
    {
      var next := {};
      for i := 0 to |wanted|
        invariant next == Dials(wanted[..i])
      {
        assert wanted[..i + 1] == wanted[..i] + [wanted[i]];
        if wanted[i].dial.Dial? { next := next + {wanted[i].dial}; }
      }
      assert wanted[..|wanted|] == wanted;
      if next == dials { return true; }
      ok := process.SetReverseDials(next);
      if ok { dials := next; }
    }

    /**
      One round of the serve loop.  Without an error the process holds exactly the wanted
      links, routes and dials, from any earlier tracked state, and exactly the wanted users iff
      no link that stays shares its key with one that goes.  Failing or not, at every RPC no
      route names a link the process does not hold (Process.Held guards each of them).
    */
    method Round(wanted: seq<Accept>, first: bool, patience: nat) returns (ok: bool)
      requires TracksRelay() && DistinctLinks(wanted)
      modifies this, process
      ensures process.Held()
      ensures process.faults >= old(process.faults) && (!ok ==> process.faults > old(process.faults))
      ensures old(Holds(wanted)) && !first ==> ok && process.calls == old(process.calls)
      ensures process.calls >= old(process.calls) && (first && ok ==> process.calls > old(process.calls))
      ensures ok ==> TracksRelay() && current == Links(wanted) && process.dials == Dials(wanted)
      ensures ok ==> process.links == NextLinks(wanted) && process.routes == NextRoutes(wanted)
      ensures ok ==> process.users == Admitted(old(process.users), old(current), wanted)
      ensures ok && old(Tracked()) ==> (process.users == Keys(wanted) <==> NoSharedKey(old(current), wanted))
    {
      AdmittedIsExact(current, wanted);
      ValuesOf(wanted);
      ok := Admit(wanted, first, patience);
      if !ok { return; }
      ok := RelayLinks(wanted);
      if !ok { return; }
      ok := DialBack(wanted);
    }

    /**
      serve: rounds over a fresh process as the wanted set changes, until one fails. Links, routes
      and dials are exact after every round; the users are exact if and only if every removed key
      that is still wanted was added again.
    */
    method Serve(wants: seq<seq<Accept>>, patience: nat) returns (served: nat)
      requires Tracked() && current == map[] && process.links == map[] && process.routes == map[] && process.dials == {}
      requires forall i | 0 <= i < |wants| :: DistinctLinks(wants[i])
      modifies this, process
      ensures served <= |wants| && process.Held()
      ensures served < |wants| ==> process.faults > old(process.faults)
      ensures served > 0 ==> process.calls > old(process.calls)
      ensures served == |wants| ==> process.users == UsersAfter(wants, served)
      ensures served == |wants| > 0 ==> (process.users == Keys(wants[served - 1]) <==> AllBroughtBack(wants, served))
      ensures served == |wants| > 0 ==>
        && process.dials == Dials(wants[served - 1])
        && process.links == NextLinks(wants[served - 1]) && process.routes == NextRoutes(wants[served - 1])
    {
      served := 0;
      while served < |wants|
        invariant served <= |wants| && TracksRelay() && process.faults >= old(process.faults)
        invariant process.calls >= old(process.calls) && (served > 0 ==> process.calls > old(process.calls))
        invariant current == CurrentAt(wants, served) && process.users == UsersAfter(wants, served)
        invariant served > 0 ==>
          && process.dials == Dials(wants[served - 1])
          && process.links == NextLinks(wants[served - 1]) && process.routes == NextRoutes(wants[served - 1])
      {
        var ok := Round(wants[served], served == 0, patience);
        if !ok { return; }
        served := served + 1;
      }
      if served > 0 { UsersAreExactAgain(wants, served); }
    }
  }

  /** The record before the n-th round. */
  ghost function CurrentAt(wants: seq<seq<Accept>>, n: nat): map<LinkId, Key>
    requires n <= |wants|
  {
    if n == 0 then map[] else Links(wants[n - 1])
  }

  /** The users of a fresh process after n rounds. */
  ghost function UsersAfter(wants: seq<seq<Accept>>, n: nat): set<Key>
    requires n <= |wants|
  {
    if n == 0 then {} else Admitted(UsersAfter(wants, n - 1), CurrentAt(wants, n - 1), wants[n - 1])
  }

  /** No round removes a key that a link which stays still needs. */
  ghost predicate NeverShares(wants: seq<seq<Accept>>, n: nat)
    requires n <= |wants|
  {
    forall i | 0 <= i < n :: NoSharedKey(CurrentAt(wants, i), wants[i])
  }

  lemma NextRound(wants: seq<seq<Accept>>, n: nat)
    requires n < |wants| && DistinctLinks(wants[n]) && UsersAfter(wants, n) == CurrentAt(wants, n).Values
    ensures UsersAfter(wants, n + 1) == Keys(wants[n]) <==> NoSharedKey(CurrentAt(wants, n), wants[n])
    ensures CurrentAt(wants, n + 1).Values == Keys(wants[n])
  {
    AdmittedIsExact(CurrentAt(wants, n), wants[n]);
    ValuesOf(wants[n]);
  }

  /** Up to the first round that removes a shared key the users are exactly the wanted ones, and after that round not. */
  lemma {:induction false} UsersAreExact(wants: seq<seq<Accept>>, n: nat)
    requires n < |wants| && forall i | 0 <= i < |wants| :: DistinctLinks(wants[i])
    requires NeverShares(wants, n)
    ensures UsersAfter(wants, n) == CurrentAt(wants, n).Values
    ensures UsersAfter(wants, n + 1) == Keys(wants[n]) <==> NoSharedKey(CurrentAt(wants, n), wants[n])
  {
    if n > 0 {
      UsersAreExact(wants, n - 1);
      NextRound(wants, n - 1);
      assert NoSharedKey(CurrentAt(wants, n - 1), wants[n - 1]);
    }
    NextRound(wants, n);
  }

  /** Round i removes the key. */
  ghost predicate DropsAt(wants: seq<seq<Accept>>, i: nat, key: Key)
    requires i < |wants|
  {
    key in Dropped(CurrentAt(wants, i), wants[i])
  }

  /** Round i adds the key. */
  ghost predicate AddsAt(wants: seq<seq<Accept>>, i: nat, key: Key)
    requires i < |wants|
  {
    key in Added(CurrentAt(wants, i), wants[i])
  }

  ghost predicate EverAdded(wants: seq<seq<Accept>>, n: nat, key: Key)
    requires n <= |wants|
  {
    exists i | 0 <= i < n :: AddsAt(wants, i, key)
  }

  /** After every round that removed the key, that round or a later one added it. */
  ghost predicate BroughtBack(wants: seq<seq<Accept>>, n: nat, key: Key)
    requires n <= |wants|
  {
    forall j | 0 <= j < n && DropsAt(wants, j, key) :: exists i | j <= i < n :: AddsAt(wants, i, key)
  }

  ghost predicate AllBroughtBack(wants: seq<seq<Accept>>, n: nat)
    requires 0 < n <= |wants|
  {
    forall key | key in Keys(wants[n - 1]) :: BroughtBack(wants, n, key)
  }

  /** A user is there exactly if some round added its key and none removed it since. */
  lemma {:induction false} UserHistory(wants: seq<seq<Accept>>, n: nat, key: Key)
    requires n <= |wants|
    ensures key in UsersAfter(wants, n) <==> EverAdded(wants, n, key) && BroughtBack(wants, n, key)
  {
    if n > 0 {
      UserHistory(wants, n - 1, key);
      if AddsAt(wants, n - 1, key) {
        assert BroughtBack(wants, n, key);
      } else {
        BroughtBackBefore(wants, n, key);
      }
    }
  }

  lemma BroughtBackBefore(wants: seq<seq<Accept>>, n: nat, key: Key)
    requires 0 < n <= |wants| && !AddsAt(wants, n - 1, key)
    ensures EverAdded(wants, n, key) <==> EverAdded(wants, n - 1, key)
    ensures BroughtBack(wants, n, key) <==> BroughtBack(wants, n - 1, key) && !DropsAt(wants, n - 1, key)
  {
    if BroughtBack(wants, n, key) {
      forall j | 0 <= j < n - 1 && DropsAt(wants, j, key) ensures exists i | j <= i < n - 1 :: AddsAt(wants, i, key) {
        var i :| j <= i < n && AddsAt(wants, i, key);
      }
    }
  }

  /** A process has no user but those of the tracked links. */
  lemma {:induction false} NoStrangers(wants: seq<seq<Accept>>, n: nat)
    requires n <= |wants| && forall i | 0 <= i < |wants| :: DistinctLinks(wants[i])
    ensures UsersAfter(wants, n) <= CurrentAt(wants, n).Values
  {
    if n > 0 {
      var current, wanted := CurrentAt(wants, n - 1), wants[n - 1];
      NoStrangers(wants, n - 1);
      ValuesOf(wanted);
      forall key | key in UsersAfter(wants, n) && key !in Added(current, wanted) ensures key in Keys(wanted) {
        var l :| l in current && current[l] == key;
        assert l in Kept(current, wanted);
      }
    }
  }

  lemma {:induction false} TrackedWasAdded(wants: seq<seq<Accept>>, n: nat, key: Key)
    requires n <= |wants| && forall i | 0 <= i < |wants| :: DistinctLinks(wants[i])
    requires key in CurrentAt(wants, n).Values
    ensures EverAdded(wants, n, key)
  {
    ValuesOf(wants[n - 1]);
    var a :| a in wants[n - 1] && a.key == key;
    if Have(CurrentAt(wants, n - 1), a) {
      TrackedWasAdded(wants, n - 1, key);
      var i :| 0 <= i < n - 1 && AddsAt(wants, i, key);
    } else {
      assert AddsAt(wants, n - 1, key);
    }
  }

  /**
    After any round the users are exactly the wanted ones if and only if every wanted key that some
    round removed was added by that round or a later one.
  */
  lemma UsersAreExactAgain(wants: seq<seq<Accept>>, n: nat)
    requires 0 < n <= |wants| && forall i | 0 <= i < |wants| :: DistinctLinks(wants[i])
    ensures UsersAfter(wants, n) == Keys(wants[n - 1]) <==> AllBroughtBack(wants, n)
  {
    ValuesOf(wants[n - 1]);
    NoStrangers(wants, n);
    forall key | key in Keys(wants[n - 1]) ensures key in UsersAfter(wants, n) <==> BroughtBack(wants, n, key) {
      UserHistory(wants, n, key);
      TrackedWasAdded(wants, n, key);
    }
  }

  /** Distinct keys in every wanted set are enough. */
  lemma DistinctKeysNeverShare(wants: seq<seq<Accept>>, n: nat)
    requires n <= |wants| && forall i | 0 <= i < |wants| :: DistinctLinks(wants[i]) && DistinctKeys(wants[i])
    ensures NeverShares(wants, n)
  {
    forall i | 0 <= i < n ensures NoSharedKey(CurrentAt(wants, i), wants[i]) {
      if i > 0 { DistinctKeysAreInjective(wants[i - 1]); }
      DistinctKeysAreNotShared(CurrentAt(wants, i), wants[i]);
    }
  }
}
