/**
  Which anx-server processes run (group and listener in anxserver/plan.go, Apply in
  anxserver/manager.go): accepted transports that can share a process share it, and no two
  processes want one address.
*/
module AnxPlan {

  /** Texts by number; 0 is the empty text. */
  type Text = nat

  datatype Addr = Addr(v6: bool, bits: nat)

  datatype Rendezvous = NoRendezvous | HostPort(addr: Text) | Malformed

  /** What a process is started with. */
  datatype Listener = Listener(
    tcp: Text, quic: Text, fakeTCP: Text, l2: bool, serverName: Text, sources: multiset<Addr>,
    reverseListen: Text, reverseA2: Text, reverseQUIC: bool, reverseFakeTCP: bool)

  datatype Accept = Accept(
    transport: nat, link: nat, tcp: Text, quic: Text, fakeTCP: Text, l2: bool, serverName: Text, sources: seq<Addr>,
    reverseDial: Rendezvous, hubPublic: Text, reverseListen: Text, reverseA2: Text, reverseQUIC: bool, reverseFakeTCP: bool)

  /** The order of the sources does not matter. */
  function ListenerOf(a: Accept): Listener {
    Listener(a.tcp, a.quic, a.fakeTCP, a.l2, a.serverName, multiset(a.sources),
             a.reverseListen, a.reverseA2, a.reverseQUIC, a.reverseFakeTCP)
  }

  datatype Port = TCP(addr: Text) | UDP(addr: Text) | FakeTCP(addr: Text)

  /** The ports a process opens; the QUIC dial-backs share the rendezvous port number. */
  predicate Opens(l: Listener, p: Port) {
    match p
    case TCP(addr) => addr != 0 && (addr == l.tcp || addr == l.reverseListen)
    case UDP(addr) => addr != 0 && (addr == l.quic || (l.reverseQUIC && addr == l.reverseListen))
    case FakeTCP(addr) => addr != 0 && addr == l.fakeTCP
  }

  /** As the code lists them, the carriers that are not offered included. */
  function PortList(l: Listener): seq<Port> {
    [TCP(l.tcp), UDP(l.quic), FakeTCP(l.fakeTCP), TCP(l.reverseListen)]
    + if l.reverseListen != 0 && l.reverseQUIC then [UDP(l.reverseListen)] else []
  }

  lemma PortListIsExact(l: Listener, p: Port)
    ensures Opens(l, p) <==> p in PortList(l) && p.addr != 0
  {
    var list := PortList(l);
    assert list[0] == TCP(l.tcp) && list[1] == UDP(l.quic) && list[2] == FakeTCP(l.fakeTCP) && list[3] == TCP(l.reverseListen);
    if l.reverseListen != 0 && l.reverseQUIC {
      assert list[4] == UDP(l.reverseListen);
    }
  }

  /** The ports an accepted transport has its process open. */
  lemma AcceptOpens(a: Accept, addr: Text)
    requires addr != 0
    ensures Opens(ListenerOf(a), TCP(addr)) <==> addr == a.tcp || addr == a.reverseListen
    ensures Opens(ListenerOf(a), UDP(addr)) <==> addr == a.quic || (a.reverseQUIC && addr == a.reverseListen)
    ensures Opens(ListenerOf(a), FakeTCP(addr)) <==> addr == a.fakeTCP
  {
  }

  /** Two transports share a process exactly when everything it is started with is the same, the sources in any order. */
  lemma ShareExactly(a: Accept, b: Accept)
    ensures ListenerOf(a) == ListenerOf(b) <==>
      && a.tcp == b.tcp && a.quic == b.quic && a.fakeTCP == b.fakeTCP && a.l2 == b.l2 && a.serverName == b.serverName
      && a.reverseListen == b.reverseListen && a.reverseA2 == b.reverseA2
      && a.reverseQUIC == b.reverseQUIC && a.reverseFakeTCP == b.reverseFakeTCP
      && multiset(a.sources) == multiset(b.sources)
    ensures ListenerOf(a).reverseA2 == a.reverseA2 && ListenerOf(a).reverseQUIC == a.reverseQUIC && ListenerOf(a).reverseFakeTCP == a.reverseFakeTCP
  {
  }

  predicate Listens(a: Accept) { a.tcp != 0 || a.quic != 0 || a.fakeTCP != 0 }

  function CountFamily(sources: seq<Addr>, v6: bool): nat {
    if sources == [] then 0
    else CountFamily(sources[..|sources| - 1], v6) + if sources[|sources| - 1].v6 == v6 then 1 else 0
  }

  /** The count is at most one exactly when no two sources are of the family. */
  lemma {:induction false} AtMostOne(sources: seq<Addr>, v6: bool)
    ensures CountFamily(sources, v6) == 0 <==> forall s | s in sources :: s.v6 != v6
    ensures CountFamily(sources, v6) <= 1 <==> forall i, j | 0 <= i < j < |sources| :: !(sources[i].v6 == v6 && sources[j].v6 == v6)
  {
    if sources != [] {
      var before, last := sources[..|sources| - 1], sources[|sources| - 1];
      AtMostOne(before, v6);
      assert sources == before + [last];
      assert forall i | 0 <= i < |before| :: before[i] in before;
      if last.v6 == v6 && !(forall s | s in before :: s.v6 != v6) {
        var i :| 0 <= i < |before| && before[i].v6 == v6;
        assert sources[i].v6 == v6 && sources[|before|].v6 == v6;
      }
    }
  }

  /** A transport either listens or dials back, has the names its jacket needs, and one source per family at most. */
  predicate Fits(a: Accept) {
    && (if a.reverseDial.NoRendezvous? then Listens(a)
        else !Listens(a) && !a.reverseDial.Malformed? && (a.l2 ==> a.hubPublic != 0))
    && (a.l2 ==> a.serverName != 0)
    && CountFamily(a.sources, false) <= 1 && CountFamily(a.sources, true) <= 1
  }

  /** The same in one piece: exactly one of listening and dialling back, and sources of different families. */
  lemma FitsExactly(a: Accept)
    ensures Fits(a) <==>
      && (a.reverseDial.NoRendezvous? <==> a.tcp != 0 || a.quic != 0 || a.fakeTCP != 0)
      && !a.reverseDial.Malformed?
      && (a.l2 ==> a.serverName != 0 && (a.reverseDial.NoRendezvous? || a.hubPublic != 0))
      && forall i, j | 0 <= i < j < |a.sources| :: a.sources[i].v6 != a.sources[j].v6
  {
    AtMostOne(a.sources, false);
    AtMostOne(a.sources, true);
  }

  ghost predicate DistinctLinks(accepts: seq<Accept>) {
    forall i, j | 0 <= i < j < |accepts| :: accepts[i].link != accepts[j].link
  }

  /** No two different processes open one port. */
  ghost predicate PortsApart(listeners: set<Listener>) {
    forall l, m, p | l in listeners && m in listeners && Opens(l, p) && Opens(m, p) :: l == m
  }

  function Listeners(accepts: seq<Accept>): set<Listener> {
    set a | a in accepts :: ListenerOf(a)
  }

  /** The transports of one process, in plan order. */
  function Sharing(accepts: seq<Accept>, l: Listener): seq<Accept> {
    if accepts == [] then []
    else
      var before, last := accepts[..|accepts| - 1], accepts[|accepts| - 1];
      if ListenerOf(last) == l then Sharing(before, l) + [last] else Sharing(before, l)
  }

  lemma {:induction false} SharingIsExact(accepts: seq<Accept>, l: Listener)
    ensures forall a :: a in Sharing(accepts, l) <==> a in accepts && ListenerOf(a) == l
  {
    if accepts != [] {
      SharingIsExact(accepts[..|accepts| - 1], l);
      assert accepts == accepts[..|accepts| - 1] + [accepts[|accepts| - 1]];
    }
  }

  /** In plan order: the transports of a process are at rising places of the plan. */
  lemma {:induction false} SharingKeepsOrder(accepts: seq<Accept>, l: Listener) returns (places: seq<nat>)
    ensures |places| == |Sharing(accepts, l)| && forall i | 0 <= i < |places| :: places[i] < |accepts| && accepts[places[i]] == Sharing(accepts, l)[i]
    ensures forall i, j | 0 <= i < j < |places| :: places[i] < places[j]
  {
    places := [];
    if accepts != [] {
      var before := accepts[..|accepts| - 1];
      places := SharingKeepsOrder(before, l);
      if ListenerOf(accepts[|accepts| - 1]) == l { places := places + [|before|]; }
    }
  }

  lemma {:induction false} NoneShare(accepts: seq<Accept>, l: Listener)
    requires forall a | a in accepts :: ListenerOf(a) != l
    ensures Sharing(accepts, l) == []
  {
    if accepts != [] {
      NoneShare(accepts[..|accepts| - 1], l);
      assert accepts[|accepts| - 1] in accepts;
    }
  }

  /** What a process is wanted to admit has distinct link ids. */
  lemma {:induction false} SharingIsDistinct(accepts: seq<Accept>, l: Listener)
    requires DistinctLinks(accepts)
    ensures DistinctLinks(Sharing(accepts, l))
  {
    if accepts != [] {
      var before, last := accepts[..|accepts| - 1], accepts[|accepts| - 1];
      SharingIsDistinct(before, l);
      SharingIsExact(before, l);
      var shared := Sharing(before, l);
      forall i | 0 <= i < |shared| ensures shared[i].link != last.link {
        assert shared[i] in before;
      }
    }
  }

  /** The transports by process. */
  ghost predicate Groups(groups: map<Listener, seq<Accept>>, accepts: seq<Accept>) {
    groups.Keys == Listeners(accepts) && forall l | l in groups :: groups[l] == Sharing(accepts, l)
  }

  method CountSources(sources: seq<Addr>) returns (v4: nat, v6: nat)
    ensures v4 == CountFamily(sources, false) && v6 == CountFamily(sources, true)
  {
    v4, v6 := 0, 0;
    for i := 0 to |sources|
      invariant v4 == CountFamily(sources[..i], false) && v6 == CountFamily(sources[..i], true)
    {
      assert sources[..i + 1][..i] == sources[..i];
      if sources[i].v6 {
        v6 := v6 + 1;
      } else {
        v4 := v4 + 1;
      }
    }
    assert sources[..|sources|] == sources;
  }

  /** The checks of one transport, in the order they are made. */
  method CheckAccept(a: Accept) returns (ok: bool)
    ensures ok == Fits(a)
  {
    var dialsBack := !a.reverseDial.NoRendezvous?;
    if dialsBack && Listens(a) {
      return false;
    }
    if dialsBack && a.l2 && (a.hubPublic == 0 || a.serverName == 0) {
      return false;
    }
    if dialsBack && a.reverseDial.Malformed? {
      return false;
    }
    if !dialsBack && !Listens(a) {
      return false;
    }
    if a.l2 && a.serverName == 0 {
      return false;
    }
    var v4, v6 := CountSources(a.sources);
    ok := v4 <= 1 && v6 <= 1;
  }

  /** Every transport fits and no link id comes twice. */
  ghost predicate Sensible(accepts: seq<Accept>) {
    (forall a | a in accepts :: Fits(a)) && DistinctLinks(accepts)
  }

  function LinkIds(accepts: seq<Accept>): set<nat> {
    set a | a in accepts :: a.link
  }

  lemma SensibleSoFar(accepts: seq<Accept>, i: nat)
    requires i < |accepts|
    ensures Sensible(accepts[..i + 1]) <==>
      Sensible(accepts[..i]) && Fits(accepts[i]) && accepts[i].link !in LinkIds(accepts[..i])
    ensures Sensible(accepts) ==> Sensible(accepts[..i + 1])
    ensures LinkIds(accepts[..i + 1]) == LinkIds(accepts[..i]) + {accepts[i].link}
  {
    var before, now := accepts[..i], accepts[..i + 1];
    assert now == before + [accepts[i]];
    if accepts[i].link in LinkIds(before) {
      var k :| 0 <= k < i && before[k].link == accepts[i].link;
      assert now[k].link == now[i].link;
    }
    assert forall k | 0 <= k < i :: before[k] in before;
  }

  /** The first loop: checks each transport and its link id, and adds it to its process. */
  method Collect(accepts: seq<Accept>) returns (ok: bool, groups: map<Listener, seq<Accept>>)
    ensures ok <==> Sensible(accepts)
    ensures ok ==> Groups(groups, accepts)
  {
    groups := map[];
    var links := {};
    for i := 0 to |accepts|
      invariant Sensible(accepts[..i]) && links == LinkIds(accepts[..i]) && Groups(groups, accepts[..i])
    {
      SensibleSoFar(accepts, i);
      var fits := CheckAccept(accepts[i]);
      if !fits || accepts[i].link in links {
        return false, map[];
      }
      groups := AddToGroup(groups, accepts[..i], accepts[i]);
      assert accepts[..i + 1] == accepts[..i] + [accepts[i]];
      links := links + {accepts[i].link};
    }
    assert accepts[..|accepts|] == accepts;
    ok := true;
  }

  method AddToGroup(groups: map<Listener, seq<Accept>>, ghost accepts: seq<Accept>, a: Accept)
    returns (more: map<Listener, seq<Accept>>)
    requires Groups(groups, accepts)
    ensures Groups(more, accepts + [a])
  {
    var l := ListenerOf(a);
    OneMoreShares(groups, accepts, a);
    more := groups[l := (if l in groups then groups[l] else []) + [a]];
  }

  lemma OneMoreShares(groups: map<Listener, seq<Accept>>, accepts: seq<Accept>, a: Accept)
    requires Groups(groups, accepts)
    ensures var l := ListenerOf(a);
      Groups(groups[l := (if l in groups then groups[l] else []) + [a]], accepts + [a])
  {
    var l := ListenerOf(a);
    assert (accepts + [a])[..|accepts|] == accepts;
    assert Listeners(accepts + [a]) == Listeners(accepts) + {l};
    if l !in groups {
      NoneShare(accepts, l);
    }
  }

  /** Every port of the processes seen so far, with the one process that opens it. */
  ghost predicate Owners(owners: map<Port, Listener>, done: set<Listener>) {
    && (forall l, p | l in done && Opens(l, p) :: p in owners && owners[p] == l)
    && (forall p | p in owners :: owners[p] in done && Opens(owners[p], p))
  }

  /** The ports of one more process; refused when another one opens one of them. */
  method Claim(l: Listener, owners: map<Port, Listener>, ghost done: set<Listener>)
    returns (ok: bool, more: map<Port, Listener>, ghost clash: Port)
    requires l !in done && Owners(owners, done)
    ensures ok ==> Owners(more, done + {l})
    ensures !ok ==> exists m | m in done :: Opens(m, clash) && Opens(l, clash)
  {
    var list := PortList(l);
    more, clash := owners, TCP(0);
    for i := 0 to |list|
      invariant forall p | p in owners :: p in more && more[p] == owners[p]
      invariant forall p | p in more && p !in owners :: more[p] == l && Opens(l, p)
      invariant forall k | 0 <= k < i && list[k].addr != 0 :: list[k] in more && more[list[k]] == l
    {
      var p := list[i];
      if p.addr != 0 {
        PortListIsExact(l, p);
        if p in more && more[p] != l {
          clash := p;
          return false, more, clash;
        }
        more := more[p := l];
      }
    }
    forall p | Opens(l, p) ensures p in more && more[p] == l {
      PortListIsExact(l, p);
    }
    ok := true;
  }

  /** The second loop: who opens each port, over the processes in an arbitrary order. */
  method CheckPorts(listeners: set<Listener>) returns (ok: bool)
    ensures ok == PortsApart(listeners)
  {
    var owners: map<Port, Listener> := map[];
    var rest := listeners;
    while rest != {}
      invariant rest <= listeners && Owners(owners, listeners - rest)
      decreases |rest|
    {
      var l :| l in rest;
      ghost var clash;
      ok, owners, clash := Claim(l, owners, listeners - rest);
      if !ok {
        return;
      }
      assert listeners - (rest - {l}) == (listeners - rest) + {l};
      rest := rest - {l};
    }
    assert listeners - rest == listeners;
    ok := true;
  }

  /**
    Groups the transports by process, or refuses the plan: exactly when a transport does not
    fit, a link id comes twice or two processes want one port, whatever the map order.
  */
  method Group(accepts: seq<Accept>) returns (ok: bool, groups: map<Listener, seq<Accept>>)
    ensures ok <==> Sensible(accepts) && PortsApart(Listeners(accepts))
    ensures ok ==> Groups(groups, accepts)
  {
    ok, groups := Collect(accepts);
    if ok {
      ok := CheckPorts(groups.Keys);
    }
  }

  /** The running processes and what each is wanted to admit. */
  class Manager {
    var servers: map<Listener, seq<Accept>>

    constructor ()
      ensures servers == map[]
    {
      servers := map[];
    }

    /**
      Runs exactly the plan's processes; a refused plan changes nothing. Fake-TCP RST rules that
      fail are reported after the processes were changed all the same.
    */
    method Apply(accepts: seq<Accept>, keyWorks: bool, rstWorks: bool) returns (accepted: bool, ok: bool)
      modifies this
      ensures !accepted ==> servers == old(servers)
      ensures accepted ==> Groups(servers, accepts) && PortsApart(servers.Keys)
      ensures accepted ==> forall l | l in servers :: DistinctLinks(servers[l])
      ensures accepted <==> Sensible(accepts) && PortsApart(Listeners(accepts)) && (keyWorks || accepts == [])
      ensures ok <==> accepted && rstWorks
    {
      var groups;
      accepted, groups := Group(accepts);
      if !accepted {
        return false, false;
      }
      if groups != map[] && !keyWorks {
        assert accepts != [];
        return false, false;
      }
      assert groups == map[] ==> accepts == [] by {
        if accepts != [] { assert ListenerOf(accepts[0]) in Listeners(accepts); }
      }
      forall l | l in groups ensures DistinctLinks(groups[l]) {
        SharingIsDistinct(accepts, l);
      }
      Replace(groups);
      ok := rstWorks;
    }

    /** Stops the processes that are gone, starts the new ones and tells each what to admit. */
    method Replace(groups: map<Listener, seq<Accept>>)
      modifies this
      ensures servers == groups
    {
      servers := map l | l in servers && l in groups :: servers[l];
      var rest := groups.Keys;
      while rest != {}
        invariant rest <= groups.Keys && servers.Keys <= groups.Keys
        invariant forall l | l in groups && l !in rest :: l in servers && servers[l] == groups[l]
        decreases |rest|
      {
        var l :| l in rest;
        servers := servers[l := groups[l]];
        rest := rest - {l};
      }
    }
  }
}
