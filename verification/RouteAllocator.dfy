/**
  The routing allocator (Routes in networkroute/networkroute.go): one route per egress with
  an address source, pinned tables and priorities kept, the others taken from the range.

  Ids are numbers in the order of the id strings; an address is its family and its bits.
*/
module RouteAllocator {

  type Id = nat

  datatype Addr = Addr(v6: bool, bits: nat)

  /** A configured address: missing (or "auto"), parsed, or malformed. */
  datatype Text = Missing | Parsed(addr: Addr) | Malformed

  datatype Line = Line(id: nat, dev: nat, gateway4: Text, gateway6: Text)

  /** Table and priority 0 are automatic; interface 0 is the empty name. */
  datatype Egress = Egress(id: Id, source: Text, line: nat, gateway: Text, table: nat, priority: nat)

  datatype Gateway = OnLink | Via(addr: Addr)

  datatype Route = Route(
    egress: Id, source: Addr, dev: nat, gateway: Gateway, table: nat, priority: nat, to: seq<Addr>, toPriority: nat)

  datatype Error = BadSource(id: Id) | NoInterface(id: Id) | BadGateway(id: Id) | OutsideRange(id: Id) | Full

  datatype Result<T> = Ok(value: T) | Err(error: Error)

  /** What an egress asks for: nothing, a route, or an error. */
  datatype Ask = Skip | Want(route: Route) | Refuse(error: Error)

  const MAX_UINT32 := 0xFFFF_FFFF

  type Uint32 = n: nat | n <= MAX_UINT32

  /** The last line with an id; a missing line has no interface. */
  function LineOf(lines: seq<Line>, id: nat): Line {
    if lines == [] then Line(id, 0, Missing, Missing)
    else if lines[|lines| - 1].id == id then lines[|lines| - 1]
    else LineOf(lines[..|lines| - 1], id)
  }

  predicate InRange(n: nat, first: nat, last: nat) { first <= n <= last }

  function AskOf(lines: seq<Line>, e: Egress, first: nat, last: nat): Ask {
    var line := LineOf(lines, e.line);
    if e.source.Missing? then Skip
    else if e.source.Malformed? then Refuse(BadSource(e.id))
    else if line.dev == 0 then Refuse(NoInterface(e.id))
    else
      var gateway := if !e.gateway.Missing? then e.gateway else if e.source.addr.v6 then line.gateway6 else line.gateway4;
      if gateway.Malformed? then Refuse(BadGateway(e.id))
      else if (e.table != 0 && !InRange(e.table, first, last)) || (e.priority != 0 && !InRange(e.priority, first, last)) then
        Refuse(OutsideRange(e.id))
      else
        Want(Route(e.id, e.source.addr, line.dev, if gateway.Missing? then OnLink else Via(gateway.addr), e.table, e.priority, [], 0))
  }

  /** What a route leads through; egresses that pin nothing share a route with the same one. */
  datatype Way = Way(source: Addr, dev: nat, gateway: Gateway)

  function WayOf(r: Route): Way { Way(r.source, r.dev, r.gateway) }

  predicate Unpinned(r: Route) { r.table == 0 && r.priority == 0 }

  /** The routes so far and which of them serves an egress. */
  datatype Collected = Collected(routes: seq<Route>, routeOf: map<Id, nat>)

  /** The unpinned route that leads a way, or the next index. */
  function Shared(routes: seq<Route>, way: Way): nat {
    if routes == [] then 0
    else if Unpinned(routes[0]) && WayOf(routes[0]) == way then 0
    else 1 + Shared(routes[1..], way)
  }

  function Collect(lines: seq<Line>, egresses: seq<Egress>, first: nat, last: nat): Result<Collected> {
    if egresses == [] then Ok(Collected([], map[]))
    else
      var e := egresses[|egresses| - 1];
      match Collect(lines, egresses[..|egresses| - 1], first, last)
      case Err(error) => Err(error)
      case Ok(c) =>
        match AskOf(lines, e, first, last)
        case Skip => Ok(c)
        case Refuse(error) => Err(error)
        case Want(r) =>
          var i := Shared(c.routes, WayOf(r));
          if Unpinned(r) && i < |c.routes| then Ok(c.(routeOf := c.routeOf[e.id := i]))
          else Ok(Collected(c.routes + [r], c.routeOf[e.id := |c.routes|]))
  }

  lemma {:induction false} SharedFinds(routes: seq<Route>, way: Way)
    ensures Shared(routes, way) <= |routes|
    ensures Shared(routes, way) < |routes| ==>
      Unpinned(routes[Shared(routes, way)]) && WayOf(routes[Shared(routes, way)]) == way
    ensures Shared(routes, way) == |routes| ==> forall r | r in routes :: !(Unpinned(r) && WayOf(r) == way)
  {
    if routes != [] { SharedFinds(routes[1..], way); }
  }

  /** A route serves an egress: its way, and its table and priority where it pins them. */
  ghost predicate Serves(r: Route, want: Route) {
    && WayOf(r) == WayOf(want)
    && (want.table != 0 ==> r.table == want.table)
    && (want.priority != 0 ==> r.priority == want.priority)
  }

  /** One more egress: nothing is lost, and what it asked for is served. */
  lemma CollectStep(lines: seq<Line>, egresses: seq<Egress>, e: Egress, first: nat, last: nat)
    requires Collect(lines, egresses + [e], first, last).Ok?
    ensures Collect(lines, egresses, first, last).Ok?
    ensures var c, next := Collect(lines, egresses, first, last).value, Collect(lines, egresses + [e], first, last).value;
      && c.routes <= next.routes
      && (next.routes == c.routes || (|next.routes| == |c.routes| + 1 && AskOf(lines, e, first, last) == Want(next.routes[|c.routes|])))
      && (match AskOf(lines, e, first, last)
          case Refuse(_) => false
          case Skip => next.routeOf == c.routeOf
          case Want(want) =>
            exists i: nat | i < |next.routes| :: Serves(next.routes[i], want) && next.routeOf == c.routeOf[e.id := i])
  {
    assert (egresses + [e])[..|egresses|] == egresses;
    var c := Collect(lines, egresses, first, last).value;
    var ask := AskOf(lines, e, first, last);
    if ask.Want? {
      SharedFinds(c.routes, WayOf(ask.route));
    }
  }

  /** Every egress that asks for a route is served by one that keeps its way and its pins. */
  lemma {:induction false} CollectServes(lines: seq<Line>, egresses: seq<Egress>, first: nat, last: nat, e: Egress)
    requires Collect(lines, egresses, first, last).Ok? && e in egresses && AskOf(lines, e, first, last).Want?
    ensures exists r | r in Collect(lines, egresses, first, last).value.routes :: Serves(r, AskOf(lines, e, first, last).route)
  {
    var before, x := egresses[..|egresses| - 1], egresses[|egresses| - 1];
    assert egresses == before + [x];
    CollectStep(lines, before, x, first, last);
    if e in before {
      CollectServes(lines, before, first, last, e);
      var r :| r in Collect(lines, before, first, last).value.routes && Serves(r, AskOf(lines, e, first, last).route);
      assert r in Collect(lines, egresses, first, last).value.routes;
    }
  }

  /** No route that no egress asked for. */
  lemma {:induction false} CollectedIsAsked(lines: seq<Line>, egresses: seq<Egress>, first: nat, last: nat, r: Route)
    requires Collect(lines, egresses, first, last).Ok? && r in Collect(lines, egresses, first, last).value.routes
    ensures exists e | e in egresses :: AskOf(lines, e, first, last) == Want(r)
  {
    var before, x := egresses[..|egresses| - 1], egresses[|egresses| - 1];
    assert egresses == before + [x];
    CollectStep(lines, before, x, first, last);
    if r in Collect(lines, before, first, last).value.routes {
      CollectedIsAsked(lines, before, first, last, r);
      var e :| e in before && AskOf(lines, e, first, last) == Want(r);
      assert e in egresses;
    } else {
      assert x in egresses;
    }
  }

  /** No two unpinned routes lead the same way. */
  ghost predicate OnePerWay(routes: seq<Route>) {
    forall i, j | 0 <= i < j < |routes| && Unpinned(routes[i]) && Unpinned(routes[j]) :: WayOf(routes[i]) != WayOf(routes[j])
  }

  /** Egresses that pin nothing and have the same source, interface and gateway share a route. */
  lemma {:induction false} SharedOnce(lines: seq<Line>, egresses: seq<Egress>, first: nat, last: nat)
    requires Collect(lines, egresses, first, last).Ok?
    ensures OnePerWay(Collect(lines, egresses, first, last).value.routes)
  {
    if egresses != [] {
      var before, e := egresses[..|egresses| - 1], egresses[|egresses| - 1];
      SharedOnce(lines, before, first, last);
      var c, ask := Collect(lines, before, first, last).value, AskOf(lines, e, first, last);
      if ask.Want? {
        SharedFinds(c.routes, WayOf(ask.route));
        assert forall i | 0 <= i < |c.routes| :: c.routes[i] in c.routes;
      }
    }
  }

  /** The route for what an egress asks: the unpinned one of its way, or its very own. */
  ghost predicate RouteFor(r: Route, want: Route) {
    if Unpinned(want) then Unpinned(r) && WayOf(r) == WayOf(want) else r == want
  }

  /** An egress is served by that route; of egresses with one id the last that asks decides. */
  lemma {:induction false} RouteOfEgress(lines: seq<Line>, egresses: seq<Egress>, first: nat, last: nat, k: nat)
    requires Collect(lines, egresses, first, last).Ok? && k < |egresses| && AskOf(lines, egresses[k], first, last).Want?
    requires forall j | k < j < |egresses| :: egresses[j].id != egresses[k].id || AskOf(lines, egresses[j], first, last).Skip?
    ensures var c := Collect(lines, egresses, first, last).value;
      && egresses[k].id in c.routeOf && c.routeOf[egresses[k].id] < |c.routes|
      && RouteFor(c.routes[c.routeOf[egresses[k].id]], AskOf(lines, egresses[k], first, last).route)
  {
    var before, e := egresses[..|egresses| - 1], egresses[|egresses| - 1];
    var c, ask := Collect(lines, before, first, last).value, AskOf(lines, e, first, last);
    if ask.Want? { SharedFinds(c.routes, WayOf(ask.route)); }
    if k < |before| {
      assert before[k] == egresses[k] && forall j | k < j < |before| :: before[j] == egresses[j];
      RouteOfEgress(lines, before, first, last, k);
      assert e.id != egresses[k].id || ask.Skip?;
    }
  }

  /** No id is served that no egress asked for. */
  lemma {:induction false} ServedWasAsked(lines: seq<Line>, egresses: seq<Egress>, first: nat, last: nat, id: Id)
    requires Collect(lines, egresses, first, last).Ok? && id in Collect(lines, egresses, first, last).value.routeOf
    ensures exists e | e in egresses :: e.id == id && AskOf(lines, e, first, last).Want?
  {
    var before, e := egresses[..|egresses| - 1], egresses[|egresses| - 1];
    assert egresses == before + [e];
    if e.id == id && AskOf(lines, e, first, last).Want? {
      assert e in egresses;
    } else {
      ServedWasAsked(lines, before, first, last, id);
      var x :| x in before && x.id == id && AskOf(lines, x, first, last).Want?;
      assert x in egresses;
    }
  }

  /** The numbers of the range that are not used, lowest first. */
  function Free(first: nat, last: nat, used: set<nat>): seq<nat>
    decreases last + 1 - first
  {
    if first > last then []
    else if first in used then Free(first + 1, last, used)
    else [first] + Free(first + 1, last, used)
  }

  ghost predicate Ascending(s: seq<nat>) {
    forall i, j | 0 <= i < j < |s| :: s[i] < s[j]
  }

  lemma {:induction false} FreeHas(first: nat, last: nat, used: set<nat>, n: nat)
    ensures n in Free(first, last, used) <==> InRange(n, first, last) && n !in used
    decreases last + 1 - first
  {
    if first > last {
      assert Free(first, last, used) == [];
    } else {
      var rest := Free(first + 1, last, used);
      FreeHas(first + 1, last, used, n);
      if first in used {
        assert Free(first, last, used) == rest;
      } else {
        assert Free(first, last, used) == [first] + rest;
        InFront(first, rest, n);
      }
    }
  }

  lemma InFront(x: nat, rest: seq<nat>, n: nat)
    ensures n in [x] + rest <==> n == x || n in rest
  {
    assert ([x] + rest)[0] == x;
    assert forall i | 0 <= i < |rest| :: ([x] + rest)[i + 1] == rest[i];
  }

  lemma {:induction false} FreeAscends(first: nat, last: nat, used: set<nat>)
    ensures Ascending(Free(first, last, used))
    decreases last + 1 - first
  {
    if first <= last {
      FreeAscends(first + 1, last, used);
      var rest := Free(first + 1, last, used);
      forall i | 0 <= i < |rest| ensures first < rest[i] {
        FreeHas(first + 1, last, used, rest[i]);
      }
    }
  }

  lemma FreeIsFree(first: nat, last: nat, used: set<nat>)
    ensures Ascending(Free(first, last, used))
    ensures forall n: nat :: n in Free(first, last, used) <==> InRange(n, first, last) && n !in used
  {
    FreeAscends(first, last, used);
    forall n: nat ensures n in Free(first, last, used) <==> InRange(n, first, last) && n !in used {
      FreeHas(first, last, used, n);
    }
  }

  function AutoCount(pins: seq<nat>): nat {
    if pins == [] then 0 else AutoCount(pins[..|pins| - 1]) + if pins[|pins| - 1] == 0 then 1 else 0
  }

  /** Pins kept, zeros replaced by the free numbers in order. */
  function Assign(pins: seq<nat>, free: seq<nat>): seq<nat>
    requires AutoCount(pins) <= |free|
  {
    if pins == [] then []
    else
      var before, pin := pins[..|pins| - 1], pins[|pins| - 1];
      Assign(before, free) + [if pin != 0 then pin else free[AutoCount(before)]]
  }

  lemma {:induction false} AssignLength(pins: seq<nat>, free: seq<nat>)
    requires AutoCount(pins) <= |free|
    ensures |Assign(pins, free)| == |pins|
  {
    if pins != [] { AssignLength(pins[..|pins| - 1], free); }
  }

  lemma {:induction false} AutoCountMonotone(pins: seq<nat>, k: nat)
    requires k <= |pins|
    ensures AutoCount(pins[..k]) <= AutoCount(pins)
  {
    if k < |pins| {
      var before := pins[..|pins| - 1];
      AutoCountMonotone(before, k);
      assert before[..k] == pins[..k];
    } else {
      assert pins[..k] == pins;
    }
  }

  lemma {:induction false} AssignAt(pins: seq<nat>, free: seq<nat>, k: nat)
    requires AutoCount(pins) <= |free| && k < |pins|
    ensures |Assign(pins, free)| == |pins|
    ensures pins[k] != 0 ==> Assign(pins, free)[k] == pins[k]
    ensures pins[k] == 0 ==> AutoCount(pins[..k]) < AutoCount(pins) && Assign(pins, free)[k] == free[AutoCount(pins[..k])]
  {
    AssignLength(pins, free);
    var before := pins[..|pins| - 1];
    AssignLength(before, free);
    if k < |before| {
      AssignAt(before, free, k);
      assert before[..k] == pins[..k];
    } else {
      assert pins[..k] == before;
    }
  }

  /** Which numbers a list of pins takes. */
  function Pinned(pins: seq<nat>): set<nat> {
    set n | n in pins && n != 0
  }

  /**
    Against the free numbers of the range: pins are kept, an automatic number is in the
    range, not in `used`, and not the number of any other route.
  */
  lemma AssignIsExact(pins: seq<nat>, first: nat, last: nat, used: set<nat>, k: nat)
    requires AutoCount(pins) <= |Free(first, last, used)| && k < |pins| && Pinned(pins) <= used
    ensures var numbers := Assign(pins, Free(first, last, used));
      && |numbers| == |pins|
      && (pins[k] != 0 ==> numbers[k] == pins[k])
      && (pins[k] == 0 ==> InRange(numbers[k], first, last) && numbers[k] !in used)
      && (pins[k] == 0 ==> forall j | 0 <= j < |pins| && j != k :: numbers[j] != numbers[k])
  {
    var free := Free(first, last, used);
    FreeIsFree(first, last, used);
    AssignAt(pins, free, k);
    if pins[k] == 0 {
      var numbers := Assign(pins, free);
      assert numbers[k] in free;
      forall j | 0 <= j < |pins| && j != k ensures numbers[j] != numbers[k] {
        AssignAt(pins, free, j);
        if pins[j] == 0 {
          AutoCountApart(pins, k, j);
        } else {
          assert pins[j] in Pinned(pins);
        }
      }
    }
  }

  lemma AutoCountApart(pins: seq<nat>, k: nat, j: nat)
    requires k < |pins| && j < |pins| && k != j && pins[k] == 0 && pins[j] == 0
    ensures AutoCount(pins[..k]) != AutoCount(pins[..j])
  {
    var low, high := if k < j then k else j, if k < j then j else k;
    assert pins[..low + 1][..low] == pins[..low];
    AutoCountMonotone(pins[..high], low + 1);
    assert pins[..high][..low + 1] == pins[..low + 1];
  }

  // ---- The phases of Routes

  function Tables(routes: seq<Route>): (pins: seq<nat>)
    ensures |pins| == |routes|
  {
    seq(|routes|, i requires 0 <= i < |routes| => routes[i].table)
  }

  function Priorities(routes: seq<Route>): (pins: seq<nat>)
    ensures |pins| == |routes|
  {
    seq(|routes|, i requires 0 <= i < |routes| => routes[i].priority)
  }

  /** The shared map of the loop: the unpinned routes by their way. */
  ghost predicate SharedBy(shared: map<Way, nat>, routes: seq<Route>) {
    && (forall way | way in shared :: shared[way] == Shared(routes, way) && shared[way] < |routes|)
    && (forall way :: Shared(routes, way) < |routes| ==> way in shared)
  }

  lemma {:induction false} SharedAppend(routes: seq<Route>, r: Route, way: Way)
    ensures Shared(routes + [r], way) ==
      if Shared(routes, way) < |routes| then Shared(routes, way)
      else if Unpinned(r) && WayOf(r) == way then |routes|
      else |routes| + 1
  {
    SharedFinds(routes, way);
    if routes != [] {
      SharedAppend(routes[1..], r, way);
      assert (routes + [r])[1..] == routes[1..] + [r];
    }
  }

  method Gather(lines: seq<Line>, egresses: seq<Egress>, first: nat, last: nat)
    returns (result: Result<Collected>, tables: set<nat>, priorities: set<nat>)
    ensures result == Collect(lines, egresses, first, last)
    ensures result.Ok? ==>
      tables == Pinned(Tables(result.value.routes)) && priorities == {last} + Pinned(Priorities(result.value.routes))
  {
    var routes: seq<Route>, routeOf: map<Id, nat>, shared: map<Way, nat> := [], map[], map[];
    tables, priorities := {}, {last};
    for k := 0 to |egresses|
      invariant Collect(lines, egresses[..k], first, last) == Ok(Collected(routes, routeOf))
      invariant SharedBy(shared, routes)
      invariant tables == Pinned(Tables(routes)) && priorities == {last} + Pinned(Priorities(routes))
    {
      var e := egresses[k];
      assert egresses[..k + 1][..k] == egresses[..k];
      match AskOf(lines, e, first, last)
      case Skip =>
      case Refuse(error) =>
        FirstErrorWins(lines, egresses, first, last, k + 1);
        return Err(error), {}, {};
      case Want(r) =>
        SharedFinds(routes, WayOf(r));
        if Unpinned(r) && WayOf(r) in shared {
          routeOf := routeOf[e.id := shared[WayOf(r)]];
        } else {
          Pins(routes, r);
          ExtendShared(shared, routes, r);
          shared := if Unpinned(r) then shared[WayOf(r) := |routes|] else shared;
          tables := if r.table != 0 then tables + {r.table} else tables;
          priorities := if r.priority != 0 then priorities + {r.priority} else priorities;
          routeOf := routeOf[e.id := |routes|];
          routes := routes + [r];
        }
    }
    assert egresses[..|egresses|] == egresses;
    result := Ok(Collected(routes, routeOf));
  }

  lemma ExtendShared(shared: map<Way, nat>, routes: seq<Route>, r: Route)
    requires SharedBy(shared, routes) && (Unpinned(r) ==> WayOf(r) !in shared)
    ensures SharedBy(if Unpinned(r) then shared[WayOf(r) := |routes|] else shared, routes + [r])
  {
    forall way: Way
      ensures Shared(routes, way) <= |routes|
      ensures Shared(routes + [r], way) ==
        if Shared(routes, way) < |routes| then Shared(routes, way)
        else if Unpinned(r) && WayOf(r) == way then |routes|
        else |routes| + 1
    {
      SharedFinds(routes, way);
      SharedAppend(routes, r, way);
    }
  }

  lemma Pins(routes: seq<Route>, r: Route)
    ensures Pinned(Tables(routes + [r])) == Pinned(Tables(routes)) + if r.table != 0 then {r.table} else {}
    ensures Pinned(Priorities(routes + [r])) == Pinned(Priorities(routes)) + if r.priority != 0 then {r.priority} else {}
  {
    assert Tables(routes + [r]) == Tables(routes) + [r.table];
    assert Priorities(routes + [r]) == Priorities(routes) + [r.priority];
  }

  /** An error on a prefix of the egresses is the error on all of them. */
  lemma {:induction false} FirstErrorWins(lines: seq<Line>, egresses: seq<Egress>, first: nat, last: nat, k: nat)
    requires k <= |egresses| && Collect(lines, egresses[..k], first, last).Err?
    ensures Collect(lines, egresses, first, last) == Collect(lines, egresses[..k], first, last)
  {
    if k == |egresses| {
      assert egresses[..k] == egresses;
    } else {
      var before := egresses[..|egresses| - 1];
      assert before[..k] == egresses[..k];
      FirstErrorWins(lines, before, first, last, k);
    }
  }

  // ---- Peer addresses

  predicate Below(a: Addr, b: Addr) {
    (!a.v6 && b.v6) || (a.v6 == b.v6 && a.bits < b.bits)
  }

  ghost predicate Sorted(list: seq<Addr>) {
    forall i, j | 0 <= i < j < |list| :: Below(list[i], list[j])
  }

  /** The peer addresses of a route: those of the egresses it serves, of its family. */
  ghost predicate IsPeer(a: Addr, c: Collected, peers: map<Id, seq<Addr>>, done: set<Id>, i: nat)
    requires i < |c.routes|
  {
    && a.v6 == c.routes[i].source.v6
    && exists id | id in done && id in peers && id in c.routeOf :: c.routeOf[id] == i && a in peers[id]
  }

  /** Each route with its peers in address order, at the last priority; routes without stay as they are. */
  ghost predicate Attached(c: Collected, peers: map<Id, seq<Addr>>, last: nat, drafts: seq<Route>) {
    && |drafts| == |c.routes|
    && forall i | 0 <= i < |drafts| ::
      && drafts[i] == c.routes[i].(to := drafts[i].to, toPriority := if drafts[i].to == [] then c.routes[i].toPriority else last)
      && Sorted(drafts[i].to)
      && forall a :: a in drafts[i].to <==> IsPeer(a, c, peers, peers.Keys, i)
  }

  lemma {:induction false} SortedIsUnique(a: seq<Addr>, b: seq<Addr>)
    requires Sorted(a) && Sorted(b) && forall x :: x in a <==> x in b
    ensures a == b
  {
    assert b == [] || b[0] in b;
    if a != [] {
      assert a[0] in b;
      assert b[0] in a;
      assert a[0] == b[0];
      forall x ensures x in a[1..] <==> x in b[1..] {
        if x in a[1..] { assert x in a && x != a[0]; }
        if x in b[1..] { assert x in b && x != b[0]; }
      }
      SortedIsUnique(a[1..], b[1..]);
    }
  }

  /** The peers are the same whichever order the map is walked in. */
  lemma AttachedIsUnique(c: Collected, peers: map<Id, seq<Addr>>, last: nat, a: seq<Route>, b: seq<Route>)
    requires Attached(c, peers, last, a) && Attached(c, peers, last, b)
    ensures a == b
  {
    forall i | 0 <= i < |a| ensures a[i] == b[i] {
      SortedIsUnique(a[i].to, b[i].to);
    }
  }

  /** A sorted list with one more address. */
  function Insert(a: Addr, list: seq<Addr>): (r: seq<Addr>)
    ensures forall x :: x in r <==> x == a || x in list
  {
    if list == [] || Below(a, list[0]) then [a] + list
    else
      assert forall x :: x in list <==> x == list[0] || x in list[1..];
      [list[0]] + Insert(a, list[1..])
  }

  lemma {:induction false} InsertSorts(a: Addr, list: seq<Addr>)
    requires Sorted(list) && a !in list
    ensures Sorted(Insert(a, list))
  {
    if list != [] && !Below(a, list[0]) {
      InsertSorts(a, list[1..]);
      var rest := Insert(a, list[1..]);
      assert list[0] != a;
      forall k | 0 <= k < |rest| ensures Below(list[0], rest[k]) {
        assert rest[k] in rest;
      }
    }
  }

  method SortPeers(list: seq<Addr>) returns (sorted: seq<Addr>)
    requires forall i, j | 0 <= i < j < |list| :: list[i] != list[j]
    ensures Sorted(sorted) && forall a :: a in sorted <==> a in list
  {
    sorted := [];
    for k := 0 to |list|
      invariant Sorted(sorted) && forall a :: a in sorted <==> a in list[..k]
    {
      InsertSorts(list[k], sorted);
      sorted := Insert(list[k], sorted);
      assert list[..k + 1] == list[..k] + [list[k]];
    }
    assert list[..|list|] == list;
  }

  /** A draft while its peers are gathered: no address twice, and the last priority once there is one. */
  ghost predicate Gathering(r: Route, base: Route, last: nat) {
    && r == base.(to := r.to, toPriority := if r.to == [] then base.toPriority else last)
    && forall i, j | 0 <= i < j < |r.to| :: r.to[i] != r.to[j]
  }

  method AddPeers(r: Route, ghost base: Route, prefixes: seq<Addr>, last: nat) returns (out: Route)
    requires Gathering(r, base, last)
    ensures Gathering(out, base, last)
    ensures forall a :: a in out.to <==> a in r.to || (a in prefixes && a.v6 == base.source.v6)
  {
    out := r;
    for k := 0 to |prefixes|
      invariant Gathering(out, base, last)
      invariant forall a :: a in out.to <==> a in r.to || (a in prefixes[..k] && a.v6 == base.source.v6)
    {
      if prefixes[k].v6 == out.source.v6 && prefixes[k] !in out.to {
        out := out.(to := out.to + [prefixes[k]], toPriority := last);
      }
      assert prefixes[..k + 1] == prefixes[..k] + [prefixes[k]];
    }
    assert prefixes[..|prefixes|] == prefixes;
  }

  ghost predicate Reached(c: Collected, peers: map<Id, seq<Addr>>, last: nat, done: set<Id>, drafts: seq<Route>) {
    && |drafts| == |c.routes|
    && (forall i | 0 <= i < |drafts| :: Gathering(drafts[i], c.routes[i], last))
    && (forall i, a | 0 <= i < |drafts| :: a in drafts[i].to <==> IsPeer(a, c, peers, done, i))
  }

  method SortAll(ghost c: Collected, ghost peers: map<Id, seq<Addr>>, ghost last: nat, unsorted: seq<Route>)
    returns (drafts: seq<Route>)
    requires Reached(c, peers, last, peers.Keys, unsorted)
    ensures Attached(c, peers, last, drafts)
  {
    drafts := [];
    for i := 0 to |unsorted|
      invariant |drafts| == i
      invariant forall j | 0 <= j < i :: Placed(drafts[j], unsorted[j])
    {
      var to := SortPeers(unsorted[i].to);
      assert to == [] <==> unsorted[i].to == [] by {
        assert to == [] || to[0] in to;
        assert unsorted[i].to == [] || unsorted[i].to[0] in unsorted[i].to;
      }
      drafts := drafts + [unsorted[i].(to := to)];
    }
  }

  /** A draft with its peers put in order. */
  ghost predicate Placed(r: Route, unsorted: Route) {
    && r == unsorted.(to := r.to)
    && Sorted(r.to)
    && (r.to == [] <==> unsorted.to == [])
    && forall a :: a in r.to <==> a in unsorted.to
  }

  /** Walks the peers in an arbitrary order, as Go ranges over a map, then sorts each list. */
  method Attach(c: Collected, peers: map<Id, seq<Addr>>, last: nat) returns (drafts: seq<Route>)
    requires forall id | id in c.routeOf :: c.routeOf[id] < |c.routes|
    requires forall r | r in c.routes :: r.to == []
    ensures Attached(c, peers, last, drafts)
  {
    drafts := c.routes;
    var pending := peers.Keys;
    while pending != {}
      invariant pending <= peers.Keys
      invariant Reached(c, peers, last, peers.Keys - pending, drafts)
      decreases |pending|
    {
      var id :| id in pending;
      ghost var done := peers.Keys - pending;
      pending := pending - {id};
      assert peers.Keys - pending == done + {id};
      if id in c.routeOf {
        var i := c.routeOf[id];
        var r := AddPeers(drafts[i], c.routes[i], peers[id], last);
        ReachMore(c, peers, last, done, drafts, id, r);
        drafts := drafts[i := r];
      } else {
        assert forall i, a | 0 <= i < |drafts| :: IsPeer(a, c, peers, done + {id}, i) == IsPeer(a, c, peers, done, i);
      }
    }
    assert peers.Keys - pending == peers.Keys;
    drafts := SortAll(c, peers, last, drafts);
  }

  lemma ReachMore(c: Collected, peers: map<Id, seq<Addr>>, last: nat, done: set<Id>, drafts: seq<Route>, id: Id, r: Route)
    requires Reached(c, peers, last, done, drafts) && id in peers && id in c.routeOf && c.routeOf[id] < |drafts|
    requires Gathering(r, c.routes[c.routeOf[id]], last)
    requires forall a :: a in r.to <==>
      a in drafts[c.routeOf[id]].to || (a in peers[id] && a.v6 == c.routes[c.routeOf[id]].source.v6)
    ensures Reached(c, peers, last, done + {id}, drafts[c.routeOf[id] := r])
  {
    var next := drafts[c.routeOf[id] := r];
    forall i, a | 0 <= i < |next| ensures a in next[i].to <==> IsPeer(a, c, peers, done + {id}, i) {
      assert a in drafts[i].to <==> IsPeer(a, c, peers, done, i);
    }
  }

  // ---- Egress id order

  ghost predicate ById(routes: seq<Route>) {
    forall i, j | 0 <= i < j < |routes| :: routes[i].egress <= routes[j].egress
  }

  ghost predicate DistinctIds(routes: seq<Route>) {
    forall i, j | 0 <= i < j < |routes| :: routes[i].egress != routes[j].egress
  }

  ghost predicate IdsDetermine(routes: seq<Route>) {
    forall x, y | x in routes && y in routes :: x.egress == y.egress ==> x == y
  }

  ghost predicate IsSort(routes: seq<Route>, sorted: seq<Route>) {
    multiset(sorted) == multiset(routes) && ById(sorted)
  }

  function IdsOf(routes: seq<Route>): (ids: seq<Id>)
    ensures |ids| == |routes|
  {
    seq(|routes|, i requires 0 <= i < |routes| => routes[i].egress)
  }

  function Indices(n: nat): seq<nat> { seq(n, i => i) }

  /**
    What the library's sort makes of a sequence of ids: where each place is taken from. It looks
    at nothing but ids, so equal ids in equal places end in equal places; how it orders equal ids
    is not known.
  */
  ghost predicate IsOrder(order: seq<nat>, ids: seq<Id>) {
    && multiset(order) == multiset(Indices(|ids|))
    && (forall i | 0 <= i < |order| :: order[i] < |ids|)
    && (forall i, j | 0 <= i < j < |order| :: ids[order[i]] <= ids[order[j]])
  }

  function Pick(routes: seq<Route>, order: seq<nat>): (picked: seq<Route>)
    requires forall i | 0 <= i < |order| :: order[i] < |routes|
    ensures |picked| == |order|
  {
    seq(|order|, i requires 0 <= i < |order| => routes[order[i]])
  }

  /** What is left when one element is taken out. */
  function Without<T>(s: seq<T>, k: nat): seq<T>
    requires k < |s|
  {
    s[..k] + s[k + 1..]
  }

  lemma TakeOne<T>(s: seq<T>, k: nat)
    requires k < |s|
    ensures multiset(s) == multiset(Without(s, k)) + multiset{s[k]}
  {
    assert s == s[..k] + [s[k]] + s[k + 1..];
  }

  lemma CancelOne<T(!new)>(a: multiset<T>, b: multiset<T>, x: T)
    requires a + multiset{x} == b + multiset{x}
    ensures a == b
  {
    forall y ensures a[y] == b[y] {
      assert (a + multiset{x})[y] == (b + multiset{x})[y];
    }
  }

  /** Taking the same element out of two permutations leaves permutations. */
  lemma TakeOutBoth<T(!new)>(a: seq<T>, i: nat, b: seq<T>, j: nat)
    requires multiset(a) == multiset(b) && i < |a| && j < |b| && a[i] == b[j]
    ensures multiset(Without(a, i)) == multiset(Without(b, j))
  {
    TakeOne(a, i);
    TakeOne(b, j);
    CancelOne(multiset(Without(a, i)), multiset(Without(b, j)), a[i]);
  }

  lemma {:induction false} PickKeepsMultiset(routes: seq<Route>, a: seq<nat>, b: seq<nat>)
    requires multiset(a) == multiset(b)
    requires (forall i | 0 <= i < |a| :: a[i] < |routes|) && forall i | 0 <= i < |b| :: b[i] < |routes|
    ensures multiset(Pick(routes, a)) == multiset(Pick(routes, b))
    decreases |a|
  {
    SameLength(a, b);
    if a != [] {
      var k := WhereElse(a, b);
      TakeOutBoth(a, 0, b, k);
      PickKeepsMultiset(routes, Without(a, 0), Without(b, k));
      PickAgain(routes, a, 0, b, k);
    }
  }

  lemma PickAgain(routes: seq<Route>, a: seq<nat>, j: nat, b: seq<nat>, k: nat)
    requires j < |a| && k < |b| && a[j] == b[k]
    requires (forall i | 0 <= i < |a| :: a[i] < |routes|) && forall i | 0 <= i < |b| :: b[i] < |routes|
    requires multiset(Pick(routes, Without(a, j))) == multiset(Pick(routes, Without(b, k)))
    ensures multiset(Pick(routes, a)) == multiset(Pick(routes, b))
  {
    PickWithout(routes, a, j);
    PickWithout(routes, b, k);
  }

  lemma SameLength<T>(a: seq<T>, b: seq<T>)
    requires multiset(a) == multiset(b)
    ensures |a| == |b|
  {
    assert |multiset(a)| == |a| && |multiset(b)| == |b|;
  }

  lemma WhereElse(a: seq<nat>, b: seq<nat>) returns (k: nat)
    requires multiset(a) == multiset(b) && a != []
    ensures k < |b| && b[k] == a[0]
  {
    assert a[0] in multiset(a);
    assert a[0] in b;
    k :| 0 <= k < |b| && b[k] == a[0];
  }

  lemma PickWithout(routes: seq<Route>, order: seq<nat>, k: nat)
    requires k < |order| && forall i | 0 <= i < |order| :: order[i] < |routes|
    ensures multiset(Pick(routes, order)) == multiset(Pick(routes, Without(order, k))) + multiset{routes[order[k]]}
  {
    var left, right := Pick(routes, order[..k]), Pick(routes, order[k + 1..]);
    assert Pick(routes, order) == left + [routes[order[k]]] + right;
    assert Pick(routes, Without(order, k)) == left + right;
  }

  /** Rearranging by a sort's order is a sort. */
  lemma OrderSorts(routes: seq<Route>, order: seq<nat>)
    requires IsOrder(order, IdsOf(routes))
    ensures IsSort(routes, Pick(routes, order))
  {
    PickKeepsMultiset(routes, order, Indices(|routes|));
    assert Pick(routes, Indices(|routes|)) == routes;
  }

  method Rearrange(routes: seq<Route>, order: seq<nat>) returns (sorted: seq<Route>)
    requires IsOrder(order, IdsOf(routes))
    ensures sorted == Pick(routes, order) && IsSort(routes, sorted)
  {
    OrderSorts(routes, order);
    sorted := [];
    for i := 0 to |order|
      invariant |sorted| == i && forall k | 0 <= k < i :: sorted[k] == routes[order[k]]
    {
      sorted := sorted + [routes[order[i]]];
    }
  }

  lemma TakeOut(routes: seq<Route>, k: nat)
    requires k < |routes|
    ensures multiset(routes) == multiset(Without(routes, k)) + multiset{routes[k]}
    ensures multiset(Tables(routes)) == multiset(Tables(Without(routes, k))) + multiset{routes[k].table}
    ensures multiset(Priorities(routes)) == multiset(Priorities(Without(routes, k))) + multiset{routes[k].priority}
  {
    var left, right, rest := routes[..k], routes[k + 1..], Without(routes, k);
    assert routes == left + [routes[k]] + right;
    assert Tables(routes) == Tables(left) + [routes[k].table] + Tables(right);
    assert Priorities(routes) == Priorities(left) + [routes[k].priority] + Priorities(right);
    assert Tables(rest) == Tables(left) + Tables(right);
    assert Priorities(rest) == Priorities(left) + Priorities(right);
  }

  /** With distinct ids there is one way to sort. */
  lemma {:induction false} SortIsUnique(a: seq<Route>, b: seq<Route>)
    requires multiset(a) == multiset(b) && ById(a) && ById(b) && IdsDetermine(a)
    ensures a == b
  {
    SameLength(a, b);
    if a != [] {
      SameHead(a, b);
      TakeOutBoth(a, 0, b, 0);
      assert Without(a, 0) == a[1..] && Without(b, 0) == b[1..];
      SortIsUnique(a[1..], b[1..]);
    }
  }

  lemma SameHead(a: seq<Route>, b: seq<Route>)
    requires multiset(a) == multiset(b) && ById(a) && ById(b) && IdsDetermine(a) && a != [] && b != []
    ensures a[0] == b[0]
  {
    assert a[0] in multiset(a) && b[0] in multiset(b);
    assert a[0] in b && b[0] in a;
  }

  /** Sorting changes neither how many numbers are automatic nor which are pinned. */
  lemma {:induction false} SortKeepsNumbers(a: seq<Route>, b: seq<Route>)
    requires multiset(a) == multiset(b)
    ensures multiset(Tables(a)) == multiset(Tables(b)) && multiset(Priorities(a)) == multiset(Priorities(b))
  {
    SameLength(a, b);
    if a == [] {
      assert a == b;
    } else {
      assert a[0] in multiset(a);
      assert a[0] in b;
      var k :| 0 <= k < |b| && b[k] == a[0];
      TakeOut(a, 0);
      TakeOut(b, k);
      TakeOutBoth(a, 0, b, k);
      SortKeepsNumbers(Without(a, 0), Without(b, k));
    }
  }

  lemma {:induction false} AutoCountIsMultiplicity(pins: seq<nat>)
    ensures AutoCount(pins) == multiset(pins)[0]
  {
    if pins != [] {
      AutoCountIsMultiplicity(pins[..|pins| - 1]);
      assert pins == pins[..|pins| - 1] + [pins[|pins| - 1]];
    }
  }

  lemma SameNumbers(a: seq<nat>, b: seq<nat>)
    requires multiset(a) == multiset(b)
    ensures AutoCount(a) == AutoCount(b) && Pinned(a) == Pinned(b)
  {
    AutoCountIsMultiplicity(a);
    AutoCountIsMultiplicity(b);
    forall n ensures n in a <==> n in b {
      assert n in multiset(a) <==> n in multiset(b);
    }
  }

  // ---- Automatic numbers

  /** Where the search for a number stops: at one, past the range, or never. */
  datatype Search = Found(number: nat) | Exhausted | Forever

  /**
    The numbers the search comes by that are not used, in its order. The counter is a uint32, so
    past the largest number it goes on from 0.
  */
  function Candidates(first: nat, last: nat, used: set<nat>): seq<nat> {
    Free(first, last, used) + Lower(first, last, used)
  }

  function Lower(first: nat, last: nat, used: set<nat>): seq<nat> {
    if last == MAX_UINT32 && first > 0 then Free(0, first - 1, used) else []
  }

  function SearchOf(candidates: seq<nat>, last: nat): Search {
    if candidates != [] then Found(candidates[0]) else if last < MAX_UINT32 then Exhausted else Forever
  }

  /** The search as the loop makes it; once it has come by every number it goes on forever. */
  method Next(used: set<nat>, first: Uint32, last: Uint32) returns (result: Search)
    ensures result == SearchOf(Candidates(first, last, used), last)
  {
    var number: Uint32, wrapped := first, false;
    while number <= last
      invariant !wrapped ==> first <= number && Free(first, last, used) == Free(number, last, used)
      invariant wrapped ==> last == MAX_UINT32 && number < first && Free(first, last, used) == []
      invariant wrapped ==> Free(0, first - 1, used) == Free(number, first - 1, used)
      decreases !wrapped, if wrapped then first - number else last + 1 - number
    {
      if number !in used {
        return Found(number);
      }
      number := if number == MAX_UINT32 then 0 else number + 1;
      wrapped := wrapped || number == 0;
      if wrapped && number == first {
        return Forever;
      }
    }
    return Exhausted;
  }

  lemma {:induction false} FreeSkips(first: nat, last: nat, used: set<nat>, n: nat)
    requires !InRange(n, first, last)
    ensures Free(first, last, used + {n}) == Free(first, last, used)
    decreases last + 1 - first
  {
    if first <= last { FreeSkips(first + 1, last, used, n); }
  }

  lemma {:induction false} FreeTakes(first: nat, last: nat, used: set<nat>)
    requires Free(first, last, used) != []
    ensures var free := Free(first, last, used); Free(first, last, used + {free[0]}) == free[1..]
    decreases last + 1 - first
  {
    if first in used {
      FreeTakes(first + 1, last, used);
    } else {
      FreeSkips(first + 1, last, used, first);
    }
  }

  lemma LowerSkips(first: nat, last: nat, used: set<nat>, n: nat)
    requires n >= first
    ensures Lower(first, last, used + {n}) == Lower(first, last, used)
  {
    if first > 0 { FreeSkips(0, first - 1, used, n); }
  }

  lemma LowerTakes(first: nat, last: nat, used: set<nat>)
    requires Lower(first, last, used) != []
    ensures var lower := Lower(first, last, used); lower[0] < first && Lower(first, last, used + {lower[0]}) == lower[1..]
  {
    FreeTakes(0, first - 1, used);
    FreeHas(0, first - 1, used, Lower(first, last, used)[0]);
  }

  /** A number that is taken is the first candidate, and the others stay. */
  lemma CandidatesTake(first: nat, last: nat, used: set<nat>)
    requires Candidates(first, last, used) != []
    ensures var c := Candidates(first, last, used); Candidates(first, last, used + {c[0]}) == c[1..]
  {
    var free, lower, c := Free(first, last, used), Lower(first, last, used), Candidates(first, last, used);
    if free != [] {
      assert c[0] == free[0] && c[1..] == free[1..] + lower;
      FreeTakes(first, last, used);
      FreeHas(first, last, used, free[0]);
      LowerSkips(first, last, used, free[0]);
    } else {
      assert c == lower;
      LowerTakes(first, last, used);
      FreeSkips(first, last, used, lower[0]);
    }
  }

  /** The first k numbers are filled in from the candidates, and the next ones are left. */
  ghost predicate Filled(pins: seq<nat>, k: nat, base: set<nat>, first: nat, last: nat, used: set<nat>, numbers: seq<nat>)
    requires k <= |pins|
  {
    var c := Candidates(first, last, base);
    && AutoCount(pins[..k]) <= |c| && numbers == Assign(pins[..k], c)
    && Candidates(first, last, used) == c[AutoCount(pins[..k])..]
  }

  /** One number: the pin, or the next candidate. */
  method Number(ghost pins: seq<nat>, ghost k: nat, ghost base: set<nat>, ghost numbers: seq<nat>,
                pin: nat, used: set<nat>, first: Uint32, last: Uint32)
    returns (result: Search, after: set<nat>)
    requires k < |pins| && pin == pins[k] && Filled(pins, k, base, first, last, used, numbers)
    ensures result.Found? ==> Filled(pins, k + 1, base, first, last, after, numbers + [result.number])
    ensures !result.Found? ==> AutoCount(pins) > |Candidates(first, last, base)|
    ensures !result.Found? ==> result == if last < MAX_UINT32 then Exhausted else Forever
  {
    assert pins[..k + 1][..k] == pins[..k];
    if pin != 0 {
      return Found(pin), used;
    }
    result := Next(used, first, last);
    after := used;
    if result.Found? {
      CandidatesTake(first, last, used);
      after := used + {result.number};
    } else {
      AutoCountMonotone(pins, k + 1);
    }
  }

  /** The last number is kept for the rules of peer addresses. */
  function KeptPriorities(routes: seq<Route>, last: nat): set<nat> {
    {last} + Pinned(Priorities(routes))
  }

  /** Enough numbers of the range for everything that is automatic. */
  ghost predicate Fits(routes: seq<Route>, first: nat, last: nat) {
    && AutoCount(Tables(routes)) <= |Free(first, last, Pinned(Tables(routes)))|
    && AutoCount(Priorities(routes)) <= |Free(first, last, KeptPriorities(routes, last))|
  }

  /** Enough candidates, the ones outside the range included. */
  ghost predicate Reaches(routes: seq<Route>, first: nat, last: nat) {
    && AutoCount(Tables(routes)) <= |Candidates(first, last, Pinned(Tables(routes)))|
    && AutoCount(Priorities(routes)) <= |Candidates(first, last, KeptPriorities(routes, last))|
  }

  /** The routes with their numbers filled in from two lists. */
  ghost predicate NumberedFrom(sorted: seq<Route>, tables: seq<nat>, priorities: seq<nat>, routes: seq<Route>) {
    && AutoCount(Tables(sorted)) <= |tables| && AutoCount(Priorities(sorted)) <= |priorities|
    && |routes| == |sorted|
    && (forall i | 0 <= i < |routes| :: routes[i] == sorted[i].(table := routes[i].table, priority := routes[i].priority))
    && Tables(routes) == Assign(Tables(sorted), tables)
    && Priorities(routes) == Assign(Priorities(sorted), priorities)
  }

  /** As the search finds them. */
  ghost predicate Scanned(sorted: seq<Route>, first: nat, last: nat, routes: seq<Route>) {
    NumberedFrom(sorted, Candidates(first, last, Pinned(Tables(sorted))),
                 Candidates(first, last, KeptPriorities(sorted, last)), routes)
  }

  /** As they should be: the free numbers of the range in order. */
  ghost predicate Numbered(sorted: seq<Route>, first: nat, last: nat, routes: seq<Route>) {
    NumberedFrom(sorted, Free(first, last, Pinned(Tables(sorted))), Free(first, last, KeptPriorities(sorted, last)), routes)
  }

  datatype Outcome = Routed(routes: seq<Route>) | Refused(error: Error) | Endless

  method Fill(sorted: seq<Route>, tables: set<nat>, priorities: set<nat>, first: Uint32, last: Uint32)
    returns (result: Outcome)
    requires tables == Pinned(Tables(sorted)) && priorities == KeptPriorities(sorted, last)
    ensures result.Routed? <==> Reaches(sorted, first, last)
    ensures result.Routed? ==> Scanned(sorted, first, last, result.routes)
    ensures !result.Routed? ==> result == if last < MAX_UINT32 then Refused(Full) else Endless
  {
    var routes: seq<Route>, usedTables, usedPriorities := [], tables, priorities;
    for i := 0 to |sorted|
      invariant FilledSoFar(sorted, i, first, last, usedTables, usedPriorities, routes)
    {
      var stop, r;
      stop, r, usedTables, usedPriorities := FillOne(sorted, i, first, last, usedTables, usedPriorities, routes);
      if !stop.Found? {
        return if stop.Exhausted? then Refused(Full) else Endless;
      }
      routes := routes + [r];
    }
    AllFilled(sorted, first, last, usedTables, usedPriorities, routes);
    result := Routed(routes);
  }

  ghost predicate FilledSoFar(sorted: seq<Route>, i: nat, first: nat, last: nat, tables: set<nat>, priorities: set<nat>, routes: seq<Route>)
    requires i <= |sorted|
  {
    && |routes| == i
    && (forall k | 0 <= k < i :: routes[k] == sorted[k].(table := routes[k].table, priority := routes[k].priority))
    && Filled(Tables(sorted), i, Pinned(Tables(sorted)), first, last, tables, Tables(routes))
    && Filled(Priorities(sorted), i, KeptPriorities(sorted, last), first, last, priorities, Priorities(routes))
  }

  /** The table, then the priority of one route. */
  method FillOne(sorted: seq<Route>, i: nat, first: Uint32, last: Uint32, tables: set<nat>, priorities: set<nat>, ghost routes: seq<Route>)
    returns (stop: Search, r: Route, moreTables: set<nat>, morePriorities: set<nat>)
    requires i < |sorted| && FilledSoFar(sorted, i, first, last, tables, priorities, routes)
    ensures stop.Found? ==> FilledSoFar(sorted, i + 1, first, last, moreTables, morePriorities, routes + [r])
    ensures !stop.Found? ==> !Reaches(sorted, first, last) && stop == if last < MAX_UINT32 then Exhausted else Forever
  {
    r, moreTables, morePriorities := sorted[i], tables, priorities;
    stop, moreTables :=
      Number(Tables(sorted), i, Pinned(Tables(sorted)), Tables(routes), sorted[i].table, tables, first, last);
    if !stop.Found? {
      return;
    }
    var table := stop.number;
    stop, morePriorities :=
      Number(Priorities(sorted), i, KeptPriorities(sorted, last), Priorities(routes), sorted[i].priority, priorities, first, last);
    if !stop.Found? {
      return;
    }
    r := sorted[i].(table := table, priority := stop.number);
    OneMoreFilled(sorted, i, first, last, moreTables, morePriorities, routes, r);
  }

  lemma OneMoreFilled(sorted: seq<Route>, i: nat, first: nat, last: nat, tables: set<nat>, priorities: set<nat>, routes: seq<Route>, r: Route)
    requires i < |sorted| && |routes| == i && r == sorted[i].(table := r.table, priority := r.priority)
    requires forall k | 0 <= k < i :: routes[k] == sorted[k].(table := routes[k].table, priority := routes[k].priority)
    requires Filled(Tables(sorted), i + 1, Pinned(Tables(sorted)), first, last, tables, Tables(routes) + [r.table])
    requires Filled(Priorities(sorted), i + 1, KeptPriorities(sorted, last), first, last, priorities, Priorities(routes) + [r.priority])
    ensures FilledSoFar(sorted, i + 1, first, last, tables, priorities, routes + [r])
  {
    NumbersAppend(routes, r);
  }

  lemma NumbersAppend(routes: seq<Route>, r: Route)
    ensures Tables(routes + [r]) == Tables(routes) + [r.table]
    ensures Priorities(routes + [r]) == Priorities(routes) + [r.priority]
  {
  }

  lemma AllFilled(sorted: seq<Route>, first: nat, last: nat, tables: set<nat>, priorities: set<nat>, routes: seq<Route>)
    requires FilledSoFar(sorted, |sorted|, first, last, tables, priorities, routes)
    ensures Scanned(sorted, first, last, routes) && Reaches(sorted, first, last)
  {
    assert Tables(sorted)[..|sorted|] == Tables(sorted) && Priorities(sorted)[..|sorted|] == Priorities(sorted);
  }

  lemma {:induction false} AssignFromPrefix(pins: seq<nat>, free: seq<nat>, more: seq<nat>)
    requires AutoCount(pins) <= |free|
    ensures Assign(pins, free + more) == Assign(pins, free)
  {
    if pins != [] { AssignFromPrefix(pins[..|pins| - 1], free, more); }
  }

  /** When the range has enough numbers, the search never leaves it. */
  lemma ScanStaysInRange(sorted: seq<Route>, first: nat, last: nat, routes: seq<Route>)
    requires Fits(sorted, first, last)
    ensures Reaches(sorted, first, last)
    ensures Scanned(sorted, first, last, routes) <==> Numbered(sorted, first, last, routes)
  {
    var tables, priorities := Pinned(Tables(sorted)), KeptPriorities(sorted, last);
    AssignFromPrefix(Tables(sorted), Free(first, last, tables), Lower(first, last, tables));
    AssignFromPrefix(Priorities(sorted), Free(first, last, priorities), Lower(first, last, priorities));
  }

  /** One number past the top: with the only number of the range used, the search answers 0. */
  lemma SearchWrapsAround()
    ensures SearchOf(Candidates(MAX_UINT32, MAX_UINT32, {MAX_UINT32}), MAX_UINT32) == Found(0)
  {
    assert Free(MAX_UINT32, MAX_UINT32, {MAX_UINT32}) == [];
    assert Free(0, MAX_UINT32 - 1, {MAX_UINT32})[0] == 0;
  }

  lemma {:induction false} NthAutomatic(pins: seq<nat>, n: nat) returns (k: nat)
    requires n < AutoCount(pins)
    ensures k < |pins| && pins[k] == 0 && AutoCount(pins[..k]) == n
  {
    var before := pins[..|pins| - 1];
    if n < AutoCount(before) {
      k := NthAutomatic(before, n);
      assert before[..k] == pins[..k];
    } else {
      k := |pins| - 1;
    }
  }

  lemma PastTheTop(pins: seq<nat>, first: nat, used: set<nat>) returns (k: nat)
    requires |Free(first, MAX_UINT32, used)| < AutoCount(pins) <= |Candidates(first, MAX_UINT32, used)|
    ensures k < |pins| == |Assign(pins, Candidates(first, MAX_UINT32, used))|
    ensures Assign(pins, Candidates(first, MAX_UINT32, used))[k] < first
  {
    var free, lower := Free(first, MAX_UINT32, used), Lower(first, MAX_UINT32, used);
    k := NthAutomatic(pins, |free|);
    AssignAt(pins, Candidates(first, MAX_UINT32, used), k);
    assert Candidates(first, MAX_UINT32, used)[|free|] == lower[0];
    FreeHas(0, first - 1, used, lower[0]);
  }

  ghost predicate LeavesRange(routes: seq<Route>, first: nat) {
    exists i | 0 <= i < |routes| :: routes[i].table < first || routes[i].priority < first
  }

  /** In a range that ends at the largest number and is too small, some route gets a number below the range. */
  lemma TooSmallAtTheTop(sorted: seq<Route>, first: nat, routes: seq<Route>)
    requires Scanned(sorted, first, MAX_UINT32, routes) && !Fits(sorted, first, MAX_UINT32)
    ensures LeavesRange(routes, first)
  {
    if AutoCount(Tables(sorted)) > |Free(first, MAX_UINT32, Pinned(Tables(sorted)))| {
      var k := PastTheTop(Tables(sorted), first, Pinned(Tables(sorted)));
      assert routes[k].table == Tables(routes)[k];
    } else {
      var k := PastTheTop(Priorities(sorted), first, KeptPriorities(sorted, MAX_UINT32));
      assert routes[k].priority == Priorities(routes)[k];
    }
  }

  /** What a plan should be answered: its routes exactly when they fit the range, and full otherwise. */
  ghost predicate Proper(c: Collected, peers: map<Id, seq<Addr>>, order: seq<nat>, first: nat, last: nat, result: Outcome) {
    && (result.Routed? <==> Fits(c.routes, first, last))
    && (result.Routed? ==> IsAllocation(c, peers, order, first, last, result.routes))
    && (!result.Routed? ==> result == Refused(Full))
  }

  /** The whole allocation: peers attached, sorted, numbered. */
  ghost predicate Allocated(c: Collected, peers: map<Id, seq<Addr>>, order: seq<nat>, first: nat, last: nat,
                            drafts: seq<Route>, routes: seq<Route>) {
    && Attached(c, peers, last, drafts) && IsOrder(order, IdsOf(drafts))
    && Numbered(Pick(drafts, order), first, last, routes)
  }

  ghost predicate IsAllocation(c: Collected, peers: map<Id, seq<Addr>>, order: seq<nat>, first: nat, last: nat, routes: seq<Route>) {
    exists drafts :: Allocated(c, peers, order, first, last, drafts, routes)
  }

  /** The answer as the search makes it, of whatever range. */
  ghost predicate Answered(c: Collected, peers: map<Id, seq<Addr>>, order: seq<nat>, first: nat, last: nat,
                           drafts: seq<Route>, routes: seq<Route>) {
    && Attached(c, peers, last, drafts) && IsOrder(order, IdsOf(drafts))
    && Scanned(Pick(drafts, order), first, last, routes)
  }

  ghost predicate IsAnswer(c: Collected, peers: map<Id, seq<Addr>>, order: seq<nat>, first: nat, last: nat, routes: seq<Route>) {
    exists drafts :: Answered(c, peers, order, first, last, drafts, routes)
  }

  /** An answer for routes that do not fit goes below the range. */
  lemma AnswerLeavesRange(c: Collected, peers: map<Id, seq<Addr>>, order: seq<nat>, first: nat, last: nat, routes: seq<Route>)
    requires IsAnswer(c, peers, order, first, last, routes) && !Fits(c.routes, first, last) && last <= MAX_UINT32
    ensures last == MAX_UINT32 && LeavesRange(routes, first)
  {
    var drafts :| Answered(c, peers, order, first, last, drafts, routes);
    var sorted := Pick(drafts, order);
    OrderSorts(drafts, order);
    SameNeeds(c, peers, last, drafts, sorted);
    assert !Fits(sorted, first, last);
    if last == MAX_UINT32 {
      TooSmallAtTheTop(sorted, first, routes);
    }
  }

  /**
    The routes of a plan. `order` is what the library's sort makes of the collected ids. The first
    bad egress is the error, and the answer is the proper one exactly unless the range ends at the
    largest number and is too small; routes that are answered then go below the range.
  */
  method Routes(lines: seq<Line>, egresses: seq<Egress>, peers: map<Id, seq<Addr>>, order: seq<nat>, first: Uint32, last: Uint32)
    returns (result: Outcome)
    requires var collected := Collect(lines, egresses, first, last);
      collected.Ok? ==> IsOrder(order, IdsOf(collected.value.routes))
    ensures match Collect(lines, egresses, first, last)
      case Err(error) => result == Refused(error)
      case Ok(c) =>
        && (Proper(c, peers, order, first, last, result) <==> last < MAX_UINT32 || Fits(c.routes, first, last))
        && (result.Routed? <==> Reaches(c.routes, first, last))
        && (result.Routed? ==> IsAnswer(c, peers, order, first, last, result.routes))
        && (result.Routed? && !Fits(c.routes, first, last) ==> LeavesRange(result.routes, first))
        && (!result.Routed? ==> result == if last < MAX_UINT32 then Refused(Full) else Endless)
  {
    var collected, tables, priorities := Gather(lines, egresses, first, last);
    if collected.Err? {
      return Refused(collected.error);
    }
    var c := collected.value;
    CollectedShape(lines, egresses, first, last);
    var drafts := Attach(c, peers, last);
    assert IdsOf(drafts) == IdsOf(c.routes);
    var sorted := Rearrange(drafts, order);
    SameNeeds(c, peers, last, drafts, sorted);
    result := Fill(sorted, tables, priorities, first, last);
    ProperUnlessTop(c, peers, order, first, last, drafts, result);
    if result.Routed? {
      assert Answered(c, peers, order, first, last, drafts, result.routes);
      if !Fits(c.routes, first, last) {
        AnswerLeavesRange(c, peers, order, first, last, result.routes);
      }
    }
  }

  /** The sorted drafts need what the collected routes need. */
  lemma SameNeeds(c: Collected, peers: map<Id, seq<Addr>>, last: nat, drafts: seq<Route>, sorted: seq<Route>)
    requires Attached(c, peers, last, drafts) && IsSort(drafts, sorted)
    ensures AutoCount(Tables(sorted)) == AutoCount(Tables(c.routes)) && Pinned(Tables(sorted)) == Pinned(Tables(c.routes))
    ensures AutoCount(Priorities(sorted)) == AutoCount(Priorities(c.routes))
    ensures Pinned(Priorities(sorted)) == Pinned(Priorities(c.routes))
  {
    assert Tables(drafts) == Tables(c.routes) && Priorities(drafts) == Priorities(c.routes);
    SortKeepsNumbers(sorted, drafts);
    SameNumbers(Tables(sorted), Tables(c.routes));
    SameNumbers(Priorities(sorted), Priorities(c.routes));
  }

  lemma ProperUnlessTop(c: Collected, peers: map<Id, seq<Addr>>, order: seq<nat>, first: nat, last: nat,
                        drafts: seq<Route>, result: Outcome)
    requires Attached(c, peers, last, drafts) && IsOrder(order, IdsOf(drafts)) && last <= MAX_UINT32
    requires result.Routed? <==> Reaches(c.routes, first, last)
    requires result.Routed? ==> Scanned(Pick(drafts, order), first, last, result.routes)
    requires !result.Routed? ==> result == if last < MAX_UINT32 then Refused(Full) else Endless
    ensures Proper(c, peers, order, first, last, result) <==> last < MAX_UINT32 || Fits(c.routes, first, last)
  {
    var sorted := Pick(drafts, order);
    OrderSorts(drafts, order);
    SameNeeds(c, peers, last, drafts, sorted);
    if Fits(c.routes, first, last) {
      assert Fits(sorted, first, last);
      if result.Routed? {
        ScanStaysInRange(sorted, first, last, result.routes);
        assert Allocated(c, peers, order, first, last, drafts, result.routes);
      } else {
        ScanStaysInRange(sorted, first, last, []);
      }
    }
  }

  lemma CollectedShape(lines: seq<Line>, egresses: seq<Egress>, first: nat, last: nat)
    requires Collect(lines, egresses, first, last).Ok?
    ensures var c := Collect(lines, egresses, first, last).value;
      && (forall r | r in c.routes :: r.to == [] && r.toPriority == 0)
      && (forall id | id in c.routeOf :: c.routeOf[id] < |c.routes|)
  {
    var c := Collect(lines, egresses, first, last).value;
    forall r | r in c.routes ensures r.to == [] && r.toPriority == 0 {
      CollectedIsAsked(lines, egresses, first, last, r);
    }
    RouteOfInBounds(lines, egresses, first, last);
  }

  lemma {:induction false} RouteOfInBounds(lines: seq<Line>, egresses: seq<Egress>, first: nat, last: nat)
    requires Collect(lines, egresses, first, last).Ok?
    ensures var c := Collect(lines, egresses, first, last).value; forall id | id in c.routeOf :: c.routeOf[id] < |c.routes|
  {
    if egresses != [] {
      var before, e := egresses[..|egresses| - 1], egresses[|egresses| - 1];
      assert egresses == before + [e];
      CollectStep(lines, before, e, first, last);
      RouteOfInBounds(lines, before, first, last);
    }
  }

  // ---- What an allocation is

  ghost predicate Laid(c: Collected, peers: map<Id, seq<Addr>>, first: nat, last: nat,
                       drafts: seq<Route>, sorted: seq<Route>, routes: seq<Route>) {
    Attached(c, peers, last, drafts) && IsSort(drafts, sorted) && Numbered(sorted, first, last, routes)
  }

  lemma Unwrap(c: Collected, peers: map<Id, seq<Addr>>, order: seq<nat>, first: nat, last: nat, routes: seq<Route>)
    returns (drafts: seq<Route>, sorted: seq<Route>)
    requires IsAllocation(c, peers, order, first, last, routes)
    ensures Laid(c, peers, first, last, drafts, sorted, routes)
  {
    drafts :| Allocated(c, peers, order, first, last, drafts, routes);
    OrderSorts(drafts, order);
    sorted := Pick(drafts, order);
  }

  /**
    Pins are kept and in the range, automatic numbers are in the range and on no other
    route, and the last priority is never automatic.
  */
  lemma NumbersAreSound(lines: seq<Line>, egresses: seq<Egress>, peers: map<Id, seq<Addr>>, first: nat, last: nat,
                        c: Collected, drafts: seq<Route>, sorted: seq<Route>, routes: seq<Route>, i: nat)
    requires Collect(lines, egresses, first, last) == Ok(c) && Laid(c, peers, first, last, drafts, sorted, routes)
    requires i < |routes|
    ensures InRange(routes[i].table, first, last) && InRange(routes[i].priority, first, last)
    ensures sorted[i].table != 0 ==> routes[i].table == sorted[i].table
    ensures sorted[i].priority != 0 ==> routes[i].priority == sorted[i].priority
    ensures sorted[i].table == 0 ==> forall j | 0 <= j < |routes| && j != i :: routes[j].table != routes[i].table
    ensures sorted[i].priority == 0 ==> forall j | 0 <= j < |routes| && j != i :: routes[j].priority != routes[i].priority
    ensures sorted[i].priority == 0 ==> routes[i].priority != last
  {
    AssignIsExact(Tables(sorted), first, last, Pinned(Tables(sorted)), i);
    AssignIsExact(Priorities(sorted), first, last, {last} + Pinned(Priorities(sorted)), i);
    PinsInRange(lines, egresses, peers, first, last, c, drafts, sorted, i);
    assert forall j | 0 <= j < |routes| :: Tables(routes)[j] == routes[j].table && Priorities(routes)[j] == routes[j].priority;
  }

  lemma PinsInRange(lines: seq<Line>, egresses: seq<Egress>, peers: map<Id, seq<Addr>>, first: nat, last: nat,
                    c: Collected, drafts: seq<Route>, sorted: seq<Route>, i: nat)
    requires Collect(lines, egresses, first, last) == Ok(c) && Attached(c, peers, last, drafts) && IsSort(drafts, sorted)
    requires i < |sorted|
    ensures sorted[i].table != 0 ==> InRange(sorted[i].table, first, last)
    ensures sorted[i].priority != 0 ==> InRange(sorted[i].priority, first, last)
  {
    var _ := DraftOf(lines, egresses, peers, first, last, c, drafts, sorted, i);
  }

  /** The gateway an egress is routed through: its own, or its line's for the source's family. */
  function GatewayOf(lines: seq<Line>, e: Egress): Text {
    match e.gateway
    case Missing =>
      if e.source.Parsed? && e.source.addr.v6 then LineOf(lines, e.line).gateway6 else LineOf(lines, e.line).gateway4
    case _ => e.gateway
  }

  /** An egress that can be routed, or asks for no route. */
  ghost predicate Usable(lines: seq<Line>, e: Egress, first: nat, last: nat) {
    && !e.source.Malformed?
    && (e.source.Parsed? ==>
      && LineOf(lines, e.line).dev != 0
      && !GatewayOf(lines, e).Malformed?
      && (e.table == 0 || InRange(e.table, first, last))
      && (e.priority == 0 || InRange(e.priority, first, last)))
  }

  lemma RefusesUnusable(lines: seq<Line>, e: Egress, first: nat, last: nat)
    ensures AskOf(lines, e, first, last).Refuse? <==> !Usable(lines, e, first, last)
  {
  }

  lemma OneMoreOk(lines: seq<Line>, before: seq<Egress>, e: Egress, first: nat, last: nat)
    ensures Collect(lines, before + [e], first, last).Ok? <==>
      Collect(lines, before, first, last).Ok? && !AskOf(lines, e, first, last).Refuse?
  {
    assert (before + [e])[..|before|] == before;
  }

  /** The plan is refused exactly when some egress is not usable. */
  lemma {:induction false} RefusedIffUnusable(lines: seq<Line>, egresses: seq<Egress>, first: nat, last: nat)
    ensures Collect(lines, egresses, first, last).Ok? <==> forall e | e in egresses :: Usable(lines, e, first, last)
  {
    if egresses != [] {
      var before, e := egresses[..|egresses| - 1], egresses[|egresses| - 1];
      assert egresses == before + [e];
      RefusedIffUnusable(lines, before, first, last);
      OneMoreOk(lines, before, e, first, last);
      RefusesUnusable(lines, e, first, last);
      assert e in egresses && forall x | x in before :: x in egresses;
    }
  }

  /** What is wrong with an egress, the first thing first. */
  ghost predicate IsFault(lines: seq<Line>, e: Egress, first: nat, last: nat, error: Error) {
    match error
    case BadSource(id) => id == e.id && e.source.Malformed?
    case NoInterface(id) => id == e.id && e.source.Parsed? && LineOf(lines, e.line).dev == 0
    case BadGateway(id) => id == e.id && e.source.Parsed? && LineOf(lines, e.line).dev != 0 && GatewayOf(lines, e).Malformed?
    case OutsideRange(id) =>
      && id == e.id && e.source.Parsed? && LineOf(lines, e.line).dev != 0 && !GatewayOf(lines, e).Malformed?
      && !((e.table == 0 || InRange(e.table, first, last)) && (e.priority == 0 || InRange(e.priority, first, last)))
    case Full => false
  }

  /** The error is that of the first egress that is not usable. */
  lemma {:induction false} FirstFault(lines: seq<Line>, egresses: seq<Egress>, first: nat, last: nat) returns (k: nat)
    requires Collect(lines, egresses, first, last).Err?
    ensures k < |egresses| && IsFault(lines, egresses[k], first, last, Collect(lines, egresses, first, last).error)
    ensures forall j | 0 <= j < k :: Usable(lines, egresses[j], first, last)
  {
    var before, e := egresses[..|egresses| - 1], egresses[|egresses| - 1];
    if Collect(lines, before, first, last).Err? {
      k := FirstFault(lines, before, first, last);
      assert before[k] == egresses[k] && forall j | 0 <= j < k :: before[j] == egresses[j];
    } else {
      k := |before|;
      RefusedIffUnusable(lines, before, first, last);
      assert forall j | 0 <= j < k :: egresses[j] in before;
    }
  }

  /** The last line of an id counts; an unknown id has no interface. */
  lemma {:induction false} LastLineCounts(lines: seq<Line>, id: nat, i: nat)
    requires i <= |lines| && forall j | i < j < |lines| :: lines[j].id != id
    requires i < |lines| ==> lines[i].id == id
    ensures i < |lines| ==> LineOf(lines, id) == lines[i]
    ensures i == |lines| && (forall line | line in lines :: line.id != id) ==> LineOf(lines, id).dev == 0
  {
    if lines != [] && lines[|lines| - 1].id != id {
      LastLineCounts(lines[..|lines| - 1], id, if i < |lines| then i else |lines| - 1);
    }
  }

  /** A route leads out as the egress is configured and keeps what it pins. */
  ghost predicate Fulfils(r: Route, lines: seq<Line>, e: Egress)
    requires e.source.Parsed?
  {
    && r.source == e.source.addr && r.dev == LineOf(lines, e.line).dev
    && r.gateway == (if GatewayOf(lines, e).Parsed? then Via(GatewayOf(lines, e).addr) else OnLink)
    && (e.table != 0 ==> r.table == e.table)
    && (e.priority != 0 ==> r.priority == e.priority)
  }

  lemma WhereSorted(c: Collected, peers: map<Id, seq<Addr>>, last: nat, drafts: seq<Route>, sorted: seq<Route>, r: Route)
    returns (i: nat)
    requires Attached(c, peers, last, drafts) && IsSort(drafts, sorted) && r in c.routes
    ensures i < |sorted| && sorted[i] == r.(to := sorted[i].to, toPriority := sorted[i].toPriority)
  {
    var k :| 0 <= k < |c.routes| && c.routes[k] == r;
    assert drafts[k] in multiset(drafts);
    assert drafts[k] in sorted;
    i :| 0 <= i < |sorted| && sorted[i] == drafts[k];
  }

  /** Every egress with an address source has a route with its source, interface, gateway and pins. */
  lemma EveryEgressIsServed(lines: seq<Line>, egresses: seq<Egress>, peers: map<Id, seq<Addr>>, first: nat, last: nat,
                            c: Collected, order: seq<nat>, routes: seq<Route>, e: Egress)
    requires Collect(lines, egresses, first, last) == Ok(c) && IsAllocation(c, peers, order, first, last, routes)
    requires e in egresses && e.source.Parsed?
    ensures exists r | r in routes :: Fulfils(r, lines, e)
  {
    var drafts, sorted := Unwrap(c, peers, order, first, last, routes);
    RefusedIffUnusable(lines, egresses, first, last);
    var i := WhereServed(lines, egresses, peers, first, last, c, drafts, sorted, routes, e);
    ServesFulfils(lines, e, first, last, routes[i]);
  }

  lemma WhereServed(lines: seq<Line>, egresses: seq<Egress>, peers: map<Id, seq<Addr>>, first: nat, last: nat,
                    c: Collected, drafts: seq<Route>, sorted: seq<Route>, routes: seq<Route>, e: Egress) returns (i: nat)
    requires Collect(lines, egresses, first, last) == Ok(c) && Laid(c, peers, first, last, drafts, sorted, routes)
    requires e in egresses && AskOf(lines, e, first, last).Want?
    ensures i < |routes| && Serves(routes[i], AskOf(lines, e, first, last).route)
  {
    CollectServes(lines, egresses, first, last, e);
    var r :| r in c.routes && Serves(r, AskOf(lines, e, first, last).route);
    i := WhereSorted(c, peers, last, drafts, sorted, r);
    NumbersAreSound(lines, egresses, peers, first, last, c, drafts, sorted, routes, i);
  }

  lemma ServesFulfils(lines: seq<Line>, e: Egress, first: nat, last: nat, r: Route)
    requires AskOf(lines, e, first, last).Want? && Serves(r, AskOf(lines, e, first, last).route)
    ensures e.source.Parsed? && Fulfils(r, lines, e)
  {
  }

  /** The egress a sorted draft was made for. */
  lemma DraftOf(lines: seq<Line>, egresses: seq<Egress>, peers: map<Id, seq<Addr>>, first: nat, last: nat,
                c: Collected, drafts: seq<Route>, sorted: seq<Route>, i: nat) returns (e: Egress)
    requires Collect(lines, egresses, first, last) == Ok(c) && Attached(c, peers, last, drafts) && IsSort(drafts, sorted)
    requires i < |sorted|
    ensures e in egresses && AskOf(lines, e, first, last).Want? && e.id == sorted[i].egress
    ensures sorted[i] == AskOf(lines, e, first, last).route.(to := sorted[i].to, toPriority := sorted[i].toPriority)
  {
    assert sorted[i] in multiset(sorted);
    assert sorted[i] in drafts;
    var k :| 0 <= k < |drafts| && drafts[k] == sorted[i];
    CollectedIsAsked(lines, egresses, first, last, c.routes[k]);
    e :| e in egresses && AskOf(lines, e, first, last) == Want(c.routes[k]);
  }

  /** And no other route: each is the one an egress asked for, under that egress's id, with numbers of the range. */
  lemma EveryRouteIsAsked(lines: seq<Line>, egresses: seq<Egress>, peers: map<Id, seq<Addr>>, first: nat, last: nat,
                          c: Collected, order: seq<nat>, routes: seq<Route>, i: nat)
    requires Collect(lines, egresses, first, last) == Ok(c) && IsAllocation(c, peers, order, first, last, routes)
    requires i < |routes|
    ensures InRange(routes[i].table, first, last) && InRange(routes[i].priority, first, last)
    ensures exists e | e in egresses && e.source.Parsed? :: e.id == routes[i].egress && Fulfils(routes[i], lines, e)
  {
    var drafts, sorted := Unwrap(c, peers, order, first, last, routes);
    var e := DraftOf(lines, egresses, peers, first, last, c, drafts, sorted, i);
    NumbersAreSound(lines, egresses, peers, first, last, c, drafts, sorted, routes, i);
    ServesFulfils(lines, e, first, last, routes[i]);
  }

  /** Some egress of the route's id pins that table (or that priority). */
  ghost predicate PinsTable(egresses: seq<Egress>, r: Route) {
    exists e | e in egresses :: e.id == r.egress && e.table == r.table != 0
  }

  ghost predicate PinsPriority(egresses: seq<Egress>, r: Route) {
    exists e | e in egresses :: e.id == r.egress && e.priority == r.priority != 0
  }

  /** Two routes share a number only if both pin it, and the last priority is only ever pinned. */
  lemma OnlyPinsAreShared(lines: seq<Line>, egresses: seq<Egress>, peers: map<Id, seq<Addr>>, first: nat, last: nat,
                          c: Collected, order: seq<nat>, routes: seq<Route>, i: nat, j: nat)
    requires Collect(lines, egresses, first, last) == Ok(c) && IsAllocation(c, peers, order, first, last, routes)
    requires i < |routes| && j < |routes| && i != j
    ensures routes[i].table == routes[j].table ==> PinsTable(egresses, routes[i])
    ensures routes[i].priority == routes[j].priority ==> PinsPriority(egresses, routes[i])
    ensures routes[i].priority == last ==> PinsPriority(egresses, routes[i])
  {
    var drafts, sorted := Unwrap(c, peers, order, first, last, routes);
    var e := DraftOf(lines, egresses, peers, first, last, c, drafts, sorted, i);
    AskKeepsPins(lines, e, first, last);
    NumbersAreSound(lines, egresses, peers, first, last, c, drafts, sorted, routes, i);
  }

  lemma AskKeepsPins(lines: seq<Line>, e: Egress, first: nat, last: nat)
    requires AskOf(lines, e, first, last).Want?
    ensures var r := AskOf(lines, e, first, last).route; r.egress == e.id && r.table == e.table && r.priority == e.priority
  {
  }

  lemma IdsInSorted(c: Collected, peers: map<Id, seq<Addr>>, last: nat, drafts: seq<Route>, sorted: seq<Route>)
    requires Attached(c, peers, last, drafts) && IsSort(drafts, sorted) && DistinctIds(c.routes)
    ensures IdsDetermine(sorted)
  {
    forall x, y | x in sorted && y in sorted && x.egress == y.egress ensures x == y {
      assert x in multiset(sorted) && y in multiset(sorted);
      assert x in drafts && y in drafts;
    }
  }

  lemma SameLaid(c: Collected, first: nat, last: nat, sorted: seq<Route>, a: seq<Route>, b: seq<Route>)
    requires Numbered(sorted, first, last, a) && Numbered(sorted, first, last, b)
    ensures a == b
  {
    forall i | 0 <= i < |a| ensures a[i] == b[i] {
      assert a[i].table == Tables(a)[i] && b[i].table == Tables(b)[i];
      assert a[i].priority == Priorities(a)[i] && b[i].priority == Priorities(b)[i];
    }
  }

  /** For every plan, no order in which the peers are walked makes a difference. */
  lemma AllocationIsUnique(c: Collected, peers: map<Id, seq<Addr>>, order: seq<nat>, first: nat, last: nat, a: seq<Route>, b: seq<Route>)
    requires IsAllocation(c, peers, order, first, last, a) && IsAllocation(c, peers, order, first, last, b)
    ensures a == b
  {
    var drafts1 :| Allocated(c, peers, order, first, last, drafts1, a);
    var drafts2 :| Allocated(c, peers, order, first, last, drafts2, b);
    AttachedIsUnique(c, peers, last, drafts1, drafts2);
    SameLaid(c, first, last, Pick(drafts1, order), a, b);
  }

  /** With distinct egress ids no sort makes a difference either. */
  lemma AnySortGivesTheSame(c: Collected, peers: map<Id, seq<Addr>>, order1: seq<nat>, order2: seq<nat>, first: nat, last: nat,
                            a: seq<Route>, b: seq<Route>)
    requires IsAllocation(c, peers, order1, first, last, a) && IsAllocation(c, peers, order2, first, last, b)
    requires DistinctIds(c.routes)
    ensures a == b
  {
    var drafts1, sorted1 := Unwrap(c, peers, order1, first, last, a);
    var drafts2, sorted2 := Unwrap(c, peers, order2, first, last, b);
    AttachedIsUnique(c, peers, last, drafts1, drafts2);
    IdsInSorted(c, peers, last, drafts1, sorted1);
    SortIsUnique(sorted1, sorted2);
    SameLaid(c, first, last, sorted1, a, b);
  }

  /** Distinct egress ids in the plan give distinct ids among the routes. */
  lemma {:induction false} DistinctEgresses(lines: seq<Line>, egresses: seq<Egress>, first: nat, last: nat)
    requires Collect(lines, egresses, first, last).Ok?
    requires forall i, j | 0 <= i < j < |egresses| :: egresses[i].id != egresses[j].id
    ensures DistinctIds(Collect(lines, egresses, first, last).value.routes)
  {
    if egresses != [] {
      var before, e := egresses[..|egresses| - 1], egresses[|egresses| - 1];
      assert egresses == before + [e];
      CollectStep(lines, before, e, first, last);
      DistinctEgresses(lines, before, first, last);
      var routes := Collect(lines, before, first, last).value.routes;
      forall i | 0 <= i < |routes| ensures routes[i].egress != e.id {
        CollectedIsAsked(lines, before, first, last, routes[i]);
      }
    }
  }
}
