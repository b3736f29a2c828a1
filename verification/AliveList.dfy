/**
  The alive list from the control stream (api/agent/dataplane_alive.go): pages of one session
  and revision are buffered, and the last page puts the whole list in force.
*/
module AliveList {

  datatype Option<T> = None | Some(value: T)

  datatype Entry = Entry(user: nat, count: nat)

  datatype Event =
    | Page(session: nat, revision: nat, entries: seq<Entry>, last: bool)
    | End(session: nat)

  const MAX_ENTRIES := 10_000_000

  // ---- What a run of pages says

  predicate Counts(e: Entry) { e.user != 0 && e.count != 0 }

  /** Entries without a user or a count dropped, a later entry of a user winning. */
  function Fold(entries: seq<Entry>): map<nat, nat> {
    if entries == [] then map[]
    else
      var before, e := Fold(entries[..|entries| - 1]), entries[|entries| - 1];
      if Counts(e) then before[e.user := e.count] else before
  }

  /** Some entry finds the bound already reached. */
  predicate Over(entries: seq<Entry>) {
    entries != [] &&
    (Over(entries[..|entries| - 1]) || (Counts(entries[|entries| - 1]) && |Fold(entries[..|entries| - 1])| >= MAX_ENTRIES))
  }

  /** The last entry of a user that counts, from place i. */
  ghost predicate LastOf(entries: seq<Entry>, i: nat, user: nat) {
    i < |entries| && entries[i].user == user != 0 && entries[i].count != 0
      && forall j | i < j < |entries| :: !(entries[j].user == user && entries[j].count != 0)
  }

  /** A user has the count of its last entry that counts, and no other user is in the list. */
  lemma {:induction false} FoldIsLast(entries: seq<Entry>, user: nat)
    ensures user in Fold(entries) <==> exists i: nat :: LastOf(entries, i, user)
    ensures forall i: nat | LastOf(entries, i, user) :: user in Fold(entries) && Fold(entries)[user] == entries[i].count
  {
    if entries != [] {
      var before, n := entries[..|entries| - 1], |entries| - 1;
      FoldIsLast(before, user);
      if Counts(entries[n]) && entries[n].user == user {
        assert LastOf(entries, n, user);
      } else {
        forall i: nat ensures LastOf(entries, i, user) <==> LastOf(before, i, user) {
          assert i < n ==> entries[i] == before[i];
        }
      }
    }
  }

  /** The bound trips exactly when some entry with a user and a count comes to a full list. */
  lemma {:induction false} OverExactly(entries: seq<Entry>)
    ensures Over(entries) <==>
      exists k | 0 <= k < |entries| :: entries[k].user != 0 && entries[k].count != 0 && |Fold(entries[..k])| >= MAX_ENTRIES
  {
    if entries != [] {
      var before, n := entries[..|entries| - 1], |entries| - 1;
      OverExactly(before);
      assert forall k | 0 <= k <= n :: before[..k] == entries[..k];
      assert forall k | 0 <= k < n :: before[k] == entries[k];
      assert entries[..n] == before;
    }
  }

  /** The bound also trips on an entry of a user that is already in a full list. */
  lemma RepeatTripsTheBound(entries: seq<Entry>, e: Entry)
    requires |Fold(entries)| == MAX_ENTRIES && Counts(e) && e.user in Fold(entries)
    ensures Over(entries + [e]) && |Fold(entries + [e])| == MAX_ENTRIES
  {
    OneMore(entries, e);
    assert Fold(entries)[e.user := e.count].Keys == Fold(entries).Keys;
    assert |Fold(entries).Keys| == |Fold(entries)|;
    assert |Fold(entries + [e]).Keys| == |Fold(entries + [e])|;
  }

  /** Pages of one list. */
  predicate SameList(a: Event, b: Event) {
    a.Page? && b.Page? && a.session == b.session && a.revision == b.revision
  }

  /** From a on there are only pages of one list, none of them the last, and ends of other sessions. */
  ghost predicate Unbroken(history: seq<Event>, a: nat) {
    && a < |history| && history[a].Page?
    && forall i | a <= i < |history| ::
      if history[i].Page? then SameList(history[i], history[a]) && !history[i].last
      else history[i].session != history[a].session
  }

  /** The longest such run: the list being received. */
  ghost predicate Open(history: seq<Event>, a: nat) {
    Unbroken(history, a) && forall b | 0 <= b < a :: !Unbroken(history, b)
  }

  function EntriesOf(events: seq<Event>): seq<Entry> {
    if events == [] then []
    else
      var e := events[|events| - 1];
      EntriesOf(events[..|events| - 1]) + if e.Page? then e.entries else []
  }

  /** The entries of the list a page belongs to, that page included. */
  ghost function RunOf(history: seq<Event>, page: Event): seq<Entry>
    requires page.Page?
  {
    if exists a: nat :: Open(history, a) && SameList(history[a], page) then
      var a: nat :| Open(history, a) && SameList(history[a], page);
      EntriesOf(history[a..]) + page.entries
    else page.entries
  }

  /** The list in force: that of the latest last page whose run is within the bound. */
  ghost function InForce(history: seq<Event>): Option<map<nat, nat>> {
    if history == [] then None
    else
      var before, e := history[..|history| - 1], history[|history| - 1];
      if e.Page? && e.last && !Over(RunOf(before, e)) then Some(Fold(RunOf(before, e))) else InForce(before)
  }

  lemma OpenIsUnique(history: seq<Event>, a: nat, b: nat)
    requires Open(history, a) && Open(history, b)
    ensures a == b
  {
  }

  lemma {:induction false} OpenExists(history: seq<Event>, b: nat) returns (a: nat)
    requires Unbroken(history, b)
    ensures Open(history, a) && a <= b && history[b].Page? && SameList(history[a], history[b])
    decreases b
  {
    if c: nat :| c < b && Unbroken(history, c) {
      a := OpenExists(history, c);
      assert SameList(history[b], history[c]);
    } else {
      a := b;
    }
  }

  /** A page that is not the last goes on with its list, or opens one; nothing else stays open. */
  lemma OpenAfterPage(history: seq<Event>, page: Event)
    requires page.Page? && !page.last
    ensures forall a: nat | Open(history, a) && SameList(history[a], page) :: Open(history + [page], a)
    ensures (forall a: nat | Open(history, a) :: !SameList(history[a], page)) ==> Open(history + [page], |history|)
  {
    var next := history + [page];
    forall a: nat | a < |history| ensures Unbroken(next, a) <==> Unbroken(history, a) && SameList(history[a], page) {
      if Unbroken(history, a) && SameList(history[a], page) {
        forall i | a <= i < |next|
          ensures if next[i].Page? then SameList(next[i], next[a]) && !next[i].last else next[i].session != next[a].session
        {
          assert i < |history| ==> next[i] == history[i];
        }
      }
      if Unbroken(next, a) {
        assert next[|history|] == page;
        forall i | a <= i < |history|
          ensures if history[i].Page? then SameList(history[i], history[a]) && !history[i].last else history[i].session != history[a].session
        {
          assert next[i] == history[i];
        }
      }
    }
    assert Unbroken(next, |history|);
    if forall a: nat | Open(history, a) :: !SameList(history[a], page) {
      forall b: nat | b < |history| ensures !Unbroken(next, b) {
        if Unbroken(history, b) && SameList(history[b], page) {
          var _ := OpenExists(history, b);
        }
      }
    }
  }

  /** A last page closes its list, whatever came before. */
  lemma NoneAfterLast(history: seq<Event>, page: Event)
    requires page.Page? && page.last
    ensures forall a: nat :: !Open(history + [page], a)
  {
    assert (history + [page])[|history|] == page;
  }

  /** The end of a session breaks its own run only. */
  lemma OpenAfterEnd(history: seq<Event>, session: nat)
    ensures forall a: nat ::
      Open(history + [End(session)], a) <==> Open(history, a) && history[a].session != session
  {
    var next := history + [End(session)];
    forall a: nat ensures Unbroken(next, a) <==> Unbroken(history, a) && history[a].session != session {
      if Unbroken(next, a) {
        assert next[|history|] == End(session);
        assert forall i | a <= i < |history| :: next[i] == history[i];
      }
      if Unbroken(history, a) && history[a].session != session {
        assert forall i | a <= i < |history| :: next[i] == history[i];
      }
    }
    forall a: nat | Open(history, a) && history[a].session != session ensures Open(next, a) {
    }
    forall a: nat | Open(next, a) ensures Open(history, a) {
      var b := OpenExists(history, a);
      assert Unbroken(next, b);
    }
  }

  /** One more entry. */
  lemma OneMore(entries: seq<Entry>, e: Entry)
    ensures Over(entries + [e]) == (Over(entries) || (Counts(e) && |Fold(entries)| >= MAX_ENTRIES))
    ensures Fold(entries + [e]) == if Counts(e) then Fold(entries)[e.user := e.count] else Fold(entries)
  {
    assert (entries + [e])[..|entries|] == entries;
  }

  lemma {:induction false} OverStays(entries: seq<Entry>, more: seq<Entry>)
    requires Over(entries)
    ensures Over(entries + more)
  {
    if more == [] {
      assert entries + more == entries;
    } else {
      OverStays(entries, more[..|more| - 1]);
      assert (entries + more)[..|entries + more| - 1] == entries + more[..|more| - 1];
    }
  }

  lemma OverToTheEnd(taken: seq<Entry>, entries: seq<Entry>, k: nat)
    requires k <= |entries| && Over(taken + entries[..k])
    ensures Over(taken + entries)
  {
    OverStays(taken + entries[..k], entries[k..]);
    assert taken + entries[..k] + entries[k..] == taken + entries;
  }

  /** A page of the open run: the run goes on with its entries. */
  lemma PageGoesOn(history: seq<Event>, page: Event, a: nat)
    requires page.Page? && Open(history, a) && SameList(history[a], page)
    ensures RunOf(history, page) == EntriesOf(history[a..]) + page.entries
    ensures !page.last ==> Open(history + [page], a) && EntriesOf((history + [page])[a..]) == RunOf(history, page)
  {
    forall b: nat | Open(history, b) ensures a == b {
      OpenIsUnique(history, a, b);
    }
    if !page.last {
      OpenAfterPage(history, page);
    }
    var events := (history + [page])[a..];
    assert events[..|events| - 1] == history[a..] && events[|events| - 1] == page;
  }

  /** A page of any other list: a new run starts with it. */
  lemma PageOpens(history: seq<Event>, page: Event)
    requires page.Page? && forall a: nat | Open(history, a) :: !SameList(history[a], page)
    ensures RunOf(history, page) == page.entries
    ensures !page.last ==> Open(history + [page], |history|) && EntriesOf((history + [page])[|history|..]) == page.entries
  {
    if !page.last {
      OpenAfterPage(history, page);
    }
    var events := (history + [page])[|history|..];
    assert events == [page] && events[..0] == [];
  }

  /** The list being received, and whether it ran over the bound. */
  datatype Buffer = NoPages | Pages(session: nat, revision: nat, counts: map<nat, nat>, overflow: bool)

  /** The buffer holds the open run, or nothing when there is none. */
  ghost predicate Buffers(history: seq<Event>, start: nat, buffer: Buffer) {
    match buffer
    case NoPages => forall a: nat :: !Open(history, a)
    case Pages(session, revision, counts, overflow) =>
      && Open(history, start) && history[start].session == session && history[start].revision == revision
      && overflow == Over(EntriesOf(history[start..]))
      && (!overflow ==> counts == Fold(EntriesOf(history[start..])))
  }

  lemma EndKeepsBuffer(history: seq<Event>, start: nat, buffer: Buffer, ended: nat)
    requires Buffers(history, start, buffer)
    ensures Buffers(history + [End(ended)], start, if buffer.Pages? && buffer.session == ended then NoPages else buffer)
    ensures InForce(history + [End(ended)]) == InForce(history)
  {
    OpenAfterEnd(history, ended);
    assert (history + [End(ended)])[..|history|] == history;
    if buffer.Pages? {
      forall a: nat | Open(history, a) ensures a == start {
        OpenIsUnique(history, a, start);
      }
      var events := (history + [End(ended)])[start..];
      assert events[..|events| - 1] == history[start..] && events[|events| - 1] == End(ended);
      assert EntriesOf(events) == EntriesOf(history[start..]);
      assert (history + [End(ended)])[start] == history[start];
    }
  }

  /** The page goes on with the list in the buffer. */
  predicate Continues(buffer: Buffer, page: Event) {
    buffer.Pages? && page.Page? && buffer.session == page.session && buffer.revision == page.revision
  }

  /** Where the run of a page starts and what it held before the page. */
  lemma RunBefore(history: seq<Event>, start: nat, buffer: Buffer, page: Event) returns (taken: seq<Entry>, next: nat)
    requires Buffers(history, start, buffer) && page.Page?
    ensures Continues(buffer, page) ==>
      buffer.overflow == Over(taken) && (!buffer.overflow ==> buffer.counts == Fold(taken))
    ensures !Continues(buffer, page) ==> taken == []
    ensures RunOf(history, page) == taken + page.entries
    ensures !page.last ==> Open(history + [page], next) && SameList((history + [page])[next], page)
    ensures !page.last ==> EntriesOf((history + [page])[next..]) == RunOf(history, page)
  {
    if Continues(buffer, page) {
      PageGoesOn(history, page, start);
      taken, next := EntriesOf(history[start..]), start;
    } else {
      forall a: nat | Open(history, a) ensures !SameList(history[a], page) {
        if buffer.Pages? { OpenIsUnique(history, a, start); }
      }
      PageOpens(history, page);
      taken, next := [], |history|;
      assert taken + page.entries == page.entries;
    }
  }

  /** What a page leaves: its run buffered, or in force after the last page unless it is over the bound. */
  lemma AfterPage(history: seq<Event>, page: Event, next: nat, counts: map<nat, nat>, overflow: bool)
    requires page.Page? && overflow == Over(RunOf(history, page)) && (!overflow ==> counts == Fold(RunOf(history, page)))
    requires !page.last ==> Open(history + [page], next) && SameList((history + [page])[next], page)
    requires !page.last ==> EntriesOf((history + [page])[next..]) == RunOf(history, page)
    ensures Buffers(history + [page], next, if page.last then NoPages else Pages(page.session, page.revision, counts, overflow))
    ensures InForce(history + [page]) == if page.last && !overflow then Some(counts) else InForce(history)
  {
    assert (history + [page])[..|history|] == history;
    if page.last {
      NoneAfterLast(history, page);
    }
  }

  /** The alive-list part of the data plane. */
  class DataPlane {
    var buffer: Buffer
    /** The last complete list. */
    var list: Option<map<nat, nat>>
    /** The session that is connected. */
    var session: Option<nat>
    /** Everything received so far, and where the list being received starts. */
    ghost var history: seq<Event>
    ghost var start: nat

    /** The buffer holds the open run, and the list is the one in force. */
    ghost predicate Valid()
      reads this
    {
      list == InForce(history) && Buffers(history, start, buffer)
    }

    constructor ()
      ensures Valid() && history == [] && list == None
    {
      buffer, list, session, history, start := NoPages, None, None, [], 0;
    }

    /** The entries of one page, after those already taken. */
    static method Take(counts: map<nat, nat>, over: bool, entries: seq<Entry>, ghost taken: seq<Entry>)
      returns (filled: map<nat, nat>, overflow: bool)
      requires over == Over(taken) && (!over ==> counts == Fold(taken))
      ensures overflow == Over(taken + entries)
      ensures !overflow ==> filled == Fold(taken + entries)
    {
      filled, overflow := counts, over;
      assert taken + entries[..0] == taken;
      for k := 0 to |entries|
        invariant overflow == Over(taken + entries[..k])
        invariant !overflow ==> filled == Fold(taken + entries[..k])
      {
        OneMore(taken + entries[..k], entries[k]);
        assert taken + entries[..k + 1] == taken + entries[..k] + [entries[k]];
        if Counts(entries[k]) {
          if |filled| >= MAX_ENTRIES {
            overflow := true;
            OverToTheEnd(taken, entries, k + 1);
            return;
          }
          filled := filled[entries[k].user := entries[k].count];
        }
      }
      assert entries[..|entries|] == entries;
    }

    /** A page of a list. */
    method Receive(page: Event)
      requires Valid() && page.Page?
      modifies this
      ensures Valid() && history == old(history) + [page]
    {
      ghost var taken, next := RunBefore(history, start, buffer, page);
      if !Continues(buffer, page) {
        buffer := Pages(page.session, page.revision, map[], false);
      }
      var counts, overflow := Take(buffer.counts, buffer.overflow, page.entries, taken);
      AfterPage(history, page, next, counts, overflow);
      history, start := history + [page], next;
      if !page.last {
        buffer := Pages(page.session, page.revision, counts, overflow);
        return;
      }
      buffer := NoPages;
      if !overflow {
        list := Some(counts);
      }
    }

    /** A session is connected; a half-received list waits for its session's end or its next page. */
    method SessionStarted(id: nat)
      requires Valid()
      modifies this`session
      ensures Valid() && session == Some(id)
    {
      session := Some(id);
    }

    /** The end of the connected session drops what it did not finish; the end of any other is ignored. */
    method SessionEnded(id: nat)
      requires Valid()
      modifies this
      ensures Valid() && list == old(list)
      ensures history == if old(session) == Some(id) then old(history) + [End(id)] else old(history)
      ensures session == if old(session) == Some(id) then None else old(session)
    {
      if session != Some(id) {
        return;
      }
      EndKeepsBuffer(history, start, buffer, id);
      history := history + [End(id)];
      if buffer.Pages? && buffer.session == id {
        buffer := NoPages;
      }
      session := None;
    }
  }
}
