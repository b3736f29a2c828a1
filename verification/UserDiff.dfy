/**
  Incremental user changes (compareUserList in node/user.go, applyUserDiffLocked in
  node/task.go) against the limiter's user table (limiter/limiter.go).
*/
module UserDiff {

  datatype User = User(
    id: int, uuid: string, speed: int, device: int, peerIP: string, publicKey: string, presharedKey: string, ssKey: string)

  /** A row of the limiter's base table. */
  datatype Limits = Limits(uid: int, speed: int, device: int)

  function LimitsOf(u: User): Limits { Limits(u.id, u.speed, u.device) }

  // ---- The key

  function Digits(n: nat): (s: string)
    ensures s != "" && forall i | 0 <= i < |s| :: '0' <= s[i] <= '9'
  {
    var last := [('0' as int + n % 10) as char];
    if n < 10 then last else Digits(n / 10) + last
  }

  function Itoa(n: int): string {
    if n < 0 then "-" + Digits(-n) else Digits(n)
  }

  function Value(s: string): int {
    if s == "" then 0 else Value(s[..|s| - 1]) * 10 + (s[|s| - 1] as int - '0' as int)
  }

  lemma {:induction false} DigitsValue(n: nat)
    ensures Value(Digits(n)) == n
  {
    var s := Digits(n);
    if n >= 10 {
      DigitsValue(n / 10);
      assert s[..|s| - 1] == Digits(n / 10);
    } else {
      assert s[..|s| - 1] == "";
    }
  }

  lemma ItoaIsInjective(m: int, n: int)
    requires Itoa(m) == Itoa(n)
    ensures m == n
  {
    var s := Itoa(m);
    DigitsValue(if m < 0 then -m else m);
    DigitsValue(if n < 0 then -n else n);
    assert (s[0] == '-' <==> m < 0) && (s[0] == '-' <==> n < 0);
    if m < 0 {
      assert s[1..] == Digits(-m) && s[1..] == Digits(-n);
    }
  }

  const NUL: char := 0 as char

  predicate Clean(s: string) { NUL !in s }

  function Field(s: string, rest: string): string { s + [NUL] + rest }

  lemma FieldIsInjective(a: string, x: string, b: string, y: string)
    requires Clean(a) && Clean(b) && Field(a, x) == Field(b, y)
    ensures a == b && x == y
  {
    var s := Field(a, x);
    assert s[..|a|] == a && s[..|b|] == b;
    assert s[|a|] == NUL && s[|b|] == NUL;
    assert s[|a| + 1..] == x && s[|b| + 1..] == y;
  }

  lemma ItoaIsClean(n: int)
    ensures Clean(Itoa(n))
  {
  }

  /** What decides whether a user is kept: everything but the id. */
  function WireGuardKey(u: User): string { Field(u.peerIP, Field(u.publicKey, Field(u.presharedKey, u.ssKey))) }

  function Key(u: User): string { Field(u.uuid, Field(Itoa(u.speed), Field(Itoa(u.device), WireGuardKey(u)))) }

  predicate CleanUser(u: User) {
    Clean(u.uuid) && Clean(u.peerIP) && Clean(u.publicKey) && Clean(u.presharedKey)
  }

  /** For fields without NUL the key is exact: equal keys differ in the id at most. */
  lemma KeyIsExact(u: User, w: User)
    requires CleanUser(u) && CleanUser(w)
    ensures Key(u) == Key(w) <==> u == w.(id := u.id)
  {
    if Key(u) == Key(w) {
      ItoaIsClean(u.speed);
      ItoaIsClean(w.speed);
      ItoaIsClean(u.device);
      ItoaIsClean(w.device);
      var a, b := Field(Itoa(u.device), WireGuardKey(u)), Field(Itoa(w.device), WireGuardKey(w));
      FieldIsInjective(u.uuid, Field(Itoa(u.speed), a), w.uuid, Field(Itoa(w.speed), b));
      FieldIsInjective(Itoa(u.speed), a, Itoa(w.speed), b);
      FieldIsInjective(Itoa(u.device), WireGuardKey(u), Itoa(w.device), WireGuardKey(w));
      ItoaIsInjective(u.speed, w.speed);
      ItoaIsInjective(u.device, w.device);
      WireGuardKeyIsExact(u, w);
    }
  }

  lemma WireGuardKeyIsExact(u: User, w: User)
    requires CleanUser(u) && CleanUser(w) && WireGuardKey(u) == WireGuardKey(w)
    ensures u.peerIP == w.peerIP && u.publicKey == w.publicKey && u.presharedKey == w.presharedKey && u.ssKey == w.ssKey
  {
    var a, b := Field(u.presharedKey, u.ssKey), Field(w.presharedKey, w.ssKey);
    FieldIsInjective(u.peerIP, Field(u.publicKey, a), w.peerIP, Field(w.publicKey, b));
    FieldIsInjective(u.publicKey, a, w.publicKey, b);
    FieldIsInjective(u.presharedKey, u.ssKey, w.presharedKey, w.ssKey);
  }

  // ---- The table

  ghost predicate DistinctUuids(users: seq<User>) {
    forall i, j | 0 <= i < j < |users| :: users[i].uuid != users[j].uuid
  }

  ghost predicate CleanUsers(users: seq<User>) {
    forall u | u in users :: CleanUser(u)
  }

  function Added(table: map<string, Limits>, added: seq<User>): map<string, Limits> {
    if added == [] then table
    else Added(table, added[..|added| - 1])[added[|added| - 1].uuid := LimitsOf(added[|added| - 1])]
  }

  function Deleted(table: map<string, Limits>, deleted: seq<User>): map<string, Limits> {
    if deleted == [] then table else Deleted(table, deleted[..|deleted| - 1]) - {deleted[|deleted| - 1].uuid}
  }

  /** The table built for a list. */
  function Table(users: seq<User>): map<string, Limits> { Added(map[], users) }

  ghost predicate HasUuid(users: seq<User>, uuid: string) { exists u | u in users :: u.uuid == uuid }

  lemma HasUuidAppend(users: seq<User>, u: User, uuid: string)
    ensures HasUuid(users + [u], uuid) <==> HasUuid(users, uuid) || u.uuid == uuid
  {
    if HasUuid(users, uuid) {
      var w :| w in users && w.uuid == uuid;
      assert w in users + [u];
    }
    assert u in users + [u];
  }

  lemma {:induction false} DeletedAt(table: map<string, Limits>, deleted: seq<User>, uuid: string)
    ensures uuid in Deleted(table, deleted) <==> uuid in table && !HasUuid(deleted, uuid)
    ensures uuid in Deleted(table, deleted) ==> Deleted(table, deleted)[uuid] == table[uuid]
  {
    if deleted != [] {
      var before, last := deleted[..|deleted| - 1], deleted[|deleted| - 1];
      assert deleted == before + [last];
      DeletedAt(table, before, uuid);
      HasUuidAppend(before, last, uuid);
    }
  }

  /** A row is the one added for its uuid, and the old one where none was added. */
  lemma {:induction false} AddedAt(table: map<string, Limits>, added: seq<User>, uuid: string)
    requires OnePerUuid(added)
    ensures !HasUuid(added, uuid) ==>
      (uuid in Added(table, added) <==> uuid in table) && (uuid in table ==> Added(table, added)[uuid] == table[uuid])
    ensures forall u | u in added && u.uuid == uuid :: uuid in Added(table, added) && Added(table, added)[uuid] == LimitsOf(u)
  {
    if added != [] {
      var before, last := added[..|added| - 1], added[|added| - 1];
      assert added == before + [last];
      AddedAt(table, before, uuid);
      HasUuidAppend(before, last, uuid);
    }
  }

  ghost predicate OnePerUuid(users: seq<User>) {
    forall u, w | u in users && w in users :: u.uuid == w.uuid ==> u == w
  }

  /**
    Which rows survive: a user that is not added has its row from before, and a user that is not
    deleted is in the new list.
  */
  ghost predicate RowsKept(before: seq<User>, after: seq<User>, deleted: seq<User>, added: seq<User>) {
    && (forall n | n in after && n !in added :: HasRow(before, deleted, n))
    && (forall p | p in before && p !in deleted :: HasUuid(after, p.uuid))
  }

  ghost predicate HasRow(before: seq<User>, deleted: seq<User>, n: User) {
    exists p | p in before && p !in deleted :: p.uuid == n.uuid && LimitsOf(p) == LimitsOf(n)
  }

  /** The table of a list has the id and the limits of every user of it, and no other row. */
  lemma TableHasTheUsers(users: seq<User>, uuid: string)
    requires OnePerUuid(users)
    ensures uuid in Table(users) <==> HasUuid(users, uuid)
    ensures forall u | u in users && u.uuid == uuid ::
      uuid in Table(users) && Table(users)[uuid].uid == u.id && Table(users)[uuid].speed == u.speed && Table(users)[uuid].device == u.device
  {
    AddedAt(map[], users, uuid);
  }

  /** The row of one uuid after deleting and adding. */
  lemma RowAt(before: seq<User>, deleted: seq<User>, added: seq<User>, uuid: string)
    requires OnePerUuid(before) && OnePerUuid(added) && forall u | u in deleted :: u in before
    ensures var table := Added(Deleted(Table(before), deleted), added);
      && (uuid in table <==> HasUuid(added, uuid) || exists p | p in before && p !in deleted :: p.uuid == uuid)
      && (forall n | n in added && n.uuid == uuid :: uuid in table && table[uuid] == LimitsOf(n))
      && (!HasUuid(added, uuid) ==>
        forall p | p in before && p !in deleted && p.uuid == uuid :: uuid in table && table[uuid] == LimitsOf(p))
  {
    AddedAt(map[], before, uuid);
    DeletedAt(Table(before), deleted, uuid);
    AddedAt(Deleted(Table(before), deleted), added, uuid);
  }

  /** For all lists without a repeated uuid: the new table is the rebuilt one exactly when the rows are kept. */
  lemma DiffIsRebuild(before: seq<User>, after: seq<User>, deleted: seq<User>, added: seq<User>)
    requires OnePerUuid(before) && OnePerUuid(after)
    requires (forall u | u in added :: u in after) && forall u | u in deleted :: u in before
    ensures Added(Deleted(Table(before), deleted), added) == Table(after) <==> RowsKept(before, after, deleted, added)
  {
    var table := Added(Deleted(Table(before), deleted), added);
    if RowsKept(before, after, deleted, added) {
      forall uuid ensures uuid in table <==> uuid in Table(after)
        ensures uuid in table ==> table[uuid] == Table(after)[uuid]
      {
        RowIsRebuilt(before, after, deleted, added, uuid);
      }
    } else {
      var uuid := RowIsWrong(before, after, deleted, added);
    }
  }

  lemma RowIsRebuilt(before: seq<User>, after: seq<User>, deleted: seq<User>, added: seq<User>, uuid: string)
    requires OnePerUuid(before) && OnePerUuid(after) && RowsKept(before, after, deleted, added)
    requires (forall u | u in added :: u in after) && forall u | u in deleted :: u in before
    ensures var table := Added(Deleted(Table(before), deleted), added);
      (uuid in table <==> uuid in Table(after)) && (uuid in table ==> table[uuid] == Table(after)[uuid])
  {
    RowAt(before, deleted, added, uuid);
    AddedAt(map[], after, uuid);
    if n :| n in after && n.uuid == uuid {
      if n !in added {
        var p :| p in before && p !in deleted && p.uuid == n.uuid && LimitsOf(p) == LimitsOf(n);
        assert !HasUuid(added, uuid);
      }
    }
  }

  lemma RowIsWrong(before: seq<User>, after: seq<User>, deleted: seq<User>, added: seq<User>) returns (uuid: string)
    requires OnePerUuid(before) && OnePerUuid(after) && !RowsKept(before, after, deleted, added)
    requires (forall u | u in added :: u in after) && forall u | u in deleted :: u in before
    ensures var table := Added(Deleted(Table(before), deleted), added);
      (uuid in table) != (uuid in Table(after)) || (uuid in table && table[uuid] != Table(after)[uuid])
  {
    if n :| n in after && n !in added && !HasRow(before, deleted, n) {
      uuid := n.uuid;
      assert !HasUuid(added, uuid);
    } else {
      var p :| p in before && p !in deleted && !HasUuid(after, p.uuid);
      uuid := p.uuid;
    }
    RowAt(before, deleted, added, uuid);
    AddedAt(map[], after, uuid);
  }

  // ---- Comparing two lists

  function KeysOf(users: seq<User>): (keys: seq<string>)
    ensures |keys| == |users|
  {
    seq(|users|, i requires 0 <= i < |users| => Key(users[i]))
  }

  /** The i-th new user matches no old one, or its key came before. */
  ghost predicate NewAt(before: seq<User>, after: seq<User>, i: nat)
    requires i < |after|
  {
    KeysOf(after)[i] !in KeysOf(before) || KeysOf(after)[i] in KeysOf(after)[..i]
  }

  /** The i-th old user is matched by no new one, and is the last of its key. */
  ghost predicate GoneAt(before: seq<User>, after: seq<User>, i: nat)
    requires i < |before|
  {
    KeysOf(before)[i] !in KeysOf(after) && KeysOf(before)[i] !in KeysOf(before)[i + 1..]
  }

  ghost predicate New(before: seq<User>, after: seq<User>, u: User) {
    exists i | 0 <= i < |after| :: after[i] == u && NewAt(before, after, i)
  }

  ghost predicate Gone(before: seq<User>, after: seq<User>, u: User) {
    exists i | 0 <= i < |before| :: before[i] == u && GoneAt(before, after, i)
  }

  /** What comparing any two lists gives, in any order. */
  ghost predicate IsDiff(before: seq<User>, after: seq<User>, deleted: seq<User>, added: seq<User>) {
    && (forall u :: u in added <==> New(before, after, u))
    && (forall u :: u in deleted <==> Gone(before, after, u))
  }

  /**
    The exact condition on two lists: a new user that counts as unchanged has its row from an old
    one that stays, and an old user that stays is in the new list.
  */
  ghost predicate Keeps(before: seq<User>, after: seq<User>) {
    && (forall n | n in after && !New(before, after, n) ::
      exists p | p in before && !Gone(before, after, p) :: p.uuid == n.uuid && LimitsOf(p) == LimitsOf(n))
    && (forall p | p in before && !Gone(before, after, p) :: HasUuid(after, p.uuid))
  }

  /** Comparing, deleting and adding gives the rebuilt table exactly when the lists meet that condition. */
  lemma ComparedIsRebuild(before: seq<User>, after: seq<User>, deleted: seq<User>, added: seq<User>)
    requires OnePerUuid(before) && OnePerUuid(after) && IsDiff(before, after, deleted, added)
    ensures Added(Deleted(Table(before), deleted), added) == Table(after) <==> Keeps(before, after)
  {
    DiffIsRebuild(before, after, deleted, added);
    KeepsIsRowsKept(before, after, deleted, added);
  }

  lemma KeepsIsRowsKept(before: seq<User>, after: seq<User>, deleted: seq<User>, added: seq<User>)
    requires IsDiff(before, after, deleted, added)
    ensures Keeps(before, after) <==> RowsKept(before, after, deleted, added)
  {
    forall n | n in after && n !in added
      ensures HasRow(before, deleted, n) <==>
        exists p | p in before && !Gone(before, after, p) :: p.uuid == n.uuid && LimitsOf(p) == LimitsOf(n)
    {
    }
  }

  // ---- Lists without NUL

  /** A user that stays as it is keeps its id. */
  ghost predicate IdsKept(before: seq<User>, after: seq<User>) {
    forall o, n | o in before && n in after :: Key(o) == Key(n) ==> o.id == n.id
  }

  lemma KeyPlaces(users: seq<User>, i: nat, j: nat)
    requires DistinctUuids(users) && CleanUsers(users) && i < |users| && j < |users| && KeysOf(users)[i] == KeysOf(users)[j]
    ensures i == j
  {
    KeyIsExact(users[i], users[j]);
  }

  lemma CleanNew(before: seq<User>, after: seq<User>, i: nat)
    requires DistinctUuids(after) && CleanUsers(after) && i < |after|
    ensures New(before, after, after[i]) <==> Key(after[i]) !in KeysOf(before)
  {
    forall j | 0 <= j < |after| && after[j] == after[i] ensures j == i { KeyPlaces(after, i, j); }
    if KeysOf(after)[i] in KeysOf(after)[..i] {
      var j :| 0 <= j < i && KeysOf(after)[j] == KeysOf(after)[i];
      KeyPlaces(after, i, j);
    }
    assert NewAt(before, after, i) <==> Key(after[i]) !in KeysOf(before);
  }

  lemma CleanGone(before: seq<User>, after: seq<User>, i: nat)
    requires DistinctUuids(before) && CleanUsers(before) && i < |before|
    ensures Gone(before, after, before[i]) <==> Key(before[i]) !in KeysOf(after)
  {
    forall j | 0 <= j < |before| && before[j] == before[i] ensures j == i { KeyPlaces(before, i, j); }
    if KeysOf(before)[i] in KeysOf(before)[i + 1..] {
      var j :| i + 1 <= j < |before| && KeysOf(before)[j] == KeysOf(before)[i];
      KeyPlaces(before, i, j);
    }
    assert GoneAt(before, after, i) <==> Key(before[i]) !in KeysOf(after);
  }

  /** For users without NUL the condition is that the users that stay keep their ids. */
  lemma CleanKeeps(before: seq<User>, after: seq<User>)
    requires DistinctUuids(before) && DistinctUuids(after) && CleanUsers(before) && CleanUsers(after)
    ensures Keeps(before, after) <==> IdsKept(before, after)
  {
    if IdsKept(before, after) {
      forall n | n in after && !New(before, after, n)
        ensures exists p | p in before && !Gone(before, after, p) :: p.uuid == n.uuid && LimitsOf(p) == LimitsOf(n)
      {
        var p := Partner(before, after, n);
      }
      forall p | p in before && !Gone(before, after, p) ensures HasUuid(after, p.uuid) {
        StaysListed(before, after, p);
      }
    } else {
      var o, n :| o in before && n in after && Key(o) == Key(n) && o.id != n.id;
      ChangedIdBreaks(before, after, o, n);
    }
  }

  lemma StaysListed(before: seq<User>, after: seq<User>, p: User)
    requires DistinctUuids(before) && CleanUsers(before) && CleanUsers(after) && p in before && !Gone(before, after, p)
    ensures HasUuid(after, p.uuid)
  {
    var i :| 0 <= i < |before| && before[i] == p;
    CleanGone(before, after, i);
    var j :| 0 <= j < |after| && KeysOf(after)[j] == Key(p);
    KeyIsExact(p, after[j]);
  }

  lemma SameUuidSameUser(users: seq<User>, u: User, w: User)
    requires DistinctUuids(users) && u in users && w in users && u.uuid == w.uuid
    ensures u == w
  {
    var i, j :| 0 <= i < |users| && 0 <= j < |users| && users[i] == u && users[j] == w;
  }

  lemma CountsAsUnchanged(before: seq<User>, after: seq<User>, o: User, n: User)
    requires DistinctUuids(after) && CleanUsers(after) && o in before && n in after && Key(o) == Key(n)
    ensures !New(before, after, n)
  {
    var i :| 0 <= i < |before| && before[i] == o;
    assert KeysOf(before)[i] == Key(n);
    var j :| 0 <= j < |after| && after[j] == n;
    CleanNew(before, after, j);
  }

  lemma ChangedIdBreaks(before: seq<User>, after: seq<User>, o: User, n: User)
    requires DistinctUuids(before) && DistinctUuids(after) && CleanUsers(before) && CleanUsers(after)
    requires o in before && n in after && Key(o) == Key(n) && o.id != n.id
    ensures !Keeps(before, after)
  {
    KeyIsExact(o, n);
    CountsAsUnchanged(before, after, o, n);
    forall p | p in before && p.uuid == n.uuid ensures LimitsOf(p) != LimitsOf(n) {
      SameUuidSameUser(before, p, o);
    }
  }

  /** The old user with the key of a new one. */
  lemma Partner(before: seq<User>, after: seq<User>, n: User) returns (p: User)
    requires DistinctUuids(before) && DistinctUuids(after) && CleanUsers(before) && CleanUsers(after)
    requires IdsKept(before, after) && n in after && !New(before, after, n)
    ensures p in before && !Gone(before, after, p) && p.uuid == n.uuid && LimitsOf(p) == LimitsOf(n)
  {
    var j :| 0 <= j < |after| && after[j] == n;
    CleanNew(before, after, j);
    var i :| 0 <= i < |before| && KeysOf(before)[i] == Key(n);
    p := before[i];
    KeyIsExact(p, n);
    CleanGone(before, after, i);
    assert KeysOf(after)[j] == Key(p);
  }

  /** A kept user whose id changed stays in the table under the old id. */
  lemma ChangedIdIsLost(before: seq<User>, after: seq<User>, deleted: seq<User>, added: seq<User>, o: User, n: User)
    requires OnePerUuid(before) && OnePerUuid(after) && IsDiff(before, after, deleted, added)
    requires o in before && !Gone(before, after, o) && n in after && !New(before, after, n) && o.uuid == n.uuid && o.id != n.id
    ensures var table := Added(Deleted(Table(before), deleted), added);
      n.uuid in table && n.uuid in Table(after) && table[n.uuid].uid == o.id && Table(after)[n.uuid].uid == n.id
  {
    RowAt(before, deleted, added, n.uuid);
    AddedAt(map[], after, n.uuid);
    assert !HasUuid(added, n.uuid);
  }

  /** With a NUL in a field two users of different uuids have one key, and the table keeps the wrong one. */
  lemma NulKeepsTheWrongUser()
    ensures var u := User(1, "a", 1, 1, "0", "", "", [NUL]);
      var w := User(1, "a" + [NUL] + "1", 1, 0, "", "", "", "");
      IsDiff([u], [w], [], []) && Added(Deleted(Table([u]), []), []) != Table([w])
  {
    var u := User(1, "a", 1, 1, "0", "", "", [NUL]);
    var w := User(1, "a" + [NUL] + "1", 1, 0, "", "", "", "");
    CollidingKeys(u, w);
    assert KeysOf([u]) == [Key(u)] && KeysOf([w]) == [Key(w)];
    assert Key(u) in KeysOf([u]) && Key(w) in KeysOf([w]);
    assert KeysOf([w])[..0] == [];
    assert |u.uuid| != |w.uuid|;
    AddedAt(map[], [u], u.uuid);
    AddedAt(map[], [w], u.uuid);
    assert u in [u];
  }

  lemma CollidingKeys(u: User, w: User)
    requires u == User(1, "a", 1, 1, "0", "", "", [NUL]) && w == User(1, "a" + [NUL] + "1", 1, 0, "", "", "", "")
    ensures Key(u) == Key(w)
  {
    assert Itoa(1) == "1" && Itoa(0) == "0";
    assert WireGuardKey(u) == "0" + [NUL, NUL, NUL, NUL];
    assert WireGuardKey(w) == [NUL, NUL, NUL];
  }

  // ---- The comparison as the loops make it

  /** Where each key of a list last occurs. */
  ghost predicate IsIndex(index: map<string, nat>, keys: seq<string>) {
    && (forall key :: key in index <==> key in keys)
    && (forall key | key in index :: index[key] < |keys| && keys[index[key]] == key)
    && (forall key, j | key in index && index[key] < j < |keys| :: keys[j] != key)
  }

  method IndexKeys(keys: seq<string>) returns (index: map<string, nat>)
    ensures IsIndex(index, keys)
  {
    index := map[];
    for k := 0 to |keys|
      invariant IsIndex(index, keys[..k])
    {
      index := index[keys[k] := k];
      assert keys[..k + 1] == keys[..k] + [keys[k]];
    }
    assert keys[..|keys|] == keys;
  }

  /** The places of the keys that are not in the index, or came before. */
  ghost predicate AreUnknown(places: seq<nat>, index: map<string, nat>, keys: seq<string>) {
    forall i :: i in places <==> 0 <= i < |keys| && (keys[i] !in index || keys[i] in keys[..i])
  }

  /** Takes the new keys out of the index; a key that is not, or no longer, there is new. */
  method Match(index: map<string, nat>, keys: seq<string>) returns (left: map<string, nat>, unknown: seq<nat>)
    ensures left == map key | key in index && key !in keys :: index[key]
    ensures AreUnknown(unknown, index, keys)
  {
    left, unknown := index, [];
    for k := 0 to |keys|
      invariant left == map key | key in index && key !in keys[..k] :: index[key]
      invariant forall i :: i in unknown <==> 0 <= i < k && (keys[i] !in index || keys[i] in keys[..i])
    {
      if keys[k] !in left {
        unknown := unknown + [k];
      } else {
        left := left - {keys[k]};
      }
      assert keys[..k + 1] == keys[..k] + [keys[k]];
    }
    assert keys[..|keys|] == keys;
  }

  /** The places an index holds, in an arbitrary order, as Go ranges over a map. */
  method Places(index: map<string, nat>) returns (places: seq<nat>)
    ensures forall i :: i in places <==> exists key | key in index :: index[key] == i
  {
    places := [];
    var keys := index.Keys;
    while keys != {}
      invariant keys <= index.Keys
      invariant forall i :: i in places <==> exists key | key in index && key !in keys :: index[key] == i
      decreases |keys|
    {
      var key :| key in keys;
      places := places + [index[key]];
      keys := keys - {key};
    }
  }

  ghost predicate Picks(users: seq<User>, places: seq<nat>, list: seq<User>)
    requires forall j | 0 <= j < |places| :: places[j] < |users|
  {
    |list| == |places| && forall j | 0 <= j < |list| :: list[j] == users[places[j]]
  }

  /** The users at some places. */
  method Pick(users: seq<User>, places: seq<nat>) returns (list: seq<User>)
    requires forall j | 0 <= j < |places| :: places[j] < |users|
    ensures Picks(users, places, list)
  {
    list := [];
    for k := 0 to |places|
      invariant |list| == k && forall j | 0 <= j < k :: list[j] == users[places[j]]
    {
      list := list + [users[places[k]]];
    }
  }

  /** Comparing any two lists. */
  method CompareUserList(before: seq<User>, after: seq<User>) returns (deleted: seq<User>, added: seq<User>)
    ensures IsDiff(before, after, deleted, added)
  {
    var index := IndexKeys(KeysOf(before));
    var left, unknown := Match(index, KeysOf(after));
    UnknownInBounds(unknown, index, KeysOf(after));
    added := Pick(after, unknown);
    var places := Places(left);
    LeftInBounds(places, index, left, KeysOf(before));
    deleted := Pick(before, places);
    AddedAreNew(before, after, index, unknown, added);
    LeftAreDeleted(before, after, index, left, places, deleted);
  }

  lemma UnknownInBounds(places: seq<nat>, index: map<string, nat>, keys: seq<string>)
    requires AreUnknown(places, index, keys)
    ensures forall j | 0 <= j < |places| :: places[j] < |keys|
  {
    forall j | 0 <= j < |places| ensures places[j] < |keys| {
      assert places[j] in places;
    }
  }

  lemma LeftInBounds(places: seq<nat>, index: map<string, nat>, left: map<string, nat>, keys: seq<string>)
    requires IsIndex(index, keys) && (forall key | key in left :: key in index && left[key] == index[key])
    requires forall i :: i in places <==> exists key | key in left :: left[key] == i
    ensures forall j | 0 <= j < |places| :: places[j] < |keys|
  {
    forall j | 0 <= j < |places| ensures places[j] < |keys| {
      assert places[j] in places;
    }
  }

  lemma PickedAre(users: seq<User>, places: seq<nat>, list: seq<User>)
    requires (forall j | 0 <= j < |places| :: places[j] < |users|) && Picks(users, places, list)
    ensures forall u :: u in list <==> exists i | 0 <= i < |users| :: i in places && users[i] == u
  {
    forall i | 0 <= i < |users| && i in places ensures users[i] in list {
      var j :| 0 <= j < |places| && places[j] == i;
      assert list[j] == users[i];
    }
    forall u | u in list ensures exists i | 0 <= i < |users| :: i in places && users[i] == u {
      var j :| 0 <= j < |list| && list[j] == u;
      assert places[j] in places;
    }
  }

  lemma AddedAreNew(before: seq<User>, after: seq<User>, index: map<string, nat>, unknown: seq<nat>, added: seq<User>)
    requires IsIndex(index, KeysOf(before)) && AreUnknown(unknown, index, KeysOf(after))
    requires (forall j | 0 <= j < |unknown| :: unknown[j] < |after|) && Picks(after, unknown, added)
    ensures forall u :: u in added <==> New(before, after, u)
  {
    forall i | 0 <= i < |after| ensures i in unknown <==> NewAt(before, after, i) {
    }
    PickedAre(after, unknown, added);
  }

  lemma LeftAreDeleted(before: seq<User>, after: seq<User>, index: map<string, nat>, left: map<string, nat>,
                       places: seq<nat>, deleted: seq<User>)
    requires IsIndex(index, KeysOf(before))
    requires left == map key | key in index && key !in KeysOf(after) :: index[key]
    requires forall i :: i in places <==> exists key | key in left :: left[key] == i
    requires (forall j | 0 <= j < |places| :: places[j] < |before|) && Picks(before, places, deleted)
    ensures forall u :: u in deleted <==> Gone(before, after, u)
  {
    forall i | 0 <= i < |before| ensures i in places <==> GoneAt(before, after, i) {
      PlaceLeft(KeysOf(before), KeysOf(after), index, left, places, i);
    }
    PickedAre(before, places, deleted);
  }

  lemma PlaceLeft(before: seq<string>, after: seq<string>, index: map<string, nat>, left: map<string, nat>, places: seq<nat>, i: nat)
    requires i < |before| && IsIndex(index, before)
    requires left == map key | key in index && key !in after :: index[key]
    requires forall i :: i in places <==> exists key | key in left :: left[key] == i
    ensures i in places <==> before[i] !in after && before[i] !in before[i + 1..]
  {
    var key := before[i];
    assert key in index;
    if before[i] !in before[i + 1..] {
      forall j | i < j < |before| ensures before[j] != key {
        assert before[i + 1..][j - i - 1] == before[j];
      }
      assert index[key] == i;
      if key !in after {
        assert key in left && left[key] == i;
      }
    } else {
      var j :| i + 1 <= j < |before| && before[j] == key;
      assert index[key] >= j;
    }
  }

  // ---- The limiter and the running node

  class Limiter {
    /** The user limits and the ids, by uuid. */
    var table: map<string, Limits>
    var uids: map<string, int>
    var alive: map<int, int>

    /** The ids are those of the table. */
    ghost predicate Valid()
      reads this
    {
      uids == UidsOf(table)
    }

    constructor (users: seq<User>, alive: map<int, int>)
      ensures Valid() && table == Table(users) && this.alive == alive
    {
      this.table, this.uids, this.alive := map[], map[], alive;
      new;
      Store(users);
    }

    method Store(users: seq<User>)
      requires Valid()
      modifies this`table, this`uids
      ensures Valid() && table == Added(old(table), users)
    {
      for k := 0 to |users|
        invariant Valid() && table == Added(old(table), users[..k])
      {
        var u := users[k];
        assert users[..k + 1][..k] == users[..k];
        table := table[u.uuid := LimitsOf(u)];
        uids := uids[u.uuid := u.id];
      }
      assert users[..|users|] == users;
    }

    /** Deletes, then adds; the alive counts of deleted users go too. */
    method UpdateUser(added: seq<User>, deleted: seq<User>)
      requires Valid()
      modifies this
      ensures Valid() && table == Added(Deleted(old(table), deleted), added)
      ensures alive == old(alive) - (set u | u in deleted :: u.id)
    {
      for k := 0 to |deleted|
        invariant Valid() && table == Deleted(old(table), deleted[..k])
        invariant alive == old(alive) - (set u | u in deleted[..k] :: u.id)
      {
        var u := deleted[k];
        assert deleted[..k + 1][..k] == deleted[..k];
        assert deleted[..k + 1] == deleted[..k] + [u];
        table := table - {u.uuid};
        uids := uids - {u.uuid};
        alive := alive - {u.id};
      }
      assert deleted[..|deleted|] == deleted;
      Store(added);
    }
  }

  function UidsOf(table: map<string, Limits>): map<string, int> {
    map uuid | uuid in table :: table[uuid].uid
  }

  // ---- The node and its core

  ghost function UuidsOf(users: seq<User>): set<string> { set u | u in users :: u.uuid }

  /** Rows missing before are missing after, unless their users are added again. */
  lemma MissingRows(table: map<string, Limits>, missing: set<string>, deleted: seq<User>, added: seq<User>)
    requires OnePerUuid(added)
    ensures Added(Deleted(table - missing, deleted), added) == Added(Deleted(table, deleted), added) - (missing - UuidsOf(added))
  {
    var a, b := Added(Deleted(table - missing, deleted), added), Added(Deleted(table, deleted), added) - (missing - UuidsOf(added));
    forall uuid ensures uuid in a <==> uuid in b
      ensures uuid in a ==> a[uuid] == b[uuid]
    {
      DeletedAt(table, deleted, uuid);
      DeletedAt(table - missing, deleted, uuid);
      AddedAt(Deleted(table, deleted), added, uuid);
      AddedAt(Deleted(table - missing, deleted), added, uuid);
      assert uuid in UuidsOf(added) <==> HasUuid(added, uuid);
    }
  }

  /** Deleting rows of a table that already misses some. */
  lemma DeletedIsMissing(table: map<string, Limits>, missing: set<string>, deleted: seq<User>)
    ensures Deleted(table - missing, deleted) == table - (missing + UuidsOf(deleted))
  {
    var a, b := Deleted(table - missing, deleted), table - (missing + UuidsOf(deleted));
    forall uuid ensures uuid in a <==> uuid in b
      ensures uuid in a ==> a[uuid] == b[uuid]
    {
      DeletedAt(table - missing, deleted, uuid);
      assert uuid in UuidsOf(deleted) <==> HasUuid(deleted, uuid);
    }
  }

  /** Users of the new list that count as unchanged but are missing in the core. */
  ghost function Lost(before: seq<User>, after: seq<User>, missing: set<string>): set<string> {
    set n | n in after && !New(before, after, n) && n.uuid in missing :: n.uuid
  }

  lemma LostAreMissing(before: seq<User>, after: seq<User>, deleted: seq<User>, added: seq<User>, missing: set<string>)
    requires OnePerUuid(before) && OnePerUuid(after) && IsDiff(before, after, deleted, added) && Keeps(before, after)
    ensures Added(Deleted(Table(before) - missing, deleted), added) == Table(after) - Lost(before, after, missing)
  {
    ComparedIsRebuild(before, after, deleted, added);
    MissingRows(Table(before), missing, deleted, added);
    forall uuid | uuid in Table(after)
      ensures uuid in missing - UuidsOf(added) <==> uuid in Lost(before, after, missing)
    {
      LostOrAdded(before, after, added, missing, uuid);
    }
  }

  lemma LostOrAdded(before: seq<User>, after: seq<User>, added: seq<User>, missing: set<string>, uuid: string)
    requires OnePerUuid(after) && (forall u :: u in added <==> New(before, after, u)) && uuid in Table(after)
    ensures uuid in missing - UuidsOf(added) <==> uuid in Lost(before, after, missing)
  {
    AddedAt(map[], after, uuid);
    var n :| n in after && n.uuid == uuid;
    assert uuid in UuidsOf(added) <==> n in added;
  }

  /** Trying the same list again after a failure loses nobody: what was deleted does not count as unchanged. */
  lemma RetryLosesNobody(before: seq<User>, after: seq<User>, missing: set<string>)
    requires OnePerUuid(before) && Keeps(before, after)
    requires forall uuid | uuid in missing :: exists p | p in before && Gone(before, after, p) :: p.uuid == uuid
    ensures Lost(before, after, missing) == {}
  {
    forall n | n in after && !New(before, after, n) ensures n.uuid !in missing {
      var p :| p in before && !Gone(before, after, p) && p.uuid == n.uuid && LimitsOf(p) == LimitsOf(n);
    }
  }

  /** Going back to the old list after the deletion worked and the addition failed loses the deleted user. */
  lemma GoingBackLosesTheDeleted(a: User, b: User)
    requires CleanUser(a) && CleanUser(b) && a.uuid != b.uuid
    ensures Gone([a], [b], a) && IsDiff([a], [a], [], []) && Keeps([a], [a]) && Lost([a], [a], UuidsOf([a])) == {a.uuid}
  {
    assert [a][0] == a && [b][0] == b;
    KeyIsExact(a, b);
    CleanGone([a], [b], 0);
    CleanGone([a], [a], 0);
    CleanNew([a], [a], 0);
    assert KeysOf([a]) == [Key(a)] && KeysOf([b]) == [Key(b)];
    CleanKeeps([a], [a]);
    assert a in [a];
  }

  /** Places below a bound, in order. */
  ghost predicate Rising(places: seq<nat>, bound: nat) {
    (forall i | 0 <= i < |places| :: places[i] < bound) && forall i, j | 0 <= i < j < |places| :: places[i] < places[j]
  }

  lemma RisingGrows(places: seq<nat>, k: nat)
    requires Rising(places, k)
    ensures Rising(places, k + 1) && Rising(places + [k], k + 1)
  {
  }

  /** The list at the last of the places. */
  ghost function LastOf(lists: seq<seq<User>>, places: seq<nat>, before: seq<User>): seq<User>
    requires Rising(places, |lists|)
  {
    if places == [] then before else lists[places[|places| - 1]]
  }

  /** The running node's user list, its limiter and the users the core has. */
  class NodeUsers {
    var users: seq<User>
    var core: map<string, Limits>
    const limiter: Limiter
    /** The rows of the list that failed attempts deleted from the core. */
    ghost var missing: set<string>
    /** How many calls of the core failed. */
    ghost var faults: nat

    ghost predicate Valid()
      reads this, limiter
    {
      && limiter.Valid() && limiter.table == Table(users)
      && DistinctUuids(users) && core == Table(users) - missing
    }

    constructor (users: seq<User>, limiter: Limiter)
      requires limiter.Valid() && limiter.table == Table(users) && DistinctUuids(users)
      ensures Valid() && this.users == users && this.limiter == limiter && missing == {}
    {
      this.users, this.limiter, this.core, this.missing, this.faults := users, limiter, Table(users), {}, 0;
    }

    /** A call of the core works or fails. */
    method Call() returns (ok: bool)
      modifies this`faults
      ensures faults == if ok then old(faults) else old(faults) + 1
    {
      ok := *;
      if !ok {
        faults := faults + 1;
      }
    }

    /** Deletes in the core, then adds; either may fail, and what was deleted stays deleted. */
    method ChangeCore(deleted: seq<User>, added: seq<User>) returns (ok: bool)
      requires core == Table(users) - missing
      modifies this`core, this`missing, this`faults
      ensures faults == if ok then old(faults) else old(faults) + 1
      ensures deleted == [] && added == [] ==> ok
      ensures ok ==> core == Added(Deleted(old(core), deleted), added)
      ensures !ok ==> core == Table(users) - missing && old(missing) <= missing <= old(missing) + UuidsOf(deleted)
    {
      if deleted != [] {
        ok := Call();
        if !ok {
          return;
        }
        DeletedIsMissing(Table(users), missing, deleted);
        core, missing := Deleted(core, deleted), missing + UuidsOf(deleted);
      }
      if added != [] {
        ok := Call();
        if !ok {
          return;
        }
        core := Added(core, added);
      }
      ok := true;
    }

    /**
      Brings the node to a new list in place; a failure leaves the list and the limiter as they
      were. The limiter then has the table it would be built with exactly when the lists keep
      their rows, and the core has it too but for the users that earlier failures lost.
    */
    method ApplyUserDiff(after: seq<User>) returns (ok: bool)
      requires Valid() && DistinctUuids(after)
      modifies this`users, this`core, this`missing, this`faults, limiter
      ensures faults == if ok then old(faults) else old(faults) + 1
      ensures limiter.Valid() && DistinctUuids(users)
      ensures !ok ==> Valid() && users == old(users) && limiter.alive == old(limiter.alive)
      ensures !ok ==> forall uuid | uuid in missing :: uuid in old(missing) || exists p | p in users && Gone(users, after, p) :: p.uuid == uuid
      ensures ok ==> users == after && (limiter.table == Table(after) <==> Keeps(old(users), after))
      ensures ok && Keeps(old(users), after) ==> Valid() && missing == Lost(old(users), after, old(missing))
    {
      var deleted, added := CompareUserList(users, after);
      ghost var before, lost := users, missing;
      ComparedIsRebuild(users, after, deleted, added);
      ok := ChangeCore(deleted, added);
      if !ok {
        return;
      }
      if deleted != [] || added != [] {
        limiter.UpdateUser(added, deleted);
      }
      if Keeps(before, after) {
        LostAreMissing(before, after, deleted, added, lost);
      }
      missing := Lost(before, after, lost);
      users := after;
    }

    /** The same list until it works: then core and limiter both have the rebuilt table. */
    method KeepTrying(after: seq<User>, patience: nat) returns (ok: bool)
      requires Valid() && missing == {} && DistinctUuids(after) && Keeps(users, after)
      modifies this`users, this`core, this`missing, this`faults, limiter
      ensures limiter.Valid()
      ensures ok ==> users == after && core == Table(after) && limiter.table == Table(after)
      ensures !ok ==> users == old(users) && limiter.table == Table(users) && faults == old(faults) + patience
    {
      ok := false;
      var left := patience;
      while !ok && left > 0
        invariant 0 <= left && (!ok ==> faults == old(faults) + patience - left)
        invariant ok ==> Valid() && users == after && missing == {}
        invariant !ok ==> Valid() && users == old(users)
        invariant !ok ==> forall uuid | uuid in missing :: exists p | p in users && Gone(users, after, p) :: p.uuid == uuid
      {
        RetryLosesNobody(users, after, missing);
        ok := ApplyUserDiff(after);
        left := left - 1;
      }
    }

    /**
      Over any lists that keep their rows, the limiter stays the one a rebuild would give, and the
      node's list is the last one that was applied. `applied` is where those are.
    */
    method Follow(lists: seq<seq<User>>) returns (applied: seq<nat>)
      requires Valid()
      requires forall list | list in lists :: DistinctUuids(list)
      requires forall a, b | (a == users || a in lists) && b in lists :: Keeps(a, b)
      modifies this`users, this`core, this`missing, this`faults, limiter
      ensures Valid() && limiter.table == Table(users)
      ensures Rising(applied, |lists|)
      ensures users == LastOf(lists, applied, old(users))
      ensures faults == old(faults) + |lists| - |applied|
    {
      applied := [];
      for k := 0 to |lists|
        invariant Valid() && Rising(applied, k) && Rising(applied, |lists|) && users == LastOf(lists, applied, old(users))
        invariant users == old(users) || users in lists
        invariant faults == old(faults) + k - |applied|
      {
        var ok := ApplyUserDiff(lists[k]);
        RisingGrows(applied, k);
        if ok {
          applied := applied + [k];
        }
      }
    }
  }
}
