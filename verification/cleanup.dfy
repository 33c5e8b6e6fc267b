/** Removing what a deleted tenant or user leaves behind: by the daemon as the events arrive
    (`plugins/subscription/service.py`) and offline by `wazo_webhookd/bin/sync_db.py`. */
module Cleanup {
  import opened Rows
  import opened Store
  import opened Service
  import opened Runs

  predicate Known(user: Option<string>, users: set<string>) {
    Truthy(user) ==> user.value in users
  }

  function OfTenants(tenants: set<string>): Row -> bool {
    (row: Row) => row.ownerTenant in tenants
  }

  function OfUsers(users: set<string>): Row -> bool {
    (row: Row) => Known(row.ownerUser, users) && Known(row.eventsUser, users)
  }

  function NotOfTenant(tenant: string): Row -> bool {
    (row: Row) => row.ownerTenant != tenant
  }

  function NotOfUser(user: string): Row -> bool {
    (row: Row) => row.ownerUser != Some(user) && row.eventsUser != Some(user)
  }

  function NotAmong(uuids: seq<string>): Row -> bool {
    (row: Row) => row.uuid !in uuids
  }

  // ----- offline

  class Session {
    var rows: seq<Row>

    constructor (rows: seq<Row>)
      ensures this.rows == rows
    {
      this.rows := rows;
    }

    method RemoveTenant(tenant: string)
      modifies this
      ensures rows == Where(old(rows), NotOfTenant(tenant))
    {
      rows := Where(rows, NotOfTenant(tenant));
    }

    method RemoveUser(user: string)
      modifies this
      ensures rows == Where(old(rows), NotOfUser(user))
    {
      rows := Where(rows, NotOfUser(user));
    }

    /** Keeps exactly the rows of known tenants, in whatever order the unknown ones are gone through. */
    method RemoveTenants(authTenants: set<string>)
      modifies this
      ensures rows == Where(old(rows), OfTenants(authTenants))
    {
      var webhookdTenants := set row | row in rows :: row.ownerTenant;
      var rest := webhookdTenants - authTenants;
      WhereCongruent(rows, OfTenants(authTenants + rest), (row: Row) => true);
      WhereAll(rows);
      while rest != {}
        invariant rest !! authTenants && rest <= webhookdTenants
        invariant rows == Where(old(rows), OfTenants(authTenants + rest))
        decreases rest
      {
        var tenant :| tenant in rest;
        RemoveTenant(tenant);
        WhereTwice(old(rows), OfTenants(authTenants + rest), NotOfTenant(tenant),
                   OfTenants(authTenants + (rest - {tenant})));
        rest := rest - {tenant};
      }
      assert authTenants + rest == authTenants;
    }

    /** Keeps exactly the rows whose owner and whose watched user are each absent, empty or known. */
    method RemoveUsers(authUsers: set<string>)
      modifies this
      ensures rows == Where(old(rows), OfUsers(authUsers))
    {
      var owners := set row | row in rows && Truthy(row.ownerUser) :: row.ownerUser.value;
      var watched := set row | row in rows && Truthy(row.eventsUser) :: row.eventsUser.value;
      var rest := (owners + watched) - authUsers;
      WhereCongruent(rows, OfUsers(authUsers + rest), (row: Row) => true);
      WhereAll(rows);
      while rest != {}
        invariant rest !! authUsers && "" !in rest
        invariant rows == Where(old(rows), OfUsers(authUsers + rest))
        decreases rest
      {
        var user :| user in rest;
        RemoveUser(user);
        WhereTwice(old(rows), OfUsers(authUsers + rest), NotOfUser(user), OfUsers(authUsers + (rest - {user})));
        rest := rest - {user};
      }
      assert authUsers + rest == authUsers;
    }
  }

  lemma {:induction false} WhereCongruent(rows: seq<Row>, p: Row -> bool, q: Row -> bool)
    requires forall row :: row in rows ==> p(row) == q(row)
    ensures Where(rows, p) == Where(rows, q)
  {
    if rows != [] {
      assert rows == [rows[0]] + rows[1..];
      WhereCongruent(rows[1..], p, q);
    }
  }

  lemma {:induction false} WhereAll(rows: seq<Row>)
    ensures Where(rows, (row: Row) => true) == rows
  {
    if rows != [] {
      WhereAll(rows[1..]);
    }
  }

  lemma {:induction false} WhereTwice(rows: seq<Row>, p: Row -> bool, q: Row -> bool, both: Row -> bool)
    requires forall row :: both(row) <==> p(row) && q(row)
    ensures Where(Where(rows, p), q) == Where(rows, both)
  {
    if rows != [] {
      var tail := Where(rows[1..], p);
      WhereTwice(rows[1..], p, q, both);
      assert ([rows[0]] + tail)[1..] == tail && [] + tail == tail;
    }
  }

  function Synced(rows: seq<Row>, tenants: set<string>, users: set<string>): seq<Row> {
    Where(Where(rows, OfTenants(tenants)), OfUsers(users))
  }

  /** A known tenant, and an owner and a watched user each absent, empty or known. */
  predicate Kept(row: Row, tenants: set<string>, users: set<string>) {
    && row.ownerTenant in tenants
    && (row.ownerUser == None || row.ownerUser == Some("") || row.ownerUser.value in users)
    && (row.eventsUser == None || row.eventsUser == Some("") || row.eventsUser.value in users)
  }

  /** The whole synchronisation is one exact filter, and running it again changes nothing. */
  lemma SyncIsExactFilter(rows: seq<Row>, tenants: set<string>, users: set<string>)
    ensures forall row :: row in Synced(rows, tenants, users) <==> row in rows && Kept(row, tenants, users)
    ensures Synced(Synced(rows, tenants, users), tenants, users) == Synced(rows, tenants, users)
  {
    var once := Synced(rows, tenants, users);
    forall row ensures row in once <==> row in rows && Kept(row, tenants, users) {
      WhereMember(Where(rows, OfTenants(tenants)), OfUsers(users), row);
      WhereMember(rows, OfTenants(tenants), row);
    }
    WhereCongruent(once, OfTenants(tenants), (row: Row) => true);
    WhereCongruent(once, OfUsers(users), (row: Row) => true);
    WhereAll(once);
  }

  // ----- live

  lemma ConsAppend(keep: bool, x: Row, p: seq<Row>, q: seq<Row>, all: seq<Row>, part: seq<Row>)
    requires all == (if keep then [x] + (p + q) else p + q) && part == if keep then [x] + p else p
    ensures all == part + q
  {
  }

  lemma {:induction false} WhereSplit(a: seq<Row>, b: seq<Row>, keep: Row -> bool)
    ensures Where(a + b, keep) == Where(a, keep) + Where(b, keep)
  {
    if a == [] {
      assert a + b == b;
    } else {
      var x, rest := a[0], a[1..];
      assert [x] + rest == a && [x] + (rest + b) == a + b;
      WhereSplit(rest, b, keep);
      WhereCons(x, rest, keep);
      WhereCons(x, rest + b, keep);
      ConsAppend(keep(x), x, Where(rest, keep), Where(b, keep), Where(a + b, keep), Where(a, keep));
    }
  }

  lemma WithoutAbsent(rows: seq<Row>, uuid: string)
    requires forall row :: row in rows ==> row.uuid != uuid
    ensures Where(rows, NotAmong([uuid])) == rows
  {
    WhereCongruent(rows, NotAmong([uuid]), (row: Row) => true);
    WhereAll(rows);
  }

  lemma WithoutFirst(x: Row, after: seq<Row>)
    requires forall row :: row in after ==> row.uuid != x.uuid
    ensures Where([x] + after, NotAmong([x.uuid])) == after
  {
    WithoutAbsent(after, x.uuid);
    assert ([x] + after)[1..] == after && [] + after == after;
  }

  lemma WithoutMiddle(before: seq<Row>, x: Row, after: seq<Row>)
    requires forall row :: row in before || row in after ==> row.uuid != x.uuid
    ensures Where(before + ([x] + after), NotAmong([x.uuid])) == before + after
  {
    WhereSplit(before, [x] + after, NotAmong([x.uuid]));
    WithoutAbsent(before, x.uuid);
    WithoutFirst(x, after);
  }

  lemma OthersApart(rows: seq<Row>, p: nat)
    requires UniqueUuids(rows) && p < |rows|
    ensures forall row :: row in rows[..p] || row in rows[p + 1..] ==> row.uuid != rows[p].uuid
    ensures rows == rows[..p] + ([rows[p]] + rows[p + 1..])
  {
    forall row | row in rows[p + 1..] ensures row.uuid != rows[p].uuid {
      var i :| 0 <= i < |rows| - p - 1 && rows[p + 1..][i] == row;
      assert rows[p + 1 + i] == row;
    }
  }

  function Without(ls: Listening, uuids: seq<string>): Listening {
    map u | u in ls && u !in uuids :: ls[u]
  }

  lemma WithoutAt(rows: seq<Row>, p: nat)
    requires UniqueUuids(rows) && p < |rows|
    ensures Where(rows, NotAmong([rows[p].uuid])) == rows[..p] + rows[p + 1..]
  {
    OthersApart(rows, p);
    WithoutMiddle(rows[..p], rows[p], rows[p + 1..]);
  }

  lemma DeletedRows(s: System, uuid: string)
    requires UniqueUuids(s.rows)
    ensures Deleted(s, uuid, [], None).next.rows == Where(s.rows, NotAmong([uuid]))
  {
    var p := Position(s.rows, uuid);
    if p == |s.rows| {
      PositionFound(s.rows, uuid);
      WithoutAbsent(s.rows, uuid);
    } else {
      WithoutAt(s.rows, p);
    }
  }

  lemma UniqueCons(x: Row, rest: seq<Row>)
    requires UniqueUuids(rest) && forall row :: row in rest ==> row.uuid != x.uuid
    ensures UniqueUuids([x] + rest)
  {
    var all := [x] + rest;
    forall i, j | 0 <= i < j < |all| ensures all[i].uuid != all[j].uuid {
      assert all[j] == rest[j - 1];
      if i > 0 { assert all[i] == rest[i - 1]; }
    }
  }

  lemma {:induction false} WhereUnique(rows: seq<Row>, keep: Row -> bool)
    requires UniqueUuids(rows)
    ensures UniqueUuids(Where(rows, keep))
  {
    if rows != [] {
      var x, rest := rows[0], rows[1..];
      WhereUnique(rest, keep);
      OthersApart(rows, 0);
      assert rows == [x] + rest;
      WhereCons(x, rest, keep);
      if keep(x) {
        forall row | row in Where(rest, keep) ensures row.uuid != x.uuid {
          WhereMember(rest, keep, row);
        }
        UniqueCons(x, Where(rest, keep));
      }
    }
  }

  /** The rows a series of deletions leaves. */
  lemma {:induction false} DeleteAllRows(s: System, uuids: seq<string>)
    requires UniqueUuids(s.rows)
    ensures DeleteAll(s, uuids).rows == Where(s.rows, NotAmong(uuids)) && UniqueUuids(DeleteAll(s, uuids).rows)
  {
    if uuids == [] {
      WhereCongruent(s.rows, NotAmong(uuids), (row: Row) => true);
      WhereAll(s.rows);
    } else {
      var init, uuid := uuids[..|uuids| - 1], uuids[|uuids| - 1];
      DeleteAllRows(s, init);
      NotAmongAppend(map[], s.rows, init, uuid);
      assert uuids == init + [uuid];
      DeletedRows(DeleteAll(s, init), uuid);
      WhereUnique(s.rows, NotAmong(uuids));
    }
  }

  /** Deleting one subscription removes its row, its callback, entries and bindings, and nothing else. */
  lemma DeleteOne(s: System, ls: Listening, uuid: string, next: System, ls': Listening, master: string)
    requires Inv(s, ls, master) && next == Deleted(s, uuid, [], None).next && ls' == Without(ls, [uuid])
    ensures Inv(next, ls', master) && SameForeign(s.ix.consumer, next.ix.consumer)
  {
    DeleteListens(s, ls, uuid, ls', master);
    StepTo(s, ls, Delete(uuid, [], None), next, ls', master);
  }

  lemma DeleteListens(s: System, ls: Listening, uuid: string, ls': Listening, master: string)
    requires Inv(s, ls, master) && ls' == Without(ls, [uuid])
    ensures ls' == ListenStep(s, ls, Delete(uuid, [], None), master)
  {
    PositionFound(s.rows, uuid);
    if Position(s.rows, uuid) == |s.rows| {
      assert uuid in ls ==> ls[uuid].row in s.rows;
      assert ls' == ls;
    } else {
      assert ls' == ls - {uuid};
    }
  }

  lemma NotAmongAppend(ls: Listening, rows: seq<Row>, init: seq<string>, uuid: string)
    ensures Without(Without(ls, init), [uuid]) == Without(ls, init + [uuid])
    ensures Where(Where(rows, NotAmong(init)), NotAmong([uuid])) == Where(rows, NotAmong(init + [uuid]))
  {
    WhereTwice(rows, NotAmong(init), NotAmong([uuid]), NotAmong(init + [uuid]));
  }

  /** A series of deletions, in any order and passing over rows already gone, removes the callbacks, entries
      and bindings of exactly the subscriptions named. */
  lemma {:induction false} DeleteAllExact(s: System, ls: Listening, uuids: seq<string>, end: System, master: string)
    requires Inv(s, ls, master) && end == DeleteAll(s, uuids)
    ensures Inv(end, Without(ls, uuids), master)
    ensures SameForeign(s.ix.consumer, end.ix.consumer)
  {
    if uuids == [] {
      assert Without(ls, uuids) == ls;
    } else {
      var init, uuid := uuids[..|uuids| - 1], uuids[|uuids| - 1];
      var here := DeleteAll(s, init);
      DeleteAllExact(s, ls, init, here, master);
      NotAmongAppend(ls, s.rows, init, uuid);
      assert uuids == init + [uuid];
      DeleteOne(here, Without(ls, init), uuid, end, Without(ls, uuids), master);
    }
  }

  lemma UserRowsMeaning(rows: seq<Row>, user: string, row: Row)
    requires UniqueUuids(rows)
    ensures row in UserRows(rows, user) <==> row in rows && (user != "" ==> !NotOfUser(user)(row))
  {
    ListMeaning(rows, [], Some(user), None, [], row);
    ListMeaning(rows, [], None, Some(user), [], row);
    var owned, watched := List(rows, [], Some(user), None, []), List(rows, [], None, Some(user), []);
    assert row in UserRows(rows, user) <==> row in owned || row in watched;
  }

  lemma SameRowByUuid(rows: seq<Row>, part: seq<Row>, order: seq<string>)
    requires UniqueUuids(rows) && forall row :: row in part ==> row in rows
    requires forall u :: u in order <==> exists row :: row in part && row.uuid == u
    ensures forall row :: row in rows ==> (row.uuid in order <==> row in part)
  {
    forall row | row in rows ensures row.uuid in order <==> row in part {
      if row.uuid in order {
        var r :| r in part && r.uuid == row.uuid;
        SameRow(rows, r, row);
      }
    }
  }

  /** The live removal of a user deletes exactly the rows the offline removal deletes, each once even when the
      user both owns the row and is watched by it, unless the uuid is empty: then it deletes every row. */
  lemma LiveUserRemoval(s: System, ls: Listening, user: string, order: seq<string>, master: string)
    requires Inv(s, ls, master)
    requires forall u :: u in order <==> exists row :: row in UserRows(s.rows, user) && row.uuid == u
    ensures DeleteAll(s, order).rows == if user == "" then [] else Where(s.rows, NotOfUser(user))
    ensures DeleteAll(s, order).rows == Where(s.rows, NotOfUser(user))
       <==> user != "" || forall row :: row in s.rows ==> !NotOfUser(user)(row)
    ensures Inv(DeleteAll(s, order), Without(ls, order), master)
  {
    DeleteAllExact(s, ls, order, DeleteAll(s, order), master);
    DeleteAllRows(s, order);
    forall row ensures row in UserRows(s.rows, user) <==> row in s.rows && (user != "" ==> !NotOfUser(user)(row)) {
      UserRowsMeaning(s.rows, user, row);
    }
    SameRowByUuid(s.rows, UserRows(s.rows, user), order);
    if user == "" {
      WhereCongruent(s.rows, NotAmong(order), (row: Row) => false);
      WhereNone(s.rows);
      if Where(s.rows, NotOfUser(user)) == [] {
        forall row | row in s.rows ensures !NotOfUser(user)(row) {
          WhereMember(s.rows, NotOfUser(user), row);
        }
      }
      if forall row :: row in s.rows ==> !NotOfUser(user)(row) {
        WhereCongruent(s.rows, NotOfUser(user), (row: Row) => false);
      }
    } else {
      WhereCongruent(s.rows, NotAmong(order), NotOfUser(user));
    }
  }

  lemma {:induction false} WhereNone(rows: seq<Row>)
    ensures Where(rows, (row: Row) => false) == []
  {
    if rows != [] {
      WhereNone(rows[1..]);
    }
  }

  lemma UuidsMember(part: seq<Row>)
    ensures forall u :: u in Uuids(part) <==> exists row :: row in part && row.uuid == u
  {
    forall u ensures u in Uuids(part) <==> exists row :: row in part && row.uuid == u {
      if exists row :: row in part && row.uuid == u {
        var row :| row in part && row.uuid == u;
        var i :| 0 <= i < |part| && part[i] == row;
        assert Uuids(part)[i] == u;
      }
    }
  }

  /** The live removal of a tenant deletes exactly the rows the offline removal deletes. */
  lemma LiveTenantRemoval(s: System, ls: Listening, tenant: string, master: string)
    requires Inv(s, ls, master)
    ensures var order := Uuids(List(s.rows, [tenant], None, None, []));
            && DeleteAll(s, order).rows == Where(s.rows, NotOfTenant(tenant))
            && Inv(DeleteAll(s, order), Without(ls, order), master)
  {
    var part := List(s.rows, [tenant], None, None, []);
    var order := Uuids(part);
    DeleteAllExact(s, ls, order, DeleteAll(s, order), master);
    DeleteAllRows(s, order);
    forall row ensures row in part <==> row in s.rows && row.ownerTenant == tenant {
      ListMeaning(s.rows, [tenant], None, None, [], row);
    }
    UuidsMember(part);
    SameRowByUuid(s.rows, part, order);
    WhereCongruent(s.rows, NotAmong(order), NotOfTenant(tenant));
  }
}
