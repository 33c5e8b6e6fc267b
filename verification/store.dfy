/** The queries of `wazo_webhookd/plugins/subscription/service.py` over the subscription table. */
module Store {
  import opened Rows

  /** One row of the metadatum table. */
  datatype Metadatum = Metadatum(subscription: string, key: string, value: Option<string>)

  function MetadatumTable(rows: seq<Row>): set<Metadatum> {
    set row, p | row in rows && p in row.metadata :: Metadatum(row.uuid, p.key, p.value)
  }

  /** The rows kept by the disjunction of the searched pairs. */
  function AnyPair(table: set<Metadatum>, search: Dict): set<Metadatum> {
    set t | t in table && Pair(t.key, t.value) in search
  }

  function GroupKeys(table: set<Metadatum>, uuid: string): set<string> {
    set t | t in table && t.subscription == uuid :: t.key
  }

  /** Grouped by subscription, keeping the groups whose number of distinct keys is the number of pairs. */
  function Subquery(table: set<Metadatum>, search: Dict): set<string> {
    var hits := AnyPair(table, search);
    set t | t in hits && |GroupKeys(hits, t.subscription)| == |search| :: t.subscription
  }

  function List(rows: seq<Row>, tenants: seq<string>, owner: Option<string>, eventsUser: Option<string>,
                search: Dict): seq<Row> {
    Where(rows, Criteria(MetadatumTable(rows), tenants, owner, eventsUser, search))
  }

  /** One filter per argument that is given and not empty. */
  function Criteria(table: set<Metadatum>, tenants: seq<string>, owner: Option<string>, eventsUser: Option<string>,
                    search: Dict): Row -> bool {
    (row: Row) =>
      && (tenants == [] || row.ownerTenant in tenants)
      && (Truthy(owner) ==> row.ownerUser == owner)
      && (Truthy(eventsUser) ==> row.eventsUser == eventsUser)
      && (search != [] ==> row.uuid in Subquery(table, search))
  }

  function Where(rows: seq<Row>, keep: Row -> bool): seq<Row> {
    if rows == [] then [] else (if keep(rows[0]) then [rows[0]] else []) + Where(rows[1..], keep)
  }

  ghost predicate UniqueUuids(rows: seq<Row>) {
    forall i, j :: 0 <= i < j < |rows| ==> rows[i].uuid != rows[j].uuid
  }

  // ----- meaning of the metadata query

  function Keys(d: seq<Pair>): set<string> {
    set p | p in d :: p.key
  }

  lemma {:induction false} KeysCount(d: seq<Pair>)
    requires DistinctKeys(d)
    ensures |Keys(d)| == |d|
  {
    if d != [] {
      var n := |d| - 1;
      KeysCount(d[..n]);
      assert d == d[..n] + [d[n]];
      assert Keys(d) == Keys(d[..n]) + {d[n].key};
      assert forall i :: 0 <= i < n ==> d[..n][i].key != d[n].key;
    }
  }

  lemma SubsetOfSameSize<T>(a: set<T>, b: set<T>)
    requires a <= b
    ensures |a| == |b| <==> a == b
  {
    if a != b {
      assert |b - a| == |b| - |a|;
      var x :| x in b && x !in a;
      assert x in b - a;
    }
  }

  /** Counting distinct keys over a disjunction asks for every searched pair, repeated keys included. */
  lemma MetadataQueryMeaning(table: set<Metadatum>, search: Dict, uuid: string)
    requires search != []
    ensures uuid in Subquery(table, search)
       <==> forall p :: p in search ==> Metadatum(uuid, p.key, p.value) in table
  {
    var hits := AnyPair(table, search);
    var keys := GroupKeys(hits, uuid);
    KeysCount(search);
    forall k | k in keys ensures k in Keys(search) {
      var t :| t in hits && t.subscription == uuid && t.key == k;
      assert Pair(t.key, t.value) in search;
    }
    SubsetOfSameSize(keys, Keys(search));
    if keys == Keys(search) {
      forall p | p in search ensures Metadatum(uuid, p.key, p.value) in table {
        assert p.key in keys;
        var t :| t in hits && t.subscription == uuid && t.key == p.key;
        SamePair(search, Pair(t.key, t.value), p);
      }
      assert search[0].key in keys;
      var t :| t in hits && t.subscription == uuid && t.key == search[0].key;
    }
    if forall p :: p in search ==> Metadatum(uuid, p.key, p.value) in table {
      forall k | k in Keys(search) ensures k in keys {
        var p :| p in search && p.key == k;
        assert Metadatum(uuid, p.key, p.value) in hits;
      }
      assert search[0] in search && Metadatum(uuid, search[0].key, search[0].value) in hits;
    }
  }

  lemma SamePair(d: Dict, p: Pair, q: Pair)
    requires p in d && q in d && p.key == q.key
    ensures p == q
  {
    var i :| 0 <= i < |d| && d[i] == p;
    var j :| 0 <= j < |d| && d[j] == q;
    assert d[i].key == d[j].key;
    assert i == j;
  }

  ghost predicate HasPairs(row: Row, search: Dict) {
    forall p :: p in search ==> p in row.metadata
  }

  /** `list`: exactly the rows meeting every filter given, an absent or empty filter asking nothing. */
  lemma ListMeaning(rows: seq<Row>, tenants: seq<string>, owner: Option<string>, eventsUser: Option<string>,
                    search: Dict, row: Row)
    requires UniqueUuids(rows)
    ensures row in List(rows, tenants, owner, eventsUser, search)
       <==> row in rows && (tenants == [] || row.ownerTenant in tenants)
            && (Truthy(owner) ==> row.ownerUser == owner)
            && (Truthy(eventsUser) ==> row.eventsUser == eventsUser)
            && HasPairs(row, search)
  {
    WhereMember(rows, Criteria(MetadatumTable(rows), tenants, owner, eventsUser, search), row);
    if row in rows && search != [] {
      MetadataQueryMeaning(MetadatumTable(rows), search, row.uuid);
      forall p | p in search
        ensures Metadatum(row.uuid, p.key, p.value) in MetadatumTable(rows) <==> p in row.metadata
      {
        var t := Metadatum(row.uuid, p.key, p.value);
        if t in MetadatumTable(rows) {
          var r, q :| r in rows && q in r.metadata && Metadatum(r.uuid, q.key, q.value) == t;
          SameRow(rows, r, row);
        }
      }
    }
  }

  lemma SameRow(rows: seq<Row>, a: Row, b: Row)
    requires UniqueUuids(rows) && a in rows && b in rows && a.uuid == b.uuid
    ensures a == b
  {
    var i :| 0 <= i < |rows| && rows[i] == a;
    var j :| 0 <= j < |rows| && rows[j] == b;
    assert rows[i].uuid == rows[j].uuid;
    assert i == j;
  }

  lemma WhereCons(x: Row, rest: seq<Row>, keep: Row -> bool)
    ensures Where([x] + rest, keep) == if keep(x) then [x] + Where(rest, keep) else Where(rest, keep)
  {
    assert ([x] + rest)[1..] == rest && [] + Where(rest, keep) == Where(rest, keep);
  }

  lemma {:induction false} WhereMember(rows: seq<Row>, keep: Row -> bool, row: Row)
    ensures row in Where(rows, keep) <==> row in rows && keep(row)
  {
    if rows != [] {
      WhereMember(rows[1..], keep, row);
      assert rows == [rows[0]] + rows[1..];
    }
  }
}
