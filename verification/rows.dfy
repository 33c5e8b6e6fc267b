/** The subscription record of `wazo_webhookd/database/models.py`: a persisted row together with its
    event, option and metadata relations, and the payload a caller supplies to create or replace one. */
module Rows {

  datatype Option<+T> = None | Some(value: T)

  /** A row of the option or of the metadatum table; both value columns are nullable. */
  datatype Pair = Pair(key: string, value: Option<string>)

  datatype Row = Row(
    uuid: string,
    name: string,
    service: string,
    eventsUser: Option<string>,
    eventsWazo: Option<string>,
    ownerUser: Option<string>,
    ownerTenant: string,
    options: seq<Pair>,
    events: seq<string>,
    metadata: seq<Pair>)

  /** A Python dictionary in iteration order: no key is repeated. */
  type Dict = d: seq<Pair> | DistinctKeys(d) witness []

  predicate DistinctKeys(d: seq<Pair>) {
    forall i, j :: 0 <= i < j < |d| ==> d[i].key != d[j].key
  }

  /** A keyword argument that may be left at the `_NOTSET` marker. */
  datatype Field<+T> = NotSet | Given(value: T)

  datatype Schema = Schema(
    name: string,
    service: string,
    config: Dict,
    events: seq<string>,
    metadata: Option<Dict>,
    eventsWazo: Field<Option<string>>,
    eventsUser: Field<Option<string>>,
    ownerUser: Field<Option<string>>,
    ownerTenant: Field<string>)

  predicate Distinct<T(==)>(s: seq<T>) {
    forall i, j :: 0 <= i < j < |s| ==> s[i] != s[j]
  }

  /** Python truthiness of a nullable string. */
  predicate Truthy(o: Option<string>) {
    o.Some? && o.value != ""
  }
}
