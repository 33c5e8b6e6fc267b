/** The mapped object of `wazo_webhookd/database/models.py`: filled from a schema, cleared before being replaced. */
module Models {
  import opened Rows

  function Keep<T>(field: Field<T>, current: T): T {
    if field.Given? then field.value else current
  }

  function Cleared(row: Row): Row {
    row.(options := [], events := [], metadata := [])
  }

  /** What `from_schema` leaves: relations are appended to, and arguments not given change nothing. */
  function Filled(row: Row, schema: Schema): Row {
    row.(name := schema.name, service := schema.service,
         options := row.options + schema.config,
         events := row.events + schema.events,
         metadata := row.metadata + (if schema.metadata.Some? then schema.metadata.value else []),
         eventsUser := Keep(schema.eventsUser, row.eventsUser),
         eventsWazo := Keep(schema.eventsWazo, row.eventsWazo),
         ownerUser := Keep(schema.ownerUser, row.ownerUser),
         ownerTenant := Keep(schema.ownerTenant, row.ownerTenant))
  }

  function Blank(uuid: string): Row {
    Row(uuid, "", "", None, None, None, "", [], [], [])
  }

  /** The dictionary a comprehension over the pairs builds: the last value of a repeated key wins. */
  function AsMap(d: seq<Pair>): map<string, Option<string>> {
    if d == [] then map[] else AsMap(d[..|d| - 1])[d[|d| - 1].key := d[|d| - 1].value]
  }

  class Subscription {
    const uuid: string
    var name: string
    var service: string
    var eventsUser: Option<string>
    var eventsWazo: Option<string>
    var ownerUser: Option<string>
    var ownerTenant: string
    var options: seq<Pair>
    var eventNames: seq<string>
    var metadata: seq<Pair>

    constructor (row: Row)
      ensures Value() == row
    {
      uuid, name, service := row.uuid, row.name, row.service;
      eventsUser, eventsWazo := row.eventsUser, row.eventsWazo;
      ownerUser, ownerTenant := row.ownerUser, row.ownerTenant;
      options, eventNames, metadata := row.options, row.events, row.metadata;
    }

    function Value(): Row
      reads this
    {
      Row(uuid, name, service, eventsUser, eventsWazo, ownerUser, ownerTenant, options, eventNames, metadata)
    }

    method ClearRelations()
      modifies this
      ensures Value() == Cleared(old(Value()))
    {
      options := [];
      eventNames := [];
      metadata := [];
    }

    method AddOptions(config: Dict)
      modifies this`options
      ensures options == old(options) + config
    {
      for i := 0 to |config|
        invariant options == old(options) + config[..i]
      {
        options := options + [Pair(config[i].key, config[i].value)];
      }
    }

    method AddEvents(events: seq<string>)
      modifies this`eventNames
      ensures eventNames == old(eventNames) + events
    {
      for i := 0 to |events|
        invariant eventNames == old(eventNames) + events[..i]
      {
        eventNames := eventNames + [events[i]];
      }
    }

    method AddMetadata(given: Dict)
      modifies this`metadata
      ensures metadata == old(metadata) + given
    {
      for i := 0 to |given|
        invariant metadata == old(metadata) + given[..i]
      {
        metadata := metadata + [Pair(given[i].key, given[i].value)];
      }
    }

    method FromSchema(schema: Schema)
      modifies this
      ensures Value() == Filled(old(Value()), schema)
    {
      name := schema.name;
      service := schema.service;
      AddOptions(schema.config);
      AddEvents(schema.events);
      if schema.metadata.Some? {
        AddMetadata(schema.metadata.value);
      }
      if schema.eventsUser.Given? { eventsUser := schema.eventsUser.value; }
      if schema.eventsWazo.Given? { eventsWazo := schema.eventsWazo.value; }
      if schema.ownerUser.Given? { ownerUser := schema.ownerUser.value; }
      if schema.ownerTenant.Given? { ownerTenant := schema.ownerTenant.value; }
    }

    method Config() returns (config: map<string, Option<string>>)
      ensures config == AsMap(options)
    {
      config := map[];
      for i := 0 to |options|
        invariant config == AsMap(options[..i])
      {
        assert options[..i + 1][..i] == options[..i];
        config := config[options[i].key := options[i].value];
      }
      assert options[..|options|] == options;
    }
  }

  /** Where a key is repeated, as rows of the metadatum table may, the last pair counts. */
  lemma {:induction false} AsMapLastWins(d: seq<Pair>, i: nat)
    requires i < |d| && forall j :: i < j < |d| ==> d[j].key != d[i].key
    ensures d[i].key in AsMap(d) && AsMap(d)[d[i].key] == d[i].value
  {
    if i < |d| - 1 {
      AsMapLastWins(d[..|d| - 1], i);
    }
  }

  /** Reading a dictionary back out of its pairs: no key is lost, added, or given another key's value. */
  lemma {:induction false} AsMapOfDict(d: seq<Pair>)
    requires DistinctKeys(d)
    ensures forall k, v :: k in AsMap(d) && AsMap(d)[k] == v <==> Pair(k, v) in d
  {
    if d != [] {
      var init, last := d[..|d| - 1], d[|d| - 1];
      AsMapOfDict(init);
      assert d == init + [last];
      assert forall i :: 0 <= i < |init| ==> init[i].key != last.key;
      AsMapLast(init, last);
    }
  }

  lemma AsMapLast(init: seq<Pair>, last: Pair)
    requires forall p :: p in init ==> p.key != last.key
    requires forall k, v :: k in AsMap(init) && AsMap(init)[k] == v <==> Pair(k, v) in init
    ensures forall k, v :: k in AsMap(init + [last]) && AsMap(init + [last])[k] == v <==> Pair(k, v) in init + [last]
  {
    var d := init + [last];
    assert d[..|d| - 1] == init;
    assert AsMap(d) == AsMap(init)[last.key := last.value];
    forall k, v ensures k in AsMap(d) && AsMap(d)[k] == v <==> Pair(k, v) in d {
      assert Pair(k, v) in d <==> Pair(k, v) in init || Pair(k, v) == last;
    }
  }

  /** Without clearing first, what is supplied comes after what is there. */
  lemma FilledKeepsFormer(row: Row, schema: Schema)
    ensures var row' := Filled(row, schema);
            && row.options <= row'.options && row'.options[|row.options|..] == schema.config
            && row.events <= row'.events && row'.events[|row.events|..] == schema.events
            && row.metadata <= row'.metadata
            && row'.metadata[|row.metadata|..] == if schema.metadata.Some? then schema.metadata.value else []
  {
  }

  /** Replacing a subscription: what is read back is what was supplied, with no trace of the former relations,
      and the optional fields that were not supplied keep their values. */
  lemma ReplaceRoundTrip(row: Row, schema: Schema)
    ensures var row' := Filled(Cleared(row), schema);
            && row'.uuid == row.uuid && row'.name == schema.name && row'.service == schema.service
            && row'.events == schema.events
            && (forall k, v :: k in AsMap(row'.options) && AsMap(row'.options)[k] == v <==> Pair(k, v) in schema.config)
            && (forall k, v :: k in AsMap(row'.metadata) && AsMap(row'.metadata)[k] == v
                           <==> schema.metadata.Some? && Pair(k, v) in schema.metadata.value)
            && (schema.eventsUser == NotSet ==> row'.eventsUser == row.eventsUser)
            && (schema.eventsWazo == NotSet ==> row'.eventsWazo == row.eventsWazo)
            && (schema.ownerUser == NotSet ==> row'.ownerUser == row.ownerUser)
            && (schema.ownerTenant == NotSet ==> row'.ownerTenant == row.ownerTenant)
            && (forall v :: schema.eventsUser == Given(v) ==> row'.eventsUser == v)
            && (forall v :: schema.eventsWazo == Given(v) ==> row'.eventsWazo == v)
            && (forall v :: schema.ownerUser == Given(v) ==> row'.ownerUser == v)
            && (forall v :: schema.ownerTenant == Given(v) ==> row'.ownerTenant == v)
  {
    var given: seq<Pair> := if schema.metadata.Some? then schema.metadata.value else [];
    assert [] + schema.config == schema.config && [] + given == given && [] + schema.events == schema.events;
    var row' := Filled(Cleared(row), schema);
    assert row'.metadata == given;
    if schema.metadata.Some? {
      assert row'.metadata == schema.metadata.value;
    } else {
      assert row'.metadata == [] && AsMap([]) == map[];
    }
    AsMapOfDict(schema.config);
    AsMapOfDict(given);
  }
}
