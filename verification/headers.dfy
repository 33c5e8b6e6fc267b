/** Message headers, bindings of a headers exchange, and the headers a subscription binds with. */
module Headers {
  import opened Rows

  datatype Value = Text(text: string) | Flag(flag: bool)

  type Headers = map<string, Value>

  /** The arguments table of a binding; on a headers exchange it is the whole identity of the binding. */
  type Binding = map<string, Value>

  const VOICEMAIL := "global_voicemail_message_created"
  const WILDCARD := "user_uuid:*"

  predicate Ignored(key: string) { "x-" <= key }

  predicate UserKey(key: string) { "user_uuid:" <= key }

  ghost predicate Has(m: Headers, key: string, value: Value) { key in m && m[key] == value }

  predicate MatchAll(b: Binding) { "x-match" !in b || b["x-match"] == Text("all") }

  /** The matching rule of a headers exchange (section 3.1.3.4 of AMQP 0-9-1). */
  ghost predicate Matches(b: Binding, m: Headers) {
    if MatchAll(b) then forall k :: k in b && !Ignored(k) ==> Has(m, k, b[k])
    else exists k :: k in b && !Ignored(k) && Has(m, k, b[k])
  }

  /** The filter applied to a message taken from the shared queue. */
  predicate CheckHeadersMatch(exchangeType: string, headers: Headers, binding: Binding) {
    if exchangeType != "headers" then true
    else
      var kept := map k | k in headers && !Ignored(k) :: headers[k];
      var arguments := map k | k in binding && !Ignored(k) :: binding[k];
      if MatchAll(binding) then forall k | k in arguments :: k in kept && kept[k] == arguments[k]
      else exists k | k in arguments :: k in kept && kept[k] == arguments[k]
  }

  /** The local filter decides exactly as the broker would. */
  lemma LocalFilterIsBrokerRule(headers: Headers, binding: Binding)
    ensures CheckHeadersMatch("headers", headers, binding) <==> Matches(binding, headers)
  {
    var kept := map k | k in headers && !Ignored(k) :: headers[k];
    var arguments := map k | k in binding && !Ignored(k) :: binding[k];
    forall k | k in binding && !Ignored(k)
      ensures k in arguments && (Has(headers, k, binding[k]) <==> k in kept && kept[k] == arguments[k])
    {
    }
    assert forall k :: k in arguments <==> k in binding && !Ignored(k);
    if MatchAll(binding) {
      if forall k | k in arguments :: k in kept && kept[k] == arguments[k] {
        assert forall k :: k in binding && !Ignored(k) ==> k in arguments;
      }
    }
  }

  /** What the filter decides, written out: on another kind of exchange everything passes; keys that begin with
      "x-" count on neither side, and all others must agree, or one of them if "x-match" says anything but "all". */
  lemma FilterMeaning(exchangeType: string, headers: Headers, binding: Binding)
    ensures exchangeType != "headers" ==> CheckHeadersMatch(exchangeType, headers, binding)
    ensures exchangeType == "headers" && ("x-match" in binding ==> binding["x-match"] == Text("all")) ==>
              (CheckHeadersMatch(exchangeType, headers, binding)
               <==> forall k | k in binding && !("x-" <= k) :: k in headers && headers[k] == binding[k])
    ensures exchangeType == "headers" && "x-match" in binding && binding["x-match"] != Text("all") ==>
              (CheckHeadersMatch(exchangeType, headers, binding)
               <==> exists k :: k in binding && !("x-" <= k) && k in headers && headers[k] == binding[k])
  {
    LocalFilterIsBrokerRule(headers, binding);
  }

  /** Adding or removing a reserved key changes nothing: any in the message, any but "x-match" in the binding. */
  lemma ReservedKeysDoNotCount(headers: Headers, binding: Binding, key: string, value: Value)
    requires "x-" <= key
    ensures var accepted := CheckHeadersMatch("headers", headers, binding);
            && CheckHeadersMatch("headers", headers[key := value], binding) == accepted
            && CheckHeadersMatch("headers", headers - {key}, binding) == accepted
            && (key != "x-match" ==>
                  && CheckHeadersMatch("headers", headers, binding[key := value]) == accepted
                  && CheckHeadersMatch("headers", headers, binding - {key}) == accepted)
  {
    SameUnreserved(headers, binding, headers[key := value], binding);
    SameUnreserved(headers, binding, headers - {key}, binding);
    if key != "x-match" {
      SameUnreserved(headers, binding, headers, binding[key := value]);
      SameUnreserved(headers, binding, headers, binding - {key});
    }
  }

  lemma SameUnreserved(headers: Headers, binding: Binding, headers': Headers, binding': Binding)
    requires forall k | !("x-" <= k) ::
               && (k in headers <==> k in headers') && (k in headers ==> headers[k] == headers'[k])
               && (k in binding <==> k in binding') && (k in binding ==> binding[k] == binding'[k])
    requires MatchAll(binding) == MatchAll(binding')
    ensures CheckHeadersMatch("headers", headers, binding) == CheckHeadersMatch("headers", headers', binding')
  {
    LocalFilterIsBrokerRule(headers, binding);
    LocalFilterIsBrokerRule(headers', binding');
    if Matches(binding, headers) && !MatchAll(binding) {
      var k :| k in binding && !Ignored(k) && Has(headers, k, binding[k]);
      assert Has(headers', k, binding'[k]);
    }
    if Matches(binding', headers') && !MatchAll(binding) {
      var k :| k in binding' && !Ignored(k) && Has(headers', k, binding'[k]);
      assert Has(headers, k, binding[k]);
    }
  }

  /** The arguments under which the consumer binds its queue for an event. */
  function Arguments(event: string, headers: Headers, matchAll: bool): Binding {
    headers["name" := Text(event)]["x-match" := Text(if matchAll then "all" else "any")]
  }

  // ----- the headers of a subscription

  function BaseHeaders(row: Row, master: string): Headers {
    map["x-subscription" := Text(row.uuid)]
    + (if row.ownerTenant != master then map["tenant_uuid" := Text(row.ownerTenant)] else map[])
    + (if Truthy(row.eventsUser) then map["user_uuid:" + row.eventsUser.value := Flag(true)] else map[])
    + (if Truthy(row.eventsWazo) then map["origin_uuid" := Text(row.eventsWazo.value)] else map[])
  }

  method BuildHeaders(row: Row, master: string) returns (headers: Headers)
    ensures headers == BaseHeaders(row, master)
  {
    headers := map["x-subscription" := Text(row.uuid)];
    if row.ownerTenant != master {
      headers := headers["tenant_uuid" := Text(row.ownerTenant)];
    }
    if Truthy(row.eventsUser) {
      headers := headers["user_uuid:" + row.eventsUser.value := Flag(true)];
    }
    if Truthy(row.eventsWazo) {
      headers := headers["origin_uuid" := Text(row.eventsWazo.value)];
    }
  }

  function Widened(h: Headers): Headers {
    (map k | k in h && !UserKey(k) :: h[k])[WILDCARD := Flag(true)]
  }

  /** What `_handle_tenant_events` makes of the headers when it meets one event. */
  function Rewritten(event: string, h: Headers): Headers {
    if event == VOICEMAIL then Widened(h) else h
  }

  method HandleTenantEvents(event: string, headers: Headers) returns (r: Headers)
    ensures r == Rewritten(event, headers)
  {
    if event != VOICEMAIL { return headers; }
    r := headers;
    var keys := headers.Keys;
    while keys != {}
      invariant keys <= headers.Keys
      invariant r == map k | k in headers && (k in keys || !UserKey(k)) :: headers[k]
      decreases keys
    {
      var key :| key in keys;
      if UserKey(key) {
        r := r - {key};
      }
      keys := keys - {key};
    }
    r := r[WILDCARD := Flag(true)];
  }

  /** The rewrite is idempotent, keeps every key that names no user, and leaves exactly one that does. */
  lemma WidenedMeaning(h: Headers)
    ensures Widened(Widened(h)) == Widened(h)
    ensures forall k :: !UserKey(k) ==> (k in Widened(h) <==> k in h) && (k in h ==> Widened(h)[k] == h[k])
    ensures forall k :: k in Widened(h) && UserKey(k) <==> k == WILDCARD
    ensures Widened(h)[WILDCARD] == Flag(true)
    ensures Widened(h) == h <==> Has(h, WILDCARD, Flag(true)) && forall k :: k in h && UserKey(k) ==> k == WILDCARD
  {
    if Has(h, WILDCARD, Flag(true)) && forall k :: k in h && UserKey(k) ==> k == WILDCARD {
      assert Widened(h) == h;
    }
  }

  /** Only one event is ever rewritten. */
  lemma OnlyVoicemailRewritten(event: string, h: Headers)
    ensures event != "global_voicemail_message_created" ==> Rewritten(event, h) == h
    ensures event == "global_voicemail_message_created" ==>
              && (forall k :: k in Rewritten(event, h) && "user_uuid:" <= k <==> k == "user_uuid:*")
              && Rewritten(event, h)["user_uuid:*"] == Flag(true)
              && (forall k :: !("user_uuid:" <= k) ==> (k in Rewritten(event, h) <==> k in h)
                                                       && (k in h ==> Rewritten(event, h)[k] == h[k]))
  {
    WidenedMeaning(h);
  }

  // ----- what a subscription's binding selects

  /** The tenant and origin conditions a subscription puts on a message. */
  ghost predicate SameOrigin(row: Row, master: string, m: Headers) {
    && (row.ownerTenant != master ==> Has(m, "tenant_uuid", Text(row.ownerTenant)))
    && (Truthy(row.eventsWazo) ==> Has(m, "origin_uuid", Text(row.eventsWazo.value)))
  }

  ghost predicate Addressed(row: Row, m: Headers) {
    Truthy(row.eventsUser) ==> Has(m, "user_uuid:" + row.eventsUser.value, Flag(true))
  }

  /** The keys of a subscription's headers never collide with one another or with the reserved ones. */
  lemma KeysApart(suffix: string)
    ensures var k := "user_uuid:" + suffix;
            UserKey(k) && !Ignored(k) && k != "name" && k != "tenant_uuid" && k != "origin_uuid"
            && k != "x-subscription" && k != "x-match"
    ensures !UserKey("name") && !UserKey("tenant_uuid") && !UserKey("origin_uuid")
    ensures !UserKey("x-subscription") && !UserKey("x-match") && UserKey(WILDCARD) && !Ignored(WILDCARD)
    ensures Ignored("x-subscription") && Ignored("x-match")
    ensures !Ignored("name") && !Ignored("tenant_uuid") && !Ignored("origin_uuid")
  {
    var k := "user_uuid:" + suffix;
    assert k[0] == 'u' && k[9] == ':';
    assert "name"[0] != 'u' && "tenant_uuid"[0] != 'u' && "origin_uuid"[0] != 'u' && "x-match"[0] != 'u'
           && "x-subscription"[0] != 'u' && k[0] != 'x';
  }

  /** A message matching every header that is not reserved for the broker. */
  ghost predicate Satisfies(h: Headers, m: Headers) {
    forall k :: k in h && !Ignored(k) ==> Has(m, k, h[k])
  }

  lemma BindingSelects(event: string, h: Headers, m: Headers)
    requires "name" !in h && "x-match" !in h
    ensures Matches(Arguments(event, h, true), m) <==> Has(m, "name", Text(event)) && Satisfies(h, m)
  {
    var b := Arguments(event, h, true);
    KeysApart("");
    assert MatchAll(b) && b["name"] == Text(event);
    assert forall k :: k in h ==> k in b && b[k] == h[k];
  }

  /** The headers of a subscription, key by key. */
  lemma BaseEntries(row: Row, master: string)
    ensures var h := BaseHeaders(row, master);
            && Has(h, "x-subscription", Text(row.uuid))
            && (if row.ownerTenant != master then Has(h, "tenant_uuid", Text(row.ownerTenant)) else "tenant_uuid" !in h)
            && (if Truthy(row.eventsWazo)
                then Has(h, "origin_uuid", Text(row.eventsWazo.value)) else "origin_uuid" !in h)
            && (Truthy(row.eventsUser) ==> Has(h, "user_uuid:" + row.eventsUser.value, Flag(true)))
    ensures forall k :: k in BaseHeaders(row, master) ==>
              if UserKey(k) then Truthy(row.eventsUser) && k == "user_uuid:" + row.eventsUser.value
              else k == "x-subscription" || k == "tenant_uuid" || k == "origin_uuid"
  {
    BasePresent(row, master);
    KeysApart(if Truthy(row.eventsUser) then row.eventsUser.value else "");
  }

  lemma BasePresent(row: Row, master: string)
    ensures var h := BaseHeaders(row, master);
            && Has(h, "x-subscription", Text(row.uuid))
            && (if row.ownerTenant != master then Has(h, "tenant_uuid", Text(row.ownerTenant)) else "tenant_uuid" !in h)
            && (if Truthy(row.eventsWazo)
                then Has(h, "origin_uuid", Text(row.eventsWazo.value)) else "origin_uuid" !in h)
            && (Truthy(row.eventsUser) ==> Has(h, "user_uuid:" + row.eventsUser.value, Flag(true)))
  {
    KeysApart(if Truthy(row.eventsUser) then row.eventsUser.value else "");
  }

  lemma BaseSatisfied(row: Row, master: string, m: Headers)
    ensures Satisfies(BaseHeaders(row, master), m) <==> SameOrigin(row, master, m) && Addressed(row, m)
  {
    var h := BaseHeaders(row, master);
    BaseEntries(row, master);
    OriginSatisfied(row, master, m);
    if Truthy(row.eventsUser) {
      KeysApart(row.eventsUser.value);
    }
    assert Addressed(row, m) <==> forall k :: k in h && UserKey(k) ==> Has(m, k, h[k]);
  }

  lemma OriginSatisfied(row: Row, master: string, m: Headers)
    ensures SameOrigin(row, master, m)
       <==> var h := BaseHeaders(row, master);
            forall k :: k in h && !Ignored(k) && !UserKey(k) ==> Has(m, k, h[k])
  {
    BaseEntries(row, master);
    KeysApart("");
  }

  lemma WidenedSatisfied(h: Headers, m: Headers)
    ensures Satisfies(Widened(h), m)
       <==> Has(m, WILDCARD, Flag(true)) && forall k :: k in h && !Ignored(k) && !UserKey(k) ==> Has(m, k, h[k])
  {
    KeysApart("");
    WidenedMeaning(h);
    var w := Widened(h);
    assert WILDCARD in w && !Ignored(WILDCARD);
    assert forall k :: k in h && !UserKey(k) ==> k in w;
    assert forall k :: k in w && k != WILDCARD ==> k in h && !UserKey(k);
  }

  /** A binding of a subscription accepts exactly the messages of its event that its row asks for. */
  lemma BaseBindingMeaning(row: Row, master: string, event: string, m: Headers)
    ensures Matches(Arguments(event, BaseHeaders(row, master), true), m)
       <==> Has(m, "name", Text(event)) && SameOrigin(row, master, m) && Addressed(row, m)
  {
    SubscriptionHeadersAreMarked(row, master);
    BindingSelects(event, BaseHeaders(row, master), m);
    BaseSatisfied(row, master, m);
  }

  /** The widened binding keeps the tenant and origin conditions and asks for the wildcard user instead. */
  lemma WidenedBindingMeaning(row: Row, master: string, event: string, m: Headers)
    ensures Matches(Arguments(event, Widened(BaseHeaders(row, master)), true), m)
       <==> Has(m, "name", Text(event)) && SameOrigin(row, master, m) && Has(m, WILDCARD, Flag(true))
  {
    SubscriptionHeadersAreMarked(row, master);
    BindingSelects(event, Widened(BaseHeaders(row, master)), m);
    OriginSatisfied(row, master, m);
    WidenedSatisfied(BaseHeaders(row, master), m);
  }

  // ----- who a binding belongs to

  function OwnerOf(b: Binding): Option<string> {
    if "x-subscription" in b && b["x-subscription"].Text? then Some(b["x-subscription"].text) else None
  }

  function NameOf(b: Headers): Option<string> {
    if "name" in b && b["name"].Text? then Some(b["name"].text) else None
  }

  /** Headers a subscription binds with: its own mark, and none of the keys the consumer adds. */
  ghost predicate MarkedFor(u: string, h: Headers) {
    Has(h, "x-subscription", Text(u)) && "name" !in h && "x-match" !in h
  }

  lemma SubscriptionHeadersAreMarked(row: Row, master: string)
    ensures MarkedFor(row.uuid, BaseHeaders(row, master))
    ensures MarkedFor(row.uuid, Widened(BaseHeaders(row, master)))
  {
    KeysApart(if Truthy(row.eventsUser) then row.eventsUser.value else "");
  }

  /** A binding belongs to the subscription it is marked for, and different headers give different bindings. */
  lemma ArgumentsIdentity(event: string, h: Headers, h': Headers, u: string)
    requires MarkedFor(u, h) && MarkedFor(u, h')
    ensures OwnerOf(Arguments(event, h, true)) == Some(u) && NameOf(Arguments(event, h, true)) == Some(event)
    ensures Arguments(event, h, true) == Arguments(event, h', true) <==> h == h'
  {
    if Arguments(event, h, true) == Arguments(event, h', true) {
      assert h == Arguments(event, h, true) - {"name", "x-match"};
      assert h' == Arguments(event, h', true) - {"name", "x-match"};
    }
  }

  /** Widening leaves a subscription's headers alone exactly when it already addresses the wildcard user. */
  lemma WidenedIsBase(row: Row, master: string)
    ensures Widened(BaseHeaders(row, master)) == BaseHeaders(row, master) <==> row.eventsUser == Some("*")
  {
    var h := BaseHeaders(row, master);
    var suffix := if Truthy(row.eventsUser) then row.eventsUser.value else "";
    KeysApart(suffix);
    WidenedMeaning(h);
    assert "user_uuid:" + "*" == WILDCARD;
    if "user_uuid:" + suffix == WILDCARD {
      assert suffix == ("user_uuid:" + suffix)[10..];
    }
    if Truthy(row.eventsUser) {
      assert "user_uuid:" + suffix in h;
    }
  }
}
