# Verification of wazo-webhookd's subscription core

wazo-webhookd stores webhook subscriptions, listens on the message bus for the events they name, and runs a
hook for each message a subscription asked for. This project models the part of it that is stateful and easy
to get wrong, and proves what it keeps:

- the **subscription index**: `SubscriptionBusEventHandler` keeps one callback per subscription and drives the
  bus consumer, whose handler table and broker bindings must follow the subscription rows through every
  creation, replacement, deletion, connection loss and reconnection;
- the **shared queue**: all subscriptions share one queue, with a local header filter in place of one queue each;
- the **hook task**: attempts, statuses, delays and the log table;
- the **subscription store**: the metadata query, the one-mobile-subscription-per-user protocol, and removal of
  what a deleted user or tenant leaves behind, by the running daemon and offline.

Code that changes objects in place is a class whose methods are proved against functions of the old state
(`bus.dfy`, `index.dfy`, `models.dfy`, `service.dfy`, `cleanup.dfy`, `mobile.dfy`, `hooks.dfy`). What the program is for is then
proved about those functions, over all inputs, iteration orders, runs and interleavings.

| file | content |
|---|---|
| `rows.dfy` | rows, payloads, dictionaries |
| `headers.dfy` | message headers, bindings, the matching rule, the headers of a subscription |
| `consumers.dfy` | the consumer as a value, and its projection on one owner and one event (a *cell*) |
| `bus.dfy` | the exchange, the consumer, dispatch |
| `index.dfy` | the index from subscriptions to callbacks |
| `listeners.dfy` | what the index amounts to per subscription (a *listener*: callback, stored headers, and for each event its bound headers and whether the broker still has them) |
| `models.dfy`, `store.dfy`, `service.dfy` | the mapped record, the queries, the service |
| `runs.dfy` | the invariant over whole runs |
| `agreement.dfy` | index against a rebuild, broker against the table, update against unregister-then-register |
| `delivery.dfy` | which callbacks a published message triggers, and exactly when delivery is exact |
| `replacements.dfy` | whole runs: which replacements leave the index a restart would build, and when delivery is exact |
| `updates.dfy` | exactly which replacements leave delivery exact, from any state |
| `muting.dfy` | three concrete runs in which a replacement mutes a subscription |
| `queues.dfy` | one shared queue against one queue per entry |
| `interleaving.dfy` | concurrent handlers |
| `cleanup.dfy`, `mobile.dfy` | removal of users and tenants; mobile subscriptions |
| `hooks.dfy`, `hooklogs.dfy` | one hook's attempts; many hooks and the log table |

## Where the code does not meet its purpose

The model follows the code. Five laws do not hold of it as one would state them; each is proved with the exact
condition under which it does.

1. **An update can drop a binding it needs.** `_update` compares the new headers with the *stored* headers
   (`wazo_webhookd/plugins/subscription/bus.py:134`), which need not be those the event is bound with. Where an
   event's new headers equal the bound ones but differ from the stored ones, the subscribe-first branch confirms
   the binding and then removes it with the former entry: the handler stays in the table and receives nothing
   more, unless another binding happens to let its messages through. After a registration, which stores the
   plain headers, this hits `global_voicemail_message_created`, bound with the wildcard user; after an update
   through that event, which stores the widened headers, it hits every other event whose headers stay the same,
   and binds the voicemail event again. `Updates.DropsIff` says exactly when, in terms of the rows and of which
   headers are stored; `Agreement.FirstUpdateLosesIff` for the first update; `Agreement.BrokerAgreesIff` when
   broker and table agree; `Replacements.ReconnectionRestoresBindings` that the next reconnection heals it.
   `Muting.UnchangedUpdateMutesVoicemail` and `Muting.SecondUnchangedUpdateMutesOthers` are concrete runs: a
   subscription replaced with its own content, once and twice.
2. **An update can bind an event with another event's headers.** `_update` reassigns `headers` inside its loop
   (`wazo_webhookd/plugins/subscription/bus.py:128-129`). Every event that happens to be gone through after
   `global_voicemail_message_created` is bound with the wildcard user in place of the subscription's own, and
   misses the messages its row asks for, with every binding in the broker; a reconnection does not heal it.
   `Muting.AddedVoicemailMutesOthers` is a concrete run; `Delivery.WidenedSlotMisses` names the message missed
   in any state; `Updates.EveryOrderKeepsHeadersIff` says exactly when no iteration order can do this: the
   voicemail event is in neither list, or the row watches the wildcard user.
3. **Starting late registers twice.** `subscribe()` waits for the first token
   (`wazo_webhookd/plugins/subscription/plugin.py:66-67`), while creations register as soon as the master tenant is
   known, which is from the start if it is configured (`wazo_webhookd/controller.py:52-55`). A row created in between
   is listed and registered again, and has two callbacks for each event: `Agreement.LateStartupIff`.
4. **Removing the empty user removes everything.** `_remove_user("")` leaves both filters out and deletes every
   subscription, where the offline `remove_user("")` deletes only rows with an empty user:
   `Cleanup.LiveUserRemoval`.
5. **Linking or unlinking the empty user concerns the whole tenant.** With an empty user the query leaves the
   owner out. Unlinking deletes the mobile subscriptions of the whole tenant; linking creates none for the empty
   user if anyone in the tenant has one, and deletes all of the tenant's but the first. `Mobile.HandleExactIff`
   gives the exact condition for both.

What 1 and 2 mean for messages: `Delivery.ExactDeliveryIff` says of every reachable state exactly when each message
triggers exactly the hooks that want it. `Updates.ReplacementDeliversIff` says of every connected state, whatever
updates came before, exactly which replacements leave it so, in terms of the state before the call: the new row
and the iteration order, what the subscription has bound and stored, and the bindings of others.
`Updates.AnyOrderDeliversIff` says the same of all iteration orders at once. `Agreement.UpdateRefinesReregisterIff` and
`Replacements.StepCleanIff` say exactly when an update leaves the index itself as a restart would build it, which is
more.

## Assumptions

- wazo_bus is not part of this model. Its consumer is taken by its interface: a table from event name to a list
  of (handler, binding); `unsubscribe` removes the first entry with that handler and unbinds its binding in the
  broker; a reconnection declares the queue with the binding of every entry of the table; `is_running` holds
  exactly while connected; a message's event name is its `name` header, and a subscription's binding carries
  its headers plus `name` and `x-match`.
- The broker holds a set of bindings, each identified by its arguments: binding twice is binding once, and
  unbinding removes it. Matching is that of a headers exchange (section 3.1.3.4 of AMQP 0-9-1), for string and
  boolean values, with keys beginning `x-` left out.
- The master tenant is known whenever a subscription is registered or updated.
- Every callback object has its own identity, and publications of the service reach the index synchronously.
  A commit that follows a successful flush succeeds, and so does notifying.
- The database gives every row a key no row has; the key is a parameter. Several operations on the same
  subscription do not overlap. Sets are iterated in an arbitrary order, which methods return.

## Model

| member | source | states |
|---|---|---|
| `Headers.LocalFilterIsBrokerRule` | wazo_webhookd/bus.py:42-54 | the local filter on a headers exchange accepts a message iff the broker's matching rule does, match-all and match-any |
| `Headers.FilterMeaning` | wazo_webhookd/bus.py:42-54 | the filter's verdict written out: everything passes on another kind of exchange; otherwise all, or with an `x-match` other than "all" some, of the binding's keys that do not begin with `x-` agree |
| `Headers.ReservedKeysDoNotCount` | wazo_webhookd/bus.py:48-52 | adding or removing a key that begins with `x-` never changes the verdict, `x-match` of the binding excepted |
| `Headers.OnlyVoicemailRewritten` | wazo_webhookd/plugins/subscription/bus.py:181-193 | headers are rewritten for `global_voicemail_message_created` and no other event, and how |
| `Headers.HandleTenantEvents` | wazo_webhookd/plugins/subscription/bus.py:181-193 | the loop drops every `user_uuid:` key and adds the wildcard for the voicemail event, and changes nothing for others |
| `Headers.WidenedMeaning` | wazo_webhookd/plugins/subscription/bus.py:185-191 | the rewrite is idempotent, keeps every key naming no user, leaves exactly one that does, and is the identity iff that was already so |
| `Headers.BuildHeaders` | wazo_webhookd/plugins/subscription/bus.py:75-90 | the dictionary built step by step is the base headers of the row |
| `Headers.BaseEntries` | wazo_webhookd/plugins/subscription/bus.py:75-90 | which keys the headers have, with which values, and that there are no others |
| `Headers.BaseBindingMeaning` | wazo_webhookd/plugins/subscription/bus.py:75-105 | a subscription's binding accepts exactly the messages of the event with its tenant, origin and user; no two header keys collide |
| `Headers.WidenedBindingMeaning` | wazo_webhookd/plugins/subscription/bus.py:181-193 | the widened binding keeps tenant and origin and asks for the wildcard user instead |
| `Headers.SubscriptionHeadersAreMarked` | wazo_webhookd/plugins/subscription/bus.py:75-79 | base and widened headers both carry the subscription's own mark and none of the keys the consumer adds |
| `Headers.ArgumentsIdentity` | wazo_webhookd/plugins/subscription/bus.py:77-79 | bindings of one subscription and event are the same iff their headers are; the owner and event can be read off a binding |
| `Headers.WidenedIsBase` | wazo_webhookd/plugins/subscription/bus.py:185-191 | widening a subscription's headers changes nothing iff it watches the wildcard user |
| `Consumers.SubscribeCell` | wazo_webhookd/bus.py:107-112 | subscribing adds one entry and its binding to the cell of the handler's owner and event, and touches no other cell |
| `Consumers.UnsubscribeCell` | wazo_webhookd/plugins/subscription/bus.py:107-115 | unsubscribing removes the handler's first entry and its binding from that one cell only |
| `Consumers.OwnedRemoveFirst` | wazo_webhookd/plugins/subscription/bus.py:107-115 | removing a handler's first entry from a shared list is, for its owner, removing it from the owner's entries, and for everyone else nothing |
| `Consumers.RedeclareCell` | wazo_webhookd/bus.py:114-118 | after a reconnection the broker holds the bindings of every entry of every cell |
| `Consumers.DisconnectCell` | wazo_webhookd/bus.py:120-122 | a connection loss empties the broker's side and keeps every entry |
| `Bus.WebhookdExchange.SubscribeConnected` | wazo_webhookd/bus.py:211-227 | the event is bound upstream and remembered; the cloned connection is opened if need be |
| `Bus.WebhookdExchange.Declare` | wazo_webhookd/bus.py:229-234 | everything remembered is bound upstream again, whatever the broker still had |
| `Bus.WebhookdExchange.OnConnectionError` | wazo_webhookd/bus.py:236-240 | the clone is released if there is one; the remembered bindings survive |
| `Bus.BusConsumer.Subscribe` | wazo_webhookd/bus.py:107-112 | connected or not, table, queue binding, upstream binding and remembered names end as one subscription step |
| `Bus.BusConsumer.Unsubscribe` | wazo_webhookd/plugins/subscription/bus.py:114-115 | the search loop removes the first entry of that handler and its binding, or changes nothing |
| `Bus.BusConsumer.GetConsumers` | wazo_webhookd/bus.py:114-118 | the whole state after declaring exchange and queue again |
| `Bus.BusConsumer.OnConnectionError` | wazo_webhookd/bus.py:120-122 | the whole state after losing the connection |
| `Bus.BusConsumer.Dispatch` | wazo_webhookd/bus.py:56-80 | every matching handler of the table as it was at the start is called once, in order, whatever handlers do to the table; one that raises is reported and the rest are still called, in the state it left |
| `Bus.AfterCallsIsLast` | wazo_webhookd/bus.py:61-80 | a dispatch ends in the state its calls lead to one after the other, each finding what the one before left, whether that returned or raised |
| `Bus.FailedCallsRaised` | wazo_webhookd/bus.py:74-79 | the calls reported are exactly those that raised in the state they were made in, in order |
| `Bus.SelectedInOrder` | wazo_webhookd/bus.py:61-63 | the handlers called are exactly those of the entries the filter accepts, in order |
| `Bus.SelectedCounts` | wazo_webhookd/bus.py:56-80 | a handler is called as often as it is listed with a binding the broker would match |
| `SubscriptionIndex.SubscriptionBusEventHandler.Subscribe` | wazo_webhookd/plugins/subscription/bus.py:62-64 | registers every listed row, each with a callback of its own |
| `SubscriptionIndex.SubscriptionBusEventHandler.OnCreated` | wazo_webhookd/plugins/subscription/bus.py:92-105 | callback entry, one bus entry per event with that event's headers |
| `SubscriptionIndex.SubscriptionBusEventHandler.OnDeleted` | wazo_webhookd/plugins/subscription/bus.py:107-115 | callback entry and bus entries gone; an unknown uuid changes nothing |
| `SubscriptionIndex.SubscriptionBusEventHandler.OnUpdated` | wazo_webhookd/plugins/subscription/bus.py:117-142 | the four-branch loop with its reassigned headers, over an arbitrary order of the two event sets; an unknown uuid is a key error |
| `SubscriptionIndex.SubscriptionBusEventHandler.UpdateEvent` | wazo_webhookd/plugins/subscription/bus.py:130-139 | the four branches for one event, which `CellStepOutcome` reads |
| `Listeners.LoopCarriedHeaders` | wazo_webhookd/plugins/subscription/bus.py:128-129 | the headers the loop ends with, and stores, are widened iff the voicemail event was gone through |
| `Listeners.HeadersAtStep` | wazo_webhookd/plugins/subscription/bus.py:128-129 | for every order and step: base headers until the voicemail event has come, widened from then on |
| `Listeners.CellStepOutcome` | wazo_webhookd/plugins/subscription/bus.py:130-139 | every branch leaves one entry of the new callback on a wanted event and none on a dropped one; the binding survives unless the subscribe-first branch removes it again |
| `Listeners.UpdateAllCell` | wazo_webhookd/plugins/subscription/bus.py:126-139 | the update loop processes each cell of its subscription at most once, and no cell of another |
| `Listeners.UpdateFollows` | wazo_webhookd/plugins/subscription/bus.py:117-142 | for every iteration order, after an update each new event holds exactly the new callback, no event the previous one, with these headers and bindings; nobody else's callbacks, entries or bindings change |
| `Listeners.RegisterFollows` | wazo_webhookd/plugins/subscription/bus.py:92-105 | the same for a registration |
| `Listeners.UnregisterFollows` | wazo_webhookd/plugins/subscription/bus.py:107-115 | after unregistering nothing of the subscription is left and nothing else changed |
| `Models.Subscription.FromSchema` | wazo_webhookd/database/models.py:167-199 | relations are appended to; fields not given are kept |
| `Models.Subscription.ClearRelations` | wazo_webhookd/database/models.py:160-165 | the three relations are emptied and nothing else changes |
| `Models.Subscription.Config` | wazo_webhookd/database/models.py:148-150 | the comprehension read as a map, the last value of a key winning |
| `Models.AsMapOfDict` | wazo_webhookd/database/models.py:148-154 | a dictionary stored as pairs reads back with no key lost, added or swapped |
| `Models.AsMapLastWins` | wazo_webhookd/database/models.py:148-154 | where a key is repeated the last pair counts |
| `Models.FilledKeepsFormer` | wazo_webhookd/database/models.py:182-190 | without clearing first, supplied relations come after the former ones |
| `Models.ReplaceRoundTrip` | wazo_webhookd/database/models.py:160-199 | after clearing and filling, reading back gives exactly the supplied config, metadata and events; fields not supplied keep their values |
| `Store.MetadataQueryMeaning` | wazo_webhookd/plugins/subscription/service.py:97-117 | filter by disjunction, group, count distinct keys: selects exactly the subscriptions with a row for every searched pair, repeated keys included |
| `Store.ListMeaning` | wazo_webhookd/plugins/subscription/service.py:80-118 | `list` returns exactly the rows meeting every filter given; an absent or empty filter asks nothing |
| `Service.SubscriptionService.Create` | wazo_webhookd/plugins/subscription/service.py:142-152 | rows, index and fault after a creation are those `CreatedIff` speaks of |
| `Service.CreatedIff` | wazo_webhookd/plugins/subscription/service.py:142-152 | a creation succeeds iff the key is new, an owner tenant is given and no event is repeated; then one row comes last with the payload's content field by field; otherwise nothing changes |
| `Service.SubscriptionService.Modify` | wazo_webhookd/plugins/subscription/service.py:154-173 | rows, index and fault after a replacement are those `ModifiedIff` speaks of |
| `Service.ModifiedIff` | wazo_webhookd/plugins/subscription/service.py:120-134 | which fault a replacement ends with, in each case iff: no row of that key within the tenants and owner given, a repeated event, a missing callback; otherwise that row alone changes, in its place |
| `Service.SubscriptionService.Delete` | wazo_webhookd/plugins/subscription/service.py:175-182 | rows, index and fault after a deletion are those `DeletedIff` speaks of |
| `Service.DeletedIff` | wazo_webhookd/plugins/subscription/service.py:120-134 | a deletion succeeds iff a row of that key is within the tenants and owner given, and is then the only one to go; otherwise nothing changes |
| `Service.SubscriptionService.RemoveUser` | wazo_webhookd/plugins/subscription/service.py:270-285 | deletes, in the set's order, each row found as owner or watched user once |
| `Service.SubscriptionService.RemoveTenant` | wazo_webhookd/plugins/subscription/service.py:287-298 | deletes the rows listed for the tenant |
| `Runs.StepKeepsInv` | wazo_webhookd/plugins/subscription/service.py:142-182 | any operation keeps rows, callbacks, table and broker one state, and other subscribers' handlers in the table and bound; one that fails changes nothing; an update never misses its callback |
| `Runs.RunKeepsInv` | wazo_webhookd/plugins/subscription/service.py:142-182 | so does any run of creations, replacements, deletions, handlers subscribed by others, connection losses and reconnections |
| `Runs.ForeignSubscribed` | wazo_webhookd/bus.py:107-112 | a handler subscribed by a plugin or the service is bound while connected and touches no subscription |
| `Agreement.StartupInv` | wazo_webhookd/plugins/subscription/bus.py:62-64 | `subscribe()` over any stored rows establishes that state when nothing was registered before |
| `Agreement.RegisterAllCounts` | wazo_webhookd/plugins/subscription/bus.py:62-64 | whatever the index holds, each listed row gets one more callback for each of its events |
| `Agreement.LateStartupIff` | wazo_webhookd/plugins/subscription/plugin.py:66-67 | over an index that follows subscriptions already, `subscribe()` leaves one callback per listed row and event iff no listed row with an event was registered before; such a row has two |
| `Agreement.TableMatchesRows` | wazo_webhookd/plugins/subscription/bus.py:92-142 | for every event, each row listing it has exactly one callback, carrying the row as it is now, and there is no other |
| `Agreement.IndexEqualsRebuild` | wazo_webhookd/plugins/subscription/bus.py:62-142 | callbacks and handler table are what a restart would build from the rows; bound and stored headers too while every listener is clean |
| `Agreement.BrokerAgreesIff` | integration_tests/suite/helpers/base.py:210-215 | while connected the broker holds exactly the bindings of the table's callbacks iff no listener has lost one, and never holds another |
| `Agreement.UpdateEqualsRegisterIff` | wazo_webhookd/plugins/subscription/bus.py:117-142 | the exact condition for an update to leave a subscription as a registration would |
| `Agreement.UpdateRefinesReregisterIff` | wazo_webhookd/plugins/subscription/bus.py:107-142 | an update does to the whole index, remembered and upstream events included, what unregistering and registering would iff that condition holds |
| `Agreement.FirstUpdateLosesIff` | wazo_webhookd/plugins/subscription/bus.py:134-136 | the first update after a registration loses a binding iff it is the kept voicemail event's, the old row watched no wildcard user, and tenant and origin are unchanged |
| `Agreement.CleanReplacementIff` | wazo_webhookd/plugins/subscription/bus.py:117-142 | after a registration, whether an update equals registering anew is decided by the two rows and the connection alone |
| `Delivery.TriggeredExactly` | wazo_webhookd/bus.py:42-80 | in every reachable state a message triggers a row's hook once iff the row listens with headers that match and the message reaches the queue |
| `Delivery.DeliveredThrough` | wazo_webhookd/bus.py:42-122 | a message calls a handler iff its event is bound upstream, some queue binding accepts it, and so does a binding of the handler under that event |
| `Delivery.WidenedSlotMisses` | wazo_webhookd/plugins/subscription/bus.py:128-139 | in any state, an event other than the voicemail event bound with the wildcard user misses a message its row wants, live or not |
| `Delivery.ServedIff` | wazo_webhookd/bus.py:42-54 | all messages a match-all binding accepts reach the queue, by whatever binding, iff the least of them does |
| `Delivery.ExactDeliveryIff` | wazo_webhookd/bus.py:42-122 | in every reachable state: every message triggers exactly the hooks of the rows that want it, once each, iff every callback has the binding a registration gives it and that binding's least message gets through |
| `Delivery.CleanDelivery` | wazo_webhookd/bus.py:42-122 | which clean listeners and a connection ensure |
| `Replacements.StepCleanIff` | wazo_webhookd/plugins/subscription/service.py:142-182 | in a state whose listeners are all as a restart would make them, an operation leaves them so iff it is not a replacement failing the condition on the two rows |
| `Replacements.EveryRunDelivers` | wazo_webhookd/bus.py:107-122 | from any stored rows, after any run whatever, the same iff holds of the state it ends in; and delivery is exact if it ends connected and its replacements were clean |
| `Updates.EveryOrderKeepsHeadersIff` | wazo_webhookd/plugins/subscription/bus.py:126-129 | an event other than the voicemail event keeps its own headers in every iteration order iff the voicemail event is in neither list or the row watches the wildcard user |
| `Updates.ReplacementDeliversIff` | wazo_webhookd/plugins/subscription/bus.py:117-142 | from any connected state, delivery is exact after a replacement iff no other event came after the voicemail event (or the row watches the wildcard user), every binding the update drops is made up for by others, and the other subscriptions have their own headers and remain served |
| `Updates.AnyOrderDeliversIff` | wazo_webhookd/plugins/subscription/bus.py:117-142 | it is so in every iteration order iff a condition on the rows and the state before the call holds |
| `Updates.OthersInPlace` | wazo_webhookd/plugins/subscription/bus.py:117-142 | the condition on other subscriptions holds while their bindings are in the broker with their own headers |
| `Updates.DropsIff` | wazo_webhookd/plugins/subscription/bus.py:134-136 | an update drops the voicemail binding iff plain headers are stored and tenant and origin stay, any other event's iff widened headers are stored and tenant, origin and user stay; neither if the former row watched the wildcard user |
| `Updates.SameBaseIff` | wazo_webhookd/plugins/subscription/bus.py:75-90 | two versions of a row have the same plain headers iff they ask for the same tenant, origin and user |
| `Replacements.EveryRunIsARebuild` | wazo_webhookd/plugins/subscription/bus.py:62-142 | after any run at all, callbacks and table are those a restart builds from the final rows; after clean replacements the headers too |
| `Replacements.ReconnectionRestoresBindings` | wazo_webhookd/bus.py:201-204 | after a reconnection the broker holds exactly the table's bindings, whatever updates had lost |
| `Replacements.LossSilences` | wazo_webhookd/bus.py:120-122 | without a connection nothing is delivered, while rows, callbacks and handlers stay |
| `Muting.UnchangedUpdateMutesVoicemail` | wazo_webhookd/plugins/subscription/bus.py:134-136 | a concrete subscription replaced with its own content: rows unchanged, no error, and a message that triggered its hook no longer reaches the queue |
| `Muting.SecondUnchangedUpdateMutesOthers` | wazo_webhookd/plugins/subscription/bus.py:134-142 | a concrete subscription replaced twice with its own content: no error, rows unchanged, and after the second the broker has no binding for its ordinary event, whose message no longer reaches the queue |
| `Muting.AddedVoicemailMutesOthers` | wazo_webhookd/plugins/subscription/bus.py:128-133 | a concrete subscription given the voicemail event besides its own: every binding is in the broker, and a message that triggered its hook, and is still wanted, no longer does |
| `Queues.SharedQueueRefinesPrivateIff` | wazo_webhookd/bus.py:36-80 | for any binding, match-all or match-any: whatever the messages, an entry receives through the shared queue exactly, and in order, what a queue of its own, dispatched by event name as well, would give it, iff every message of the event that its binding accepts reaches the queue |
| `Queues.FullyBoundIff` | wazo_webhookd/bus.py:107-122 | in every reachable connected state all bindings of the table, other subscribers' included, are in the broker iff no update lost one |
| `Queues.EveryRunSharesOneQueue` | wazo_webhookd/bus.py:36-122 | after any run that ends connected every other subscriber's handler receives exactly its private queue, a hook does iff its binding's least message gets through, and all do if no update lost a binding |
| `Interleaving.AdvanceFrame` | wazo_webhookd/plugins/subscription/bus.py:92-142 | one lock section or bus call of one thread is invisible to every other subscription |
| `Interleaving.AdvanceLocal` | wazo_webhookd/plugins/subscription/bus.py:92-142 | what a thread does depends only on its own subscription's callback, entries and bindings |
| `Interleaving.PerformIsSections` | wazo_webhookd/plugins/subscription/bus.py:92-142 | registering, unregistering and updating are a lock section, a list of bus calls, and for updates a second lock section |
| `Interleaving.ScheduleProjects` | wazo_webhookd/plugins/subscription/bus.py:92-142 | in any interleaving each subscription ends as if its thread had taken its turns alone |
| `Interleaving.ScheduleNames` | wazo_webhookd/bus.py:107-112 | the events remembered in the end are those of the start and those each thread's own turns add |
| `Interleaving.InterleavingsAgree` | wazo_webhookd/plugins/subscription/bus.py:92-142 | two interleavings giving every thread as many turns end with the same callbacks, bindings, remembered and upstream events, and handler lists up to order |
| `Interleaving.InterleavingIsSerial` | wazo_webhookd/plugins/subscription/bus.py:92-142 | any interleaving in which every thread finishes ends as running the requests one after the other in any order, up to list order |
| `Interleaving.LinkedInterleavingIsSerial` | wazo_webhookd/bus.py:114-122 | with the connection lost and restored anywhere between the turns, callbacks, handler lists up to order and remembered events still end as in the serial run |
| `Interleaving.RestoredLast` | wazo_webhookd/bus.py:114-118 | and if a reconnection comes last every entry is bound |
| `Interleaving.LostLast` | wazo_webhookd/bus.py:120-122 | and if a loss comes last the broker holds nothing and the process's own side is as before it |
| `Cleanup.Session.RemoveTenants` | wazo_webhookd/bin/sync_db.py:96-116 | for every iteration order, exactly the rows of known tenants remain |
| `Cleanup.Session.RemoveUsers` | wazo_webhookd/bin/sync_db.py:119-141 | for every iteration order, exactly the rows whose owner and watched user are each absent, empty or known remain |
| `Cleanup.SyncIsExactFilter` | wazo_webhookd/bin/sync_db.py:91-93 | the whole synchronisation is that one filter, and running it again changes nothing |
| `Cleanup.DeleteAllRows` | wazo_webhookd/plugins/subscription/service.py:281-285 | a series of deletions in any order, with repetitions, leaves exactly the rows not named |
| `Cleanup.DeleteAllExact` | wazo_webhookd/plugins/subscription/bus.py:107-115 | the same series removes callbacks, entries and bindings of exactly the subscriptions named |
| `Cleanup.LiveUserRemoval` | wazo_webhookd/plugins/subscription/service.py:270-285 | the live removal deletes the rows the offline one does iff the uuid is not empty or no row would be spared anyway; with an empty uuid it deletes every row |
| `Cleanup.LiveTenantRemoval` | wazo_webhookd/plugins/subscription/service.py:287-298 | the live removal of a tenant deletes exactly the rows the offline one does, and their handlers |
| `Mobile.MobileService.OnExternalAuthAdded` | wazo_webhookd/services/mobile/plugin.py:188-196 | other authentication types change nothing; mobile ones ensure the subscription |
| `Mobile.MobileService.OnExternalAuthUpdated` | wazo_webhookd/services/mobile/plugin.py:198-206 | likewise |
| `Mobile.MobileService.OnExternalAuthDeleted` | wazo_webhookd/services/mobile/plugin.py:208-227 | the mobile subscriptions found are deleted, and none of the deletions fails |
| `Mobile.MobileService.EnsureMobileSubscription` | wazo_webhookd/services/mobile/plugin.py:229-292 | none found: one is created; one: nothing; several: all but the first deleted |
| `Mobile.CreatedIsFound` | wazo_webhookd/services/mobile/plugin.py:269-291 | the row created satisfies the query that looks for it, and its events are distinct |
| `Mobile.LinkCreates` | wazo_webhookd/services/mobile/plugin.py:262-292 | an event that links a user for whom the query finds nothing adds one row at the end: watched user, origin, service, name, options, metadata and the six events as listed |
| `Mobile.LinkedIsHeard` | wazo_webhookd/services/mobile/plugin.py:262-292 | from a connected state in order, that user's hook is then triggered, once, by exactly the messages of those events that carry the tenant and the user, or the wildcard user for the global voicemail event |
| `Mobile.HandleExact` | wazo_webhookd/services/mobile/plugin.py:188-292 | any event leaves the rows its query finds as specified (none; or exactly one, the first there was or the one created) and every other row untouched, in order |
| `Mobile.RunExact` | wazo_webhookd/services/mobile/plugin.py:188-292 | over any run, empty users included, the mobile rows of a tenant are what its own events make of them, one by one |
| `Mobile.LastEventDecides` | wazo_webhookd/services/mobile/plugin.py:188-292 | over any run the last event touching a pair decides: linked by its own user, exactly one subscription, the first it had if it was only ever linked; unlinked, none; linked by the empty user, at most one; untouched, what it had |
| `Mobile.OtherRowsUntouched` | wazo_webhookd/services/mobile/plugin.py:188-292 | over any run, rows no event's query finds (no mobile subscriptions, or of other users and tenants) survive unchanged, in order |
| `Mobile.HandleExactIff` | wazo_webhookd/services/mobile/plugin.py:188-292 | an added, updated or deleted event does exactly that to its own pair, and nothing to anyone else's rows, iff the user is not empty or every mobile row of the tenant is the empty user's own |
| `Mobile.HandleKeepsInv` | wazo_webhookd/services/mobile/plugin.py:188-292 | every event keeps rows, callbacks, table and broker one state |
| `Hooks.LogStore.CreateHookLog` | wazo_webhookd/plugins/subscription/service.py:221-256 | the row is stored, or the subscription is missing and nothing is raised, or the key is taken and it is raised |
| `Hooks.HookTask.HookRunner` | wazo_webhookd/plugins/subscription/celery_tasks.py:50-163 | one execution logs attempt, status and limit as specified and asks for a retry only within `max_retries` |
| `Hooks.RunShape` | wazo_webhookd/plugins/subscription/celery_tasks.py:59-163 | for every sequence of outcomes a hook ends, within the limit, logging 1, 2, ..., n: failures, then one success or error |
| `Hooks.DelaysGrow` | wazo_webhookd/plugins/subscription/celery_tasks.py:107-109 | delays strictly increase for a factor of at least two |
| `Hooks.WaitsSum` | wazo_webhookd/plugins/subscription/celery_tasks.py:107-109 | the time waited over n retries: n for factor one, at most one below it; above, (factor - 1) times it is at most factor^n - 1, with equality for an integer factor |
| `Hooks.RunDelay` | wazo_webhookd/plugins/subscription/celery_tasks.py:104-109 | every run waits exactly that sum over its retries, and no longer than the sum for all attempts allowed, for every factor that is not negative |
| `Hooks.AnotherAttemptIff` | wazo_webhookd/services/helpers.py:59-146 | another attempt follows iff the server refused with anything but 410, or did not answer, and attempts are left |
| `Hooks.LoggedStatus` | wazo_webhookd/plugins/subscription/celery_tasks.py:74-163 | every attempt but the last is logged as a failure, the last as a success iff the request was accepted and as an error otherwise, a refusal with 410 included |
| `Hooks.TruncateMeaning` | wazo_webhookd/plugins/subscription/celery_tasks.py:108 | delays are cut towards zero |
| `Hooks.InsertionMeaning` | wazo_webhookd/database/models.py:103-113 | an insertion succeeds iff the key is free and the subscription stored, and never changes a row that is there |
| `HookLogs.InsertionNeverCollides` | wazo_webhookd/database/models.py:103-113 | in every reachable state the log of an attempt is inserted, or its subscription is gone; its key is never taken |
| `HookLogs.OccurKeepsConsistent` | wazo_webhookd/database/models.py:97-114 | every event keeps: each log belongs to a stored subscription and one attempt of one hook, and no log of a live subscription is missing |
| `HookLogs.HistoryConsistent` | wazo_webhookd/plugins/subscription/service.py:221-256 | so does any interleaving of hooks, creations and deletions from empty tables |
| `HookLogs.HistoryTold` | wazo_webhookd/plugins/subscription/celery_tasks.py:50-58 | and each hook belongs to the subscription it was started for with one status per execution, the subscriptions stored being those stored and not dropped since |

## Left out

- Service.SubscriptionService.Modify: the rollback on a missing callback takes the publication to let the exception through; the pubsub is not part of this model. `Runs.StepKeepsInv` shows that the case does not arise.
- Interleaving.InterleavingIsSerial: one request per subscription, and no change of the connection (for that see `LinkedInterleavingIsSerial`, which leaves open what the broker holds unless a reconnection comes last); the code's locks do not cover the bus calls, so overlapping requests for one subscription are excluded.
- Hooks.AnotherAttemptIff: models the intended classes of request endings (410 final, other responses and missing answers retried, anything else an error), not the exception hierarchies of requests and httpx.
- Hooks.LogStore.CreateHookLog: leaves out timestamps, event and detail, which are stored and never read back by the code modelled.
- Bus.WebhookdExchange.SubscribeConnected: a subscription made while running without a usable connection, and broker errors, are not modelled; nor is the declaration of the exchange, nor that `_bindings` may hold several equal binding objects for one event.
- Bus.BusConsumer.Dispatch: the choice between one and two handler arguments is left out, as is dispatch of a message without headers.
- Runs.ForeignSubscribed: other subscribers' handlers bind to match all headers, as all of the code modelled does.
- Mobile.HandleExact: "the first" row is the first in insertion order, standing for whatever order the database returns.
- Celery's delivery of a retried task: each attempt is delivered once, after the previous one.
- The running daemon after an offline synchronisation keeps its callbacks until restarted; only the rebuild is covered.
- `subscribe_to_event_names` and `unsubscribe_from_event_names`, deprecated: they subscribe one callback object and unsubscribe another.
- FCM and APNs payloads and clients, the HTTP request itself, templating and content types: settled by reading one branch, or decided by other servers.
- REST resources, tokens, validation limits, log paging, the log purger and truncation: easy single-function facts.
- Process plumbing: configuration, workers, signals, database and broker initialisation.
