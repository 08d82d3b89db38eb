# Opinion trading back end: trading engine, event lifecycle and trade API

This project models the core of a back end for opinion trading. Users stake money on one
option of an event. An admin later names the winning option. Each winning stake is then
paid out at the option's odds.

Three parts are modelled, each with the record stores it uses:

- **Trading engine** (`TradeService`):
  - `createTrade` runs five checks in a fixed order, stores an `executed` trade and debits the stake.
  - `cancelTrade` refunds an executed trade and marks it `cancelled`.
  - `settleTrades` checks the event and the winning option. It then walks a snapshot of the event's trades. Each winner is credited before its trade is marked `settled` with an outcome and a settlement amount. Finally the event itself is marked `settled`.
- **Event lifecycle** (`EventService`):
  - partial update and deletion;
  - `settleEvent`, which marks each option's result from the winning id;
  - ingestion of an external feed, which creates an `upcoming` event only when no stored event of the same category has the same title.
- **Trade API** (`TradeController`):
  - the owner-or-admin rule;
  - validation of request bodies before the engine is called;
  - the per-event summary shown to non-admins;
  - the status code and body of every response.

The stores:

- The user store and the event store are classes over a `map` keyed by id.
- The trade store is a class over a `seq` in insertion order, with unique ids as its invariant. Order matters because `findByEventId` and the settlement result follow it.
- Every operation that changes a store is a method with a `modifies` clause.
  - The repository, service and controller methods give, on every branch, the whole new state of each store they may change, in terms of pure functions of the old state: `CreateCheck`, `SettleCheck`, `SettleStore`, `CreditAll`, `SettledList`, `Merge`, `MarkResults` and so on.
  - The exception is `FetchExternalEvents`. Its new store is stated by properties: stored events kept, each new event the stored form of the first feed item with its category and title, every item listed, no duplicates, and no change for a listed feed.
  - The methods in `scenarios.dfy` state only the property each sequence of calls shows.
- `TradeService.GetTradeById`, `GetTradesByUserId` and `GetTradesByEventId` pass straight through to the trade store's `FindIn`, `ByUser` and `ByEvent`. The controller uses them, and its contracts state their results.
- The properties the system relies on are proved as lemmas about those functions:
  - money moves only to winners;
  - a second pass pays nobody;
  - the summary's entries add up to its totals;
  - a settled event refuses settlement;
  - create followed by cancel restores the balance.

Modelling conventions:

- Money is exact `real` arithmetic. The payout of a winning stake is `amount * (1 / (odds || 0.5))`.
- Engine failures are `Result` values that carry the exact messages the services throw.
- Ids are strings. A store-assigned id is any id the store does not hold yet.

`settleEvent` has no status or option guard, unlike `settleTrades` (`src/application/services/TradeService.ts:135-142`):

- It marks any existing event `settled`, whatever its status or the winning id (`src/application/services/EventService.ts:71-102`).
- Lemma `SettleEventBlocksSettleTrades` proves the consequence sequenced in `Scenarios.SettleEventThenTrades`: once `settleEvent` has run, `settleTrades` on that event is refused, so its stakes are never paid out.

Files:

- `common.dfy`: `Option`, `Result`, decimal rendering, fresh keys.
- `models.dfy`: the records.
- `repositories.dfy`: the three stores.
- `settlement.dfy`: the engine's rules as functions, with lemmas.
- `trade_service.dfy`: the engine.
- `event_service.dfy`: the event lifecycle.
- `trade_controller.dfy`: the trade API.
- `scenarios.dfy`: sequences of calls.

## Model

| member | source | states |
|---|---|---|
| Common.NatToString | src/routes/controllers/TradeController.ts:169 | the count in the settlement message is written in decimal digits without leading zeros, and the digits spell exactly that count |
| Common.FreshKey | src/infrastructure/repositories/TradeRepository.ts:25-28 | the id a store assigns to a new record is one it did not hold |
| Repositories.CreditCancels | src/infrastructure/repositories/UserRepository.ts:29-35 | an increment by `-a` followed by one by `a` leaves every user exactly as before |
| Repositories.UserRepository.UpdateBalance | src/infrastructure/repositories/UserRepository.ts:29-35 | the balance grows by `delta` with no sign check, and nobody else changes; a missing id gives `None` and no change |
| Repositories.Stored | src/infrastructure/repositories/EventRepository.ts:21-24 | a created event keeps the draft's title, description, category, start and end times and status, and its options in order, each with its name and odds and an unset result |
| Repositories.EventRepository.FindByCategory | src/infrastructure/repositories/EventRepository.ts:17-19 | exactly the stored events of that category, under their own keys |
| Repositories.EventRepository.Create | src/infrastructure/repositories/EventRepository.ts:21-24 | the draft is stored under a key not in use, and nothing else changes |
| Repositories.EventRepository.Update | src/infrastructure/repositories/EventRepository.ts:26-32 | the present fields of the patch replace the stored ones and the merged event is returned; a missing id gives `None` and no change |
| Repositories.EventRepository.Delete | src/infrastructure/repositories/EventRepository.ts:34-37 | true exactly when the id was stored; the id's record is gone and nothing else changes |
| Repositories.FindIn | src/infrastructure/repositories/TradeRepository.ts:13-15 | `None` exactly when no trade has the id; otherwise a stored trade with that id, the only one when ids are unique |
| Repositories.ByUser | src/infrastructure/repositories/TradeRepository.ts:17-19 | a trade is listed exactly when it is stored with that userId |
| Repositories.ByEvent | src/infrastructure/repositories/TradeRepository.ts:21-23 | a trade is listed exactly when it is stored with that eventId; unique ids stay unique |
| Repositories.ApplyStatusUpdate | src/infrastructure/repositories/TradeRepository.ts:44-55 | the status is always written; the outcome only when one is given; the settlement amount whenever it is defined, 0 included; owner, event, option and amount never change |
| Repositories.TradeRepository.Create | src/infrastructure/repositories/TradeRepository.ts:25-28 | the record is appended under a fresh id and ids stay unique |
| Repositories.TradeRepository.UpdateStatus | src/infrastructure/repositories/TradeRepository.ts:38-58 | only the record with that id changes, as `ApplyStatusUpdate` says; the updated record is returned, and `None` exactly when the id is not stored |
| Repositories.WithoutId | src/infrastructure/repositories/TradeRepository.ts:60-63 | the store after `deleteOne` holds exactly the records with another id |
| Repositories.WithoutIdRemovesOne | src/infrastructure/repositories/TradeRepository.ts:60-63 | with unique ids, deletion removes one record when the id is stored and none otherwise, and ids stay unique |
| Repositories.TradeRepository.Delete | src/infrastructure/repositories/TradeRepository.ts:60-63 | true exactly when one record with that id was removed |
| Settlement.FindOption | src/application/services/TradeService.ts:59-62 | `None` exactly when no option has the id; otherwise the first option with it |
| Settlement.EffectiveOdds | src/application/services/TradeService.ts:156 | the divisor of the payout is the odds themselves, or 0.5 for zero odds; never zero |
| Settlement.PayoutTimesOdds | src/application/services/TradeService.ts:155-158 | the payout times the effective odds is the stake; zero odds pay double; a non-negative stake at positive odds pays a non-negative amount |
| Settlement.CreateCheck | src/application/services/TradeService.ts:41-62 | creation passes exactly when the user exists, the balance covers the stake, the event exists and is live, and the option exists; each message is returned exactly when the checks before it pass and its own fails |
| Settlement.BalanceCheckedBeforeEvent | src/application/services/TradeService.ts:46-53 | a user who cannot cover the stake gets "Insufficient balance" whatever the event store holds |
| Settlement.OnlyLiveEventsTrade | src/application/services/TradeService.ts:55-57 | an event that is not live accepts no trade |
| Settlement.SettleCheck | src/application/services/TradeService.ts:129-142 | settlement proceeds exactly when the event exists, is live or closed, and has the winning option, which is returned; each message is returned exactly when the checks before it pass and its own fails |
| Settlement.SettledEventRefusesSettlement | src/application/services/TradeService.ts:135-137 | a settled event refuses settlement, whatever option is named |
| Settlement.SettledTrade | src/application/services/TradeService.ts:152-169 | a settled executed trade has outcome win exactly when on the winning option, with the payout as settlement amount, and loss with 0 otherwise |
| Settlement.SettleStore | src/application/services/TradeService.ts:147-185 | every record keeps its id, owner, event, option and stake; a record that is not an executed trade of the event is unchanged; each executed trade of the event becomes settled, with outcome win and the payout exactly when on the winning option and loss with 0 otherwise; no executed trade of the event remains |
| Settlement.CreditAllBalances | src/application/services/TradeService.ts:152-159 | after the pass, each user's balance has grown by exactly their winnings, the payouts of their executed trades on the winning option; no user is added or otherwise changed |
| Settlement.NoWinningTradeNoWinnings | src/application/services/TradeService.ts:155-159 | a user without an executed trade on the winning option gains nothing |
| Settlement.IdlePass | src/application/services/TradeService.ts:147-150 | a pass over trades none of which is executed credits nobody and returns nothing |
| Settlement.SecondPassPaysNothing | src/application/services/TradeService.ts:147-150 | after one pass no trade of the event is executed, so a second pass credits nobody, returns nothing and changes no trade |
| Settlement.SettledListCount | src/application/services/TradeService.ts:171-172 | the pass returns one trade per executed trade of the event |
| Trading.TradeService.CreateTrade | src/application/services/TradeService.ts:40-95 | each failed check returns its message and changes nothing; success appends one executed trade with the caller's fields under a fresh id, and debits exactly the stake from its owner and from nobody else, never below zero |
| Trading.TradeService.CancelTrade | src/application/services/TradeService.ts:97-126 | a missing or non-executed trade is refused with no change; otherwise the stake is refunded to the owner and only that trade becomes cancelled |
| Trading.TradeService.SettleTrades | src/application/services/TradeService.ts:128-203 | a failed check changes nothing; otherwise the store becomes `SettleStore`, the users `CreditAll` over the event's trades, only that event becomes settled, and the settled executed trades are returned in store order |
| Trading.TradeService.SettlePass | src/application/services/TradeService.ts:144-185 | the loop over the snapshot of the event's trades yields `SettleStore`, `CreditAll` and `SettledList` of that snapshot |
| Trading.TradeService.SettleSnapshotTrade | src/application/services/TradeService.ts:148-184 | one iteration: a non-executed trade is skipped; an executed one has its winner credited and its record settled, and the settled record is appended |
| EventLifecycle.MarkResults | src/application/services/EventService.ts:78-81 | each option's result is true exactly when its id is the winning id; id, name, odds and order are kept |
| EventLifecycle.AtMostOneWinner | src/application/services/EventService.ts:78-81 | with distinct option ids at most one option is marked true, and none when the winning id names no option |
| EventLifecycle.ExactlyOneWinner | src/application/services/EventService.ts:78-81 | when the winning id names one of the distinct options, that option alone is marked true |
| EventLifecycle.SettledEventKeepsOptions | src/application/services/EventService.ts:78-87 | `settleEvent` sets status settled whatever the prior status and keeps title, category and every option's id, name and odds |
| EventLifecycle.SettleEventBlocksSettleTrades | src/application/services/EventService.ts:83-87 | after `settleEvent` the engine refuses to settle that event's trades |
| EventLifecycle.EventService.UpdateEvent | src/application/services/EventService.ts:53-69 | the patch is merged into the stored event; a missing id gives `None` and no change |
| EventLifecycle.EventService.SettleEvent | src/application/services/EventService.ts:71-102 | a missing id gives `None` and no change; otherwise only that event changes: the results are marked and its status becomes settled |
| EventLifecycle.EventService.DeleteEvent | src/application/services/EventService.ts:104-117 | true exactly when the id was stored; false leaves the store unchanged |
| EventLifecycle.EventService.FetchExternalEvents | src/application/services/EventService.ts:119-144 | stored events are kept; each new event is upcoming, was not listed before, and is the stored form of the first feed item with its category and title, so later duplicates in the feed are skipped; afterwards every feed item is listed; no new event shares category and title with another event; a feed already listed changes nothing |
| EventLifecycle.EventService.IngestItem | src/application/services/EventService.ts:124-139 | one feed item is created, under a fresh key, exactly when no stored event of its category has its title |
| TradeApi.Summarize | src/routes/controllers/TradeController.ts:67-83 | the summary counts every trade whatever its status and sums their amounts; it has an entry exactly for each option traded, holding that option's count and amount; the entries add up to the totals |
| TradeApi.AddTradeSummarizes | src/routes/controllers/TradeController.ts:68-81 | one step of the fold keeps the summary faithful to the trades counted so far |
| TradeApi.CreateBodyError | src/routes/controllers/TradeController.ts:100-106 | "Please provide eventId, optionId, and amount" exactly when a field is missing or falsy; "Amount must be greater than 0" exactly when the amount is negative; no error exactly when all are truthy and the amount is positive |
| TradeApi.OwnerRefusedAsWritten | src/routes/controllers/TradeController.ts:34 | with the caller's id an object id, the written test `trade.userId !== req.user._id` refuses a non-admin owner, whom the intended rule admits |
| TradeApi.MayAccessIntended | src/routes/controllers/TradeController.ts:49 | the intended owner-or-admin rule admits exactly admins and the owner, agrees with the written test when the id is a string, and admits everyone the written test admits |
| TradeApi.TradeController.GetTradeById | src/routes/controllers/TradeController.ts:25-42 | 404 exactly for a missing trade; 403 exactly when the caller is neither its owner nor an admin; 200 with the trade otherwise |
| TradeApi.TradeController.GetTradesByUserId | src/routes/controllers/TradeController.ts:44-58 | 403 exactly when the caller is neither that user nor an admin; otherwise exactly that user's trades, in store order |
| TradeApi.TradeController.GetTradesByEventId | src/routes/controllers/TradeController.ts:60-93 | an admin gets exactly the event's trades, in store order; anyone else gets their summary |
| TradeApi.TradeController.CreateTrade | src/routes/controllers/TradeController.ts:95-124 | an invalid body gets 400 with the controller's message and the engine is not called; otherwise the engine creates a trade for the caller: 201, or 400 with the engine's message and no change |
| TradeApi.TradeController.CancelTrade | src/routes/controllers/TradeController.ts:126-154 | 404 for a missing trade before 403 for a caller who is neither owner nor admin, both with no change; otherwise 200 with the cancelled trade, the refund to the owner and only that trade cancelled in the store, or 400 with the engine's message and no change |
| TradeApi.TradeController.SettleTrades | src/routes/controllers/TradeController.ts:156-178 | non-admins get 403 and a missing winning id gets 400, both with no change; otherwise 200 reporting the number of executed trades of the event as the count of trades settled, with the trade store, the balances and the event settled as the engine states them, or 400 with the engine's message and no change |
| Scenarios.CreateThenCancel | src/application/services/TradeService.ts:64-110 | a created trade can be cancelled, the cancellation returns it as cancelled, and every balance is as before the creation |
| Scenarios.CancelTwice | src/application/services/TradeService.ts:104-106 | a trade cannot be cancelled twice |
| Scenarios.SettleTwice | src/application/services/TradeService.ts:135-137 | after one settlement of an event, a second one is refused |
| Scenarios.SettleEventThenTrades | src/application/services/EventService.ts:83-87 | after `settleEvent`, `settleTrades` on the event is refused and no balance changes |
| Scenarios.FetchTwice | src/application/services/EventService.ts:123-139 | reading the same feed a second time changes nothing |

## Left out

- Notifications: the socket broadcasts after each operation are I/O whose failures are swallowed. They do not affect any result, so they are not modelled.
- Authentication: token verification is a foreign call. The API model starts from an authenticated caller, a `Principal`, whose id is the text of `req.user._id`. The admin-only gate of `settleTrades` is modelled inside `TradeApi.TradeController.SettleTrades` as a 403.
- `TradeApi.MayAccess`: compares the owner with the text of the caller's id, not with `req.user._id` by strict equality as the controller writes it; the difference is recorded under Findings.
- `getAllTrades`, `getEventById` and `getEventsByCategory` are direct store calls, and `createEvent` is a store call followed by a broadcast. The store operations they use are modelled. The service wrappers are not.
- Timestamps (`createdAt`, `updatedAt`) are dropped. `startTime` and `endTime` are opaque strings, so the feed's date parsing is not modelled.
- Malformed ids: the document store's `findById` throws a cast error on an id that is not a well-formed object id. In the code, `cancelTrade` then answers 400 with the cast message instead of 404. `createTrade` and `settleTrades` report the cast message instead of "Event not found". `updateEvent` and `deleteEvent` throw instead of returning null or false. The model treats every such id as simply absent.
- Store ids: new ids of trades and events are any id not in use, not database object ids. The id of an option of a created event is the event's key, a dash and its position.
- Floating point: money is exact real arithmetic. JavaScript rounding, `NaN` and infinite values are not modelled. A zero amount is the only falsy number.
- Request bodies: request fields are optional strings and numbers. No other JSON types are modelled.
- Concurrency and atomicity: every operation is one sequential step. Interleavings are not modelled, such as the trade being saved before the debit, or two settlements racing.
- The 500 responses for unexpected exceptions are not modelled.
- Controller null checks: the `Failed to cancel trade` 400 branch of `cancelTrade` cannot be reached sequentially. The trade was found just before, so there is no null return in that step.
- `EventLifecycle.EventService.FetchExternalEvents`: fetching the external feed is I/O, so the feed is an input sequence and the swallowed fetch errors are not modelled. The `try` also wraps the whole loop: a `create` that throws stops the rest of the feed silently, for example on an empty required title, description or category, or on a date that does not parse. The model processes every item, so it does not capture that early stop.
- The debit in `createTrade` is guarded by the user having an id. Every stored user has one, so the guard is not modelled.

## Findings

| source | as written | input that shows it | evidently intended | confidence | as-written member | corrected member |
|---|---|---|---|---|---|---|
| src/routes/controllers/TradeController.ts:34 | `trade.userId !== req.user._id` refuses a non-admin caller. Outside test mode, `req.user` comes from `findById(...).lean()`, so `_id` is an object id, and a string is never strictly equal to an object. The same test appears at lines 49 and 137. | a non-admin user whose id is `u1` asks for, or cancels, their own trade with `userId == "u1"`: the test refuses with 403 | the owner is compared by the text of the id, so the owner and admins pass | medium, not executed | TradeApi.OwnerRefusedAsWritten | TradeApi.MayAccessIntended |
