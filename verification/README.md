# Chat relay: a Dafny model of `main.py`

The server relays short chat messages between websocket clients. Each inbound
frame `author|content` is stored in the Supabase `messages` table with
`notified: false`. It is then broadcast as `<b>author</b>: content` to every
open websocket. Finally, a Web Push notification goes to every registered
push subscription, but only if the stored row still reads as not notified.
The row is patched to `notified: true` only if no delivery raised an
exception other than `WebPushException`. A newly connected
websocket first gets the stored history replayed to it.

The model keeps the server's own state and steps:

- `Frames`: the pure text handling. It covers the frame split at the first
  `|`, the rendered frame, and the notification body (the first 80
  characters of the content, plus `...` when it was cut).
- `Subscriptions`: the in-memory `push_subscriptions` list as a class with a
  sequence field. `subscribe` appends, `unsubscribe` filters, and
  `send_push_notification` loops over a snapshot and removes the entries its
  prune test selects. The test is a parameter: the relay passes the test as
  written at main.py:138, which never selects anything (see Findings), and the
  intended status-410 test is proved separately. The class keeps one
  invariant: every entry has an endpoint, and no two entries share one.
- `Connections`: the in-memory `connections` list as a class. It covers the
  append on accept, the broadcast loop over a snapshot that drops the
  websockets whose send failed, and the guarded removal on disconnect.
- `Store`: the `messages` table as a class holding a sequence of rows, in
  `created_at` order. A row's id is its position. The module also has the
  insert, the read of one row's `notified` field, the patch that sets it, and
  the history query.
- `Relay`: the `/ws` handler, made of connect plus history replay, and then,
  for each inbound frame: parse, insert, broadcast, notify.
- `Seqs` and `Wrappers`: the list comprehension with an `if`, `list.remove`,
  and an Option type.

The outside world becomes parameters (oracles):

- the outcome of the insert (`InsertOutcome`);
- whether the history query, the flag read and the flag patch reached the
  table (booleans);
- the set of websockets whose `send_text` fails;
- what `webpush` does for each subscription (`Delivery`): delivered, a
  `WebPushException` with an optional HTTP status, or any other exception.

Three facts about the code that the model keeps:

- History is fetched with `order=created_at.asc&limit=100`, which returns
  the oldest 100 rows. `Store.HistoryFrozen` proves that once 100 rows exist,
  new messages never appear in the replay.
- Replayed frames are rendered exactly like live frames
  (`Relay.ReplayMatchesLive`).
- A frame is broadcast before the notify step, and also to the websocket
  that sent it.

## Model

| member | source | states |
|---|---|---|
| Frames.ParseFrame | main.py:180-182 | a frame without `\|` yields nothing; otherwise the author holds no `\|` and author + `\|` + content is the frame |
| Frames.ParseFrameInverse | main.py:182 | joining a `\|`-free author and any content with `\|` splits back to the same author and content |
| Frames.RenderFrame | main.py:246 | the frame has the author and content plus nine characters of markup, and ends with the content exactly as received, unescaped |
| Frames.RenderFrameShape | main.py:246 | the broadcast frame is `<b>`, the author, `</b>: `, then the content unchanged, and its length is the sum of the parts |
| Frames.NotificationBody | main.py:122 | content of at most 80 characters appears verbatim after `author: `; longer content is cut to 80 characters and followed by `...` |
| Frames.NotificationBodyBounds | main.py:122 | the body starts with `author: ` and a prefix of the content, is at most author + 2 + 83 long, and has the marker exactly when the content is longer than 80 |
| Subscriptions.ContainsEndpoint | main.py:99 | the `any(...)` scan answers true exactly when some entry carries the endpoint |
| Subscriptions.Unsubscribed | main.py:112 | an entry survives unsubscribing exactly when its endpoint differs from the requested one |
| Subscriptions.SubscriptionRegistry.constructor | main.py:27 | the registry starts empty and well formed |
| Subscriptions.Subscribed | main.py:99-100 | a subscribe request keeps every existing entry in place and adds at most one at the end; afterwards an admissible endpoint is registered |
| Subscriptions.SubscriptionRegistry.Subscribe | main.py:95-101 | appends the subscription only when its endpoint is present, non-empty and new; endpoints stay unique |
| Subscriptions.SubscriptionRegistry.Unsubscribe | main.py:104-119 | the registry becomes the entries whose endpoint differs, in order; endpoints stay unique |
| Subscriptions.SubscriptionRegistry.SendPushNotification | main.py:121-139 | the body is built once; deliveries are tried in snapshot order up to and including the first one that raises a non-push exception; exactly the entries reached before that which the given prune test selects are removed; uniqueness holds afterwards |
| Subscriptions.SubscribedWellFormed | main.py:99-100 | subscribing preserves unique, present endpoints |
| Subscriptions.SubscribeOutcomes | main.py:98-100 | a known endpoint or a missing or empty one leaves the registry unchanged; a new one appends exactly that subscription at the end |
| Subscriptions.SubscribeTwice | main.py:99-100 | two subscribe requests with the same endpoint leave exactly one entry with it |
| Subscriptions.UnsubscribedWellFormed | main.py:112 | unsubscribing preserves unique endpoints |
| Subscriptions.UnsubscribedKeepsOrder | main.py:112 | no entry with the endpoint remains, and the others keep their relative order |
| Subscriptions.UnsubscribeMissingEndpoint | main.py:108-112 | a request without an endpoint removes nothing |
| Subscriptions.AfterPushWellFormed | main.py:128-139 | pruning during a push run preserves unique endpoints |
| Subscriptions.PushWithoutExceptions | main.py:128-139 | when nothing raises, every subscription is tried once in order, and the registry keeps exactly those the prune test does not select, in order: all of them under the test as written, those not reported 410 under the intended test |
| Subscriptions.GoneNeverRetried | main.py:136-139 | under the intended test, a subscription reported 410 is removed and is not tried by any later push run |
| Subscriptions.FirstRaise | main.py:128-139 | the run stops at the first delivery that raises an exception other than `WebPushException`, and at no earlier one |
| Subscriptions.PrunesAsWritten | main.py:138 | the test as written selects only 410 outcomes, and then only when the response is truthy |
| Subscriptions.AfterPush | main.py:128-139 | the registry after a run keeps, untouched and in order, every entry from the first raising delivery on, and is never longer than before |
| Subscriptions.AsWrittenNeverPrunes | main.py:138 | the test as written holds for no delivery outcome, so a push run leaves the registry exactly as it was, whether or not a delivery raises |
| Subscriptions.GoneSubscriptionSurvivesAsWritten | main.py:138-139 | a subscription answered with 410 stays registered under the test as written, and is removed under the intended test |
| Connections.Erase | main.py:277-278 | after removal a connection is absent and every other member is kept |
| Connections.Survivors | main.py:247-252 | exactly the members whose send did not fail remain |
| Connections.ConnectionRegistry.constructor | main.py:26 | the registry starts empty, with no duplicates |
| Connections.ConnectionRegistry.Add | main.py:160-161 | an accepted websocket is appended at the end |
| Connections.ConnectionRegistry.Remove | main.py:276-278 | disconnect removes the websocket if present, and is a no-op otherwise |
| Connections.SendAll | main.py:247-249 | one send per member, in the member order, each carrying the same frame |
| Connections.ConnectionRegistry.Broadcast | main.py:246-252 | each member of the snapshot, in order, is sent exactly the given frame; afterwards the registry is the old one minus the members whose send failed |
| Connections.SurvivorsDistinct | main.py:250-252 | after a broadcast the registry still holds no duplicates |
| Connections.RemoveFirstIsErase | main.py:252 | with no duplicates, `list.remove` removes the connection entirely |
| Connections.EraseIdempotent | main.py:276-278 | removing an absent connection, or removing twice, changes nothing more |
| Connections.SurvivorsKeepOrder | main.py:247-252 | dropping failed members keeps the survivors' relative order |
| Seqs.Filter | main.py:112 | a comprehension with an `if` keeps exactly the elements not dropped, and never lengthens the list |
| Seqs.RemoveFirst | main.py:139 | `list.remove` may only be applied to a present element, as Python raises `ValueError` otherwise; it drops the first occurrence and keeps everything else in order, one element shorter |
| Seqs.RemoveFirstAfter | main.py:139 | removing an element from a list in which it first appears after a prefix leaves that prefix followed by what came after the element |
| Store.Unnotified | main.py:264-265 | a missing field counts as notified, `null` as not notified, and a boolean flag as its own value |
| Store.NewRow | main.py:236 | a stored frame keeps author and content and starts not notified |
| Store.Dispatches | main.py:263-265 | the push goes ahead exactly when the read returned a row whose flag is `null` or `false` |
| Store.DispatchDecision | main.py:258-265 | for a given table, id and request outcome, the push goes ahead exactly when the request succeeded, the id names a row, and that row's flag is `null` or `false` |
| Store.ReadFlag | main.py:258-264 | a failed read gives nothing, an unknown id gives no row, otherwise the row's stored `notified` value |
| Store.Marked | main.py:268-272 | the patch sets only that row's flag to true and leaves every other row unchanged |
| Store.History | main.py:164-171 | the replayed rows are the first `min(100, n)` rows in storage order |
| Store.MessageStore.constructor | main.py:29 | the table holds the rows it was given |
| Store.MessageStore.Insert | main.py:229-243 | a stored frame is appended with `notified: false`; an id is returned only after a 201 with the created row, and it is that row's id |
| Store.MessageStore.SetNotified | main.py:268-272 | a patch that reaches the table marks the row; one that does not changes nothing |
| Store.InsertedRowDispatches | main.py:236-265 | the row just inserted reads back as not notified |
| Store.MarkedStopsDispatch | main.py:263-272 | after the patch, no later check on that id dispatches |
| Store.MarkedKeepsOthers | main.py:268-272 | the patch leaves every other id's dispatch decision unchanged |
| Store.MarkedEvolves | main.py:268-272 | the patch only ever moves a flag to true |
| Store.EvolvesTransitive | main.py:236-271 | over any number of inserts and patches, no flag goes from true back to false |
| Store.EvolvesKeepsNotified | main.py:263-271 | a row once marked notified keeps reading as notified |
| Store.HistoryFrozen | main.py:166-169 | once 100 rows exist, appending rows does not change the history |
| Relay.RowFrame | main.py:173 | a replayed row's frame has its author and content plus nine characters of markup |
| Relay.ReplayMatchesLive | main.py:171-173 | a stored message is replayed as exactly the frame it was broadcast as |
| Relay.Replay | main.py:171-173 | with status 200, one frame per history row in the order returned, rendered like a live frame; otherwise no frame |
| Relay.Connect | main.py:158-175 | the websocket is appended to the registry, then receives the replay |
| Relay.Notify | main.py:254-274 | without an id nothing happens; otherwise a push runs exactly when the read flag is not notified, it carries the notification body of this message's own author and content, and the flag is set to true only if that push did not raise and the patch reached the table; the subscription registry is unchanged, as the test at main.py:138 removes nothing; flags never revert |
| Relay.HandleFrame | main.py:177-274 | a frame without `\|` changes nothing; otherwise it is stored, every member of the snapshot is sent `<b>author</b>: content` of the parsed frame, and then it is notified, any push carrying that frame's notification body. A push is dispatched exactly when the insert returned an id and the read succeeded; the subscription registry is never changed |

## Left out

- The bot system (`load_bot`, main.py:41-70, and the command branch at main.py:184-227). The bundled `bot/bot.py` does not load, so `bot_module` is `None` and the branch never runs.
- `static/sw.js`, the static-file routes, and the HEAD and health routes (main.py:74-93, 141-154). These are browser glue or trivial I/O.
- The environment-variable checks at start-up (main.py:14-23), HTTP clients, `json.dumps` of the payload, VAPID signing, and the `print` logging. The insert, the flag read, the patch, the history query, `send_text` and `webpush` are oracles.
- Concurrency between websocket handlers. This includes the check-then-patch race on the `notified` flag (main.py:258-272). One frame is handled at a time, and no at-most-once guarantee is claimed across interleavings.
- Malformed request bodies. These include a non-JSON body, a subscription that is not an object, a non-string endpoint, and the 400 answer of `unsubscribe` (main.py:116-119). A subscription is modelled as an optional endpoint plus a key map.
- Relay.Replay: a `send_text` failure part-way through the replay is not modelled. It would end the replay early, through the exception caught at main.py:174.
- Relay.HandleFrame: exceptions in the receive loop other than a disconnect are not modelled. The `created[0].get("id")` being `None` is folded into `StoredOnly`.
- Subscriptions.SubscriptionRegistry.SendPushNotification: the live registry is written back once at the end of the run, or at the raising delivery, instead of at each `remove`. The function is synchronous, so no other handler observes the difference.
- Connections.ConnectionRegistry.Add: requires a websocket that is not already a member. Each accepted websocket is a fresh object, so a handle is never appended twice.
- Text is a sequence of code points. Python `len` and slicing count code points too; no encoding is modelled.

## Findings

| source | as written | input that shows it | evidently intended | confidence | as-written member | corrected member |
|---|---|---|---|---|---|---|
| main.py:138 | `if e.response and e.response.status_code == 410` tests the truthiness of a requests `Response` first. That truthiness is `ok`, which is false for every status from 400 to 599, so the condition never holds | a subscription whose push service answers 410 Gone: the `WebPushException` carries that response, `bool(response)` is false, and the entry stays registered and is retried by every later push | remove the subscription whenever the exception carries a response with status 410 | not executed; follows from the documented `Response.__bool__` of the requests library | Subscriptions.AsWrittenNeverPrunes | Subscriptions.GoneNeverRetried |
