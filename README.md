# Telegram Broadcast API — a Dafny model of the broadcast handler

The repository is one serverless HTTP handler, `api/broadcast.js`. Given a
bot token and a message body, it finds the users who recently wrote to the
bot and sends each of them the message with a fixed footer. It then reports
counts named `successful` and `failed`. Because of the `.catch` at line 106,
they are always the number of users and 0.

This project models the four pieces of logic inside that handler. The
Telegram client is replaced by abstract inputs:

- **Recipient resolution** (module `Recipients`): the updates are filtered
  to those with a truthy `message.from.id`, mapped to that id, and
  deduplicated through a `Set` that keeps first-insertion order. The result
  is specified on the feed itself by `ResolvedFrom`: no duplicates, exactly
  the ids some update carries, ordered by the first update that carries
  each. `ResolveFollowsFeed` and `ResolvedFromUnique` prove that the
  resolved list meets this, and that it is the only list that does.
- **Message composition** (module `Composition`): the body, a blank line,
  and the footer built from `SOCIAL_INFO.version` and
  `SOCIAL_INFO.developer`. The footer is 106 characters long, counted
  either as Unicode scalar values or as UTF-16 code units: every one of its
  characters is in the Basic Multilingual Plane.
- **Batch dispatch** (module `Dispatch`): a method with the source's loop.
  `i` runs over 0, 20, 40, …. Each batch `slice(i, i + 20)` is settled as an
  order-preserving map and appended to `results`. A ghost counter records
  the pause taken when `i + 20 < n`. `sendMessage`'s promise, the `.catch`
  at line 106 and `Promise.allSettled` are modelled as three separate
  steps, so the model shows why every entry comes out `fulfilled`.
- **Tally and responses** (module `Broadcast`): the `status` counts and the
  handler's branches. These are the root URL (200), missing or empty
  parameters (400), a token `getMe` rejects (401), a failed update fetch
  (500), no users (200 with zero counts) and the report (200).

Inputs that stand for the outside world:

- `Provider.acceptsToken` stands for `getMe`.
- `Provider.updates` stands for `deleteWebhook` followed by `getUpdates`.
  `None` means one of them threw.
- `Provider.send` gives each `sendMessage` request its outcome.
- `HttpRequest.body` or `HttpRequest.query` is `None` when that object is
  undefined or null. Destructuring either at line 43 throws, and the outer
  handler answers 500.

### Behaviour worth noting

- `failed` is always 0 and `successful` always equals `total_users`. The
  `.catch` at line 106 turns every rejection into a fulfilled value, so
  every `allSettled` entry has status `fulfilled` (`TallyOfDispatch`,
  `AllRefusedStillSuccessful`, `Broadcast.Handle`). The refusals are still
  present in the results as rejection records (`RefusalsRecorded`); the
  tally does not look at them.
- Every send uses `parse_mode: 'HTML'`. The requested parse mode only
  appears, echoed, in the report.
- The report carries no list of the users whose send failed.
- Any method other than POST reads its parameters from the query string.

## Model

| member | source | states |
|---|---|---|
| Recipients.SenderIds | api/broadcast.js:70-72 | no more ids than updates; an id appears exactly when some update carries it as a truthy (non-zero) `message.from.id`; no id is 0 |
| Recipients.Distinct | api/broadcast.js:69-73 | the deduplicated sequence is no longer than its input, has no duplicates, and has exactly the input's elements |
| Recipients.DistinctIsDistinctOf | api/broadcast.js:69-73 | the deduplicated sequence also keeps first-occurrence order: for i < j, the first occurrence in the input of element i comes before that of element j |
| Recipients.DistinctOfUnique | api/broadcast.js:69-73 | any two sequences that are duplicate-free, have the input's elements and keep first-occurrence order are equal, so the Set spread is fully characterised |
| Recipients.SenderId | api/broadcast.js:71-72 | no contract; the truthy `update.message?.from?.id`: `message`, `from` and `id` present and `id` not 0. Specified through `SenderIdsSingle` and `SenderIds` |
| Recipients.Resolve | api/broadcast.js:69-73 | no contract; `[...new Set(filter/map)]`, specified by `ResolveCorrect`, `ResolveFollowsFeed` and `ResolvedFromUnique` |
| Recipients.ResolveCorrect | api/broadcast.js:69-73 | `userIds` is exactly the distinct truthy sender ids in first-occurrence order (`DistinctOfUnique` makes that the only such sequence); no id is 0; at most one per update |
| Recipients.SenderIdsAppend | api/broadcast.js:70-72 | filtering and mapping distribute over concatenation of the feed, so the ids come out in the feed's order |
| Recipients.SenderIdsSingle | api/broadcast.js:70-72 | a single update contributes its id when it is truthy, and nothing otherwise |
| Recipients.FirstCarrier | api/broadcast.js:69-73 | the index of the first update carrying an id: it carries the id, and no earlier update does |
| Recipients.FeedOrder | api/broadcast.js:69-73 | an id that first occurs earlier among the mapped ids is first carried by an earlier update |
| Recipients.ResolveFollowsFeed | api/broadcast.js:69-73 | `userIds` has no duplicates, holds exactly the ids some update carries as a truthy `message.from.id`, and orders them by the first update carrying each |
| Recipients.ResolvedFromUnique | api/broadcast.js:69-73 | any sequence with those three properties equals `userIds`: the feed determines the recipients and their order |
| Recipients.ResolveEmpty | api/broadcast.js:71-75 | no users are resolved exactly when no update carries a truthy sender id; such updates are skipped |
| Composition.Compose | api/broadcast.js:88-90 | the sent text is the body, then "\n\n", then the footer; its length is the body's length plus 108 |
| Composition.FooterLength | api/broadcast.js:88-90 | with `SOCIAL_INFO` from lines 3-9, the footer built from the version "v2.0.0" and the developer "@Kaiiddo on Telegram" is 106 characters long |
| Composition.ComposeInjective | api/broadcast.js:88-90 | different bodies give different texts: the body can be recovered from the text |
| Dispatch.Request | api/broadcast.js:102-105 | no contract; the arguments of one `sendMessage`: the user, the composed text, `parse_mode` "HTML", link previews off. Specified through `UniformSends` |
| Dispatch.Requests | api/broadcast.js:101-105 | one request per user of the batch (as many requests as users); `UniformSends` states each request's fields |
| Dispatch.SendPromise | api/broadcast.js:102-105 | no contract; `sendMessage`'s promise resolves with the message sent, or rejects with the provider's error. Its effect is stated by `SettleBatch` |
| Dispatch.CatchRejection | api/broadcast.js:106 | after the `.catch`, every send's promise is resolved: a resolved promise is unchanged, and a rejection becomes the record `{status:'rejected', reason}` |
| Dispatch.Settle | api/broadcast.js:100 | no contract; the `allSettled` entry for a settled promise: fulfilled with its value, or rejected with its reason. Its effect is stated by `SettleBatch` |
| Dispatch.Status | api/broadcast.js:121-122 | no contract; the entry's `status` field, "fulfilled" or "rejected". Used by the tally lemmas |
| Dispatch.Deliver | api/broadcast.js:100-108 | no contract; one user's send, caught and settled. `SettleBatch` states its value for every send oracle |
| Dispatch.SettleBatch | api/broadcast.js:100-108 | one `allSettled` entry per user, in batch order; each entry is `fulfilled` and holds that user's own send outcome (the message, or the rejection record) |
| Dispatch.Batches | api/broadcast.js:97-99 | no contract; the slices `userIds.slice(i, i + 20)` for `i = 0, 20, …` below n. Specified by `BatchesFlatten`, `BatchesShape`, `BatchAt` and `BatchExists` |
| Dispatch.BatchesFlatten | api/broadcast.js:97-99 | concatenating the batches in order gives back `userIds`: nothing is lost, reordered or repeated |
| Dispatch.BatchesShape | api/broadcast.js:97-99 | there are ceil(n/20) batches; all but the last have exactly 20 users, and the last has 1 to 20 |
| Dispatch.BatchAt | api/broadcast.js:98-99 | when 20·j < n, batch j exists and is the contiguous slice `userIds.slice(20·j, 20·j + 20)` |
| Dispatch.BatchExists | api/broadcast.js:98 | batch j exists exactly when 20·j < n, the loop's condition `i < userIds.length` at `i = 20·j` |
| Dispatch.BatchesUnfold | api/broadcast.js:98-99 | the first batch is the slice of at most 20 at the front; the other batches are those of the remainder |
| Dispatch.DispatchAll | api/broadcast.js:97-115 | the loop's `results` are the settled entries of all users in order; one send per user in order; the batches dispatched are exactly the 20-slices; a pause follows every batch but the last (line 112); pauses = batches − 1, and 0 for no users |
| Dispatch.FortyFiveUsers | api/broadcast.js:97-114 | 45 users give three batches of 20, 20 and 5 (so, by `DispatchAll`, two pauses) |
| Dispatch.AtMostFiveBatches | api/broadcast.js:68-73 | a feed of at most 100 updates (`limit: 100`) gives at most 5 batches |
| Broadcast.StatusCode | api/broadcast.js:27-134 | no contract; the HTTP status of each response: 200 for the info, no-users and report answers, 400, 401, and 500 for the two failures. `Handle` states which branch gives which |
| Broadcast.IsRoot | api/broadcast.js:27 | no contract; the root URL test: `req.url` is "/" or empty. Used by `Handle` |
| Broadcast.SelectParams | api/broadcast.js:42 | no contract; `req.body` for POST and `req.query` for any other method, used by `Handle` |
| Broadcast.Truthy | api/broadcast.js:46 | no contract; JavaScript truthiness of a string parameter: present and non-empty |
| Broadcast.HasRequired | api/broadcast.js:46 | no contract; token and message both truthy. On defined parameters, `Handle` answers 400 exactly when this fails |
| Broadcast.EchoedParseMode | api/broadcast.js:43 | no contract; the default `parse_mode = 'HTML'` when the parameter is absent, echoed at lines 81 and 129 |
| Broadcast.CountStatus | api/broadcast.js:121-122 | `results.filter(r => r.status === s).length`: never more than the number of entries |
| Broadcast.Successful | api/broadcast.js:121 | no contract; the count of fulfilled entries. Specified by `TallyTotal`, `TallyAllFulfilled` and `TallyOfDispatch` |
| Broadcast.FailedCount | api/broadcast.js:122 | no contract; the count of rejected entries. Specified by the same lemmas as `Successful` |
| Broadcast.TallyTotal | api/broadcast.js:121-122 | `successful + failed` equals the number of `allSettled` entries |
| Broadcast.TallyAllFulfilled | api/broadcast.js:121-122 | when every entry is fulfilled, `successful` is the number of entries and `failed` is 0 |
| Broadcast.TallyOfDispatch | api/broadcast.js:100-122 | for any send outcomes, the tally of a dispatch has `successful` equal to the number of users and `failed` equal to 0 |
| Broadcast.RefusalsRecorded | api/broadcast.js:100-109 | the results hold exactly one rejection record per send the provider refused |
| Broadcast.AllRefusedStillSuccessful | api/broadcast.js:106-122 | for any provider that refuses every send, every entry holds a rejection record, yet every user counts as successful and none as failed |
| Broadcast.Handle | api/broadcast.js:27-134 | each branch and its status: root gives 200 before params are read; undefined params give 500; a missing or empty token or message gives 400; a rejected token gives 401; a failed fetch gives 500; no users gives 200 with zero counts; otherwise a report with total = successful = number of users, failed = 0, the echoed parse mode, message_length = body + 108, batch_size 20. Only a report sends, one send per user with the composed text; pauses = batches − 1 |
| Broadcast.UniformSends | api/broadcast.js:101-105 | every send goes to its user with the same composed text, `parse_mode` "HTML" and link previews off |
| Broadcast.OneSendPerUser | api/broadcast.js:98-109 | each resolved user appears in exactly one send |

## Left out

- The Telegram client (`new Telegraf`, `getMe`, `deleteWebhook`, `getUpdates`, `sendMessage`) is foreign network code. It is replaced by the `Provider` inputs. `deleteWebhook` dropping pending updates is folded into whatever `updates` holds.
- The concurrency of the sends within a batch and the one-second `setTimeout` are not modelled. A batch is an order-preserving map, which is exactly the order `Promise.allSettled` gives. Pauses are a ghost count, not timed.
- `Date.now`, the floating-point `duration` and `toFixed(2)` are clock reads and float formatting, so `duration_seconds` is not in `Response`.
- `createResponse` metadata (the ISO timestamp and the `SOCIAL_INFO` fields), the fixed texts of the info and error bodies, `res.setHeader`, JSON serialisation and `console.error` are presentation and I/O. Responses are the constructors of `Response`.
- The two 500 paths are modelled only by their cause. `BroadcastFailed` means `deleteWebhook` or `getUpdates` threw. `InternalError` means the parameter object is undefined. Their `error_details` text comes from foreign exceptions.
- Parameters are modelled as optional strings. Non-string JSON values for `token`, `message` or `parse_mode` (numbers, arrays) are not modelled.
- Characters are Unicode scalar values. They coincide with UTF-16 code units for text in the Basic Multilingual Plane, which covers the whole footer. A body with characters outside that plane has a `|message|` one lower per such character than JavaScript's `.length`.
- Composition.Compose: the footer is a fixed constant, as in the source. It is not a parameter.
