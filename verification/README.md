# Chat backend storage, rate limiting and conversation logic in Dafny

This project models the server side of a small chat application. The
application keeps conversations in a shared key-value backend (Redis) and
throttles clients with a sliding-log rate limiter on the same backend. It also
maps failures to JSON error responses, and its chat endpoint appends each
exchange to a conversation.

The backend is an immutable map from string keys to entries. An entry holds a
conversation record or a list of integer timestamps, plus an optional expiry
instant. The clock is a whole-second integer parameter. The Redis commands the
code issues (GET, SET, DEL, KEYS, LRANGE, LPUSH, EXPIRE) are pure transitions
in `Backend`. A command applied to a key of the other kind fails with
WRONGTYPE, as Redis does. A key is live while `now <= expiry`.

Modules, one per source file:

- `ConversationStore` (api/redis_client.py): save, get, delete, delete-all and
  listing over the keys `conversation:{id}`.
  - Listing and delete-all are methods whose loops take the keys in any order.
  - Delete-all also has a closed form, and the loop is proved equal to it.
- `RateLimit` (api/middleware/rate_limit.py): the per-client check under
  `rate_limit:{client}` and the middleware's allow/deny decision.
  - The main result is a theorem about runs of checks: with a clock that never
    goes back, no 60-second window ever holds more than `limit` admitted
    requests.
- `ErrorHandler` (api/middleware/error_handler.py): maps an exception kind to
  a status code, a message and an error type.
- `Chat` (api/chat.py) covers:
  - title truncation;
  - model fallback, with the language model as an oracle;
  - the new-or-existing conversation branch;
  - the user/assistant exchange and the apology text;
  - the title update and the single-conversation lookup.
- `Seed` (api/seed_examples.py): an optional delete-all followed by three
  saves, with an optional backend failure point.

The model follows the code as written, which is simpler than a hardened store would be:

- The limiter is a sliding log of timestamps, not a fixed-window counter.
- A backend error in the limiter propagates to the caller. There is no
  fail-open and no local cache.
- Conversations are stored with `str()` and read back with `eval()`. There is
  no JSON codec, no validation or normalisation, no retention TTL and no
  sorting of listings.
- The error handler's `RedisError` is imported from a module that does not
  define it. The model uses an abstract exception kind instead.

## Model

| member | source | states |
|---|---|---|
| ConversationStore.SaveConversation | api/redis_client.py:28-31 | the record becomes the value of `conversation:{id}`, and every other key (rate-limit keys included) is unchanged |
| ConversationStore.SaveThenGet | api/redis_client.py:28-48 | get after save returns the saved record |
| ConversationStore.SaveIsolated | api/redis_client.py:28-31 | saving one id does not change what get returns for any other id |
| ConversationStore.SaveOverwrites | api/redis_client.py:31 | saving twice under one id leaves only the second record |
| ConversationStore.GetConversation | api/redis_client.py:44-48 | a missing or expired key gives None; the stored record is returned exactly when the live key holds one; it fails exactly when the live key holds a list; in a well-formed store the record carries the requested id and get never fails |
| ConversationStore.DeleteConversation | api/redis_client.py:33-36 | removes exactly `conversation:{id}`; deleting an absent id leaves the store unchanged |
| ConversationStore.DeleteThenGet | api/redis_client.py:33-36 | after delete, get returns None, and deleting twice equals deleting once |
| ConversationStore.DeleteAllConversations | api/redis_client.py:38-42 | no live conversation key remains, and every other key keeps its entry |
| ConversationStore.DeleteAllLoop | api/redis_client.py:38-42 | the per-key delete loop over the KEYS result, in any order, ends in the delete-all state |
| ConversationStore.DeleteAllEmpties | api/redis_client.py:18-48 | after delete-all, get answers None for every id and every listing is empty |
| ConversationStore.GetConversations | api/redis_client.py:18-26 | result is one record per live `conversation:` key and nothing else, in some key order; fails exactly when such a key holds a list |
| ConversationStore.ListingMatchesGet | api/redis_client.py:18-26 | in a well-formed store, a record with id x is listed iff get(x) returns it |
| ConversationStore.KeyInjective | api/redis_client.py:30 | distinct ids name distinct keys |
| Backend.Namespaced | api/redis_client.py:30 | a namespaced key starts with its prefix and the rest of it is the id |
| RateLimit.NamespacesDisjoint | api/middleware/rate_limit.py:18 | no rate-limit key is a conversation key, and neither prefix matches the other namespace |
| RateLimit.Recent | api/middleware/rate_limit.py:23 | keeps exactly the stored times strictly after now - 60 |
| RateLimit.IsRateLimited | api/middleware/rate_limit.py:13-33 | denied iff the count of stored times after now - 60 reaches the limit; denial writes nothing; allowing pushes `now` on the head of the full stored list and sets expiry now + 60; after an allowed check the list holds at most `limit` times in (now - 60, now] |
| RateLimit.CheckWritesOnlyOwnKey | api/middleware/rate_limit.py:18-31 | a check changes no key other than `rate_limit:{client}` |
| RateLimit.CheckReadsOnlyOwnKey | api/middleware/rate_limit.py:18-19 | two stores that agree on the client's key give the same verdict and the same resulting entry there |
| RateLimit.CheckKeepsConversations | api/middleware/rate_limit.py:18-31 | a check changes no conversation and keeps the conversation store well formed |
| RateLimit.WellFormedPreserved | api/middleware/rate_limit.py:19-31 | when rate-limit keys hold lists, a check never fails and, like a save, keeps that so |
| RateLimit.RateLimitMiddleware | api/middleware/rate_limit.py:37-50 | when the client's window count reaches 60, the response is 429 with the fixed body and the store is unchanged, and the handler is not called; otherwise the handler's exact result on the updated store is returned |
| RateLimit.SlidingLogBound | api/middleware/rate_limit.py:13-33 | from a client with no key and a non-decreasing clock, every window (w - 60, w] holds at most `limit` admitted requests |
| ErrorHandler.HandleErrors | api/middleware/error_handler.py:17-59 | a returned response passes unchanged; validation errors map to 422 / "Validation error" / "validation_error"; storage errors map to 503 / "Storage service unavailable" / "storage_error"; anything else maps to 500 / "An unexpected error occurred" / the class name; every error body has status "error" and the exception text as details |
| ErrorHandler.ReportIdentifiesKind | api/middleware/error_handler.py:21-59 | two exceptions that yield the same report agree in kind and text |
| Chat.TitleShape | api/chat.py:108 | the title is at most 33 characters, starts with the message's first 30, and is the message itself when the message has at most 30 |
| Chat.TitleIdempotent | api/chat.py:108 | deriving a title from a title changes nothing |
| Chat.FirstServing | api/chat.py:69-80 | returns the first serving name in list order, or None exactly when no name serves |
| Chat.GetAvailableModel | api/chat.py:42-46 | picks gemini-2.0-flash, then gemini-1.5-pro, then gemini-1.0-pro, the first that answers; fails exactly when none does |
| Chat.ReplyText | api/chat.py:129-136 | the reply is the text the chosen model generates; it is the apology when no model answers or the chosen model's generation fails; any other reply is a listed, serving model's text |
| Chat.Title | api/chat.py:108 | a message of at most 30 characters is its own title; a longer one gives its first 30 characters followed by "..." |
| Chat.FindById | api/chat.py:116 | returns the first conversation of the listing with the id, or None exactly when none has it |
| Chat.Reraise | api/chat.py:153-154 | every exception caught by the endpoints' `except Exception` leaves as a 500, the not-found HTTPException with detail "404: Conversation not found" and a backend error with its own text |
| Chat.ChatUpdate | api/chat.py:103-143 | the saved record ends with exactly the user message then the assistant message; an existing id keeps id, title and created_at and restamps updated_at; an unknown id raises not-found; a missing or empty id with an unused fresh id yields a new record titled by the truncation rule, with both timestamps and only the exchange |
| Chat.ChatEndpoint | api/chat.py:94-154 | any failure saves nothing and reports 500; in a well-formed store an unknown id gives 500 "404: Conversation not found", and otherwise the store is the old store plus the one saved record described above |
| Chat.UpdateConversationTitle | api/chat.py:224-237 | succeeds iff the conversation exists; the record, with only title and updated_at changed, is saved under the key of its own id and every other key is unchanged; in a well-formed store that key is `conversation:{id}` itself; a missing one gives 500 |
| Chat.GetConversationEndpoint | api/chat.py:198-206 | returns the stored record exactly when get finds it; every failure is a 500 |
| Chat.MissingConversationIsServerError | api/chat.py:201-206 | a missing conversation is reported as 500 with detail "404: Conversation not found" |
| Chat.GetConversationEndpointIntended | api/chat.py:198-206 | with the intended re-raise, a missing conversation gives 404 "Conversation not found"; a well-formed store never gives 500 |
| Seed.ExampleConversations | api/seed_examples.py:8-63 | three records, each with its id, fixed title and fixed question/answer pair, timestamps taken in source order |
| Seed.Example | api/seed_examples.py:9-26 | example i has its id and fixed title, the user question then the assistant answer stamped with the first two clock readings, then created_at and updated_at from the next two |
| Seed.Steps | api/seed_examples.py:67-75 | with clearing, delete-all comes first; then each example is saved, in list order |
| Seed.SeedExamples | api/seed_examples.py:65-79 | a failure at step k leaves exactly the steps before k applied, and nothing is propagated; with no failure every step is applied |
| Seed.SeedWithoutClearKeepsOthers | api/seed_examples.py:67-74 | without clearing, every key except the three example keys is unchanged, so other conversations stay as they were |
| Seed.ClearingSeedSteps | api/seed_examples.py:65-75 | a completed clearing seed is delete-all, then the save of each example in list order |
| Seed.ClearingSeedKeys | api/seed_examples.py:8-75 | after a completed clearing seed, the live conversation keys are exactly the three example keys |
| Seed.ClearingSeedHoldsExamples | api/seed_examples.py:8-75 | with distinct ids, after a completed clearing seed, get of each example's id returns that example |
| Seed.ClearingSeedKeepsOtherNamespaces | api/seed_examples.py:67-75 | a clearing seed leaves every key outside the conversation namespace unchanged |
| Seed.FailureLeavesPartialSeed | api/seed_examples.py:65-79 | a failure at the second save of a clearing seed leaves the first example alone in the namespace |

## Left out

- Connection set-up, the network, async scheduling and socket timeouts (api/redis_client.py:9-15): the backend is a map, and each operation runs alone, with no interleaving.
- `eval`/`str` (api/redis_client.py:25, 31, 48): treated as an exact round trip of the record; arbitrary strings under conversation keys, and the `if data:` skip of empty values, are not modelled.
- `time.time()`, `datetime.now()` and float timestamps: the limiter uses an integer clock, and the chat and seeding code get each clock reading as a string parameter. The few microseconds between the LPUSH and the EXPIRE of one check are taken as zero.
- uuid4 (api/chat.py:105, api/seed_examples.py:10): fresh ids are parameters.
- The Google generative-AI calls and `list_models` (api/chat.py:27, 73-75, 82-92, 132): an oracle gives the set of models that answer the probe and what each model generates.
- FastAPI routing, CORS, Pydantic schemas, conversations.py, main.py, `health_check`, `get_all_conversations` and `delete_*_endpoint`: glue over the modelled store operations.
- `redis_health` (api/chat.py:160-168): it uses a name that file never imports.
- The unused `requests` dict of the limiter (api/middleware/rate_limit.py:11).
- Logging and `print` output, and the `timestamp` of error bodies (a parameter).
- Client identification: the middleware's `request.client.host` is the `host` parameter.
- Chat.ChatEndpoint: the closed-form outcome is stated for well-formed stores (each conversation key holds a record carrying its own id) and, for a new conversation, an unused fresh id. Other stores run the same code, and only the general ensures cover them.
- Chat.UpdateConversationTitle: the save goes to the key of the fetched record's own id, so a store where `conversation:X` holds a record with id Y has `conversation:Y` written; the "same key" outcome is stated for well-formed stores only.
- Seed.SeedExamples: a backend failure is modelled at step granularity. A failure in the middle of delete-all's own loop is not modelled separately.
- RateLimit.SlidingLogBound: stated for one client starting with no key. Other clients and the conversation store never touch that key (CheckWritesOnlyOwnKey, NamespacesDisjoint).

## Findings

| source | as written | input that shows it | evidently intended | confidence | as-written member | corrected member |
|---|---|---|---|---|---|---|
| api/chat.py:200-206 | the `HTTPException(404)` raised inside the try block is caught by `except Exception` and re-raised as a 500 with detail "404: Conversation not found" | GET of any id with no stored conversation | a 404 "Conversation not found" response | high, not executed | Chat.MissingConversationIsServerError | Chat.GetConversationEndpointIntended |

The same pattern turns the not-found cases of `chat_endpoint` (api/chat.py:117-118, 153-154) and `update_conversation_title` (api/chat.py:228-229, 236-237) into 500s. `Chat.ChatEndpoint` and `Chat.UpdateConversationTitle` model that behaviour as written.
