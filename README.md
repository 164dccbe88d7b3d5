# leaderboard-api, modelled in Dafny

The service takes skill events for talents over HTTP and scores them. It keeps
a live leaderboard of each talent's best score. This project models the
sequential core of that service and proves its properties:

- **The in-memory store** (`LBMemory`). It keeps a map from talent to best
  score and an ordered index of `(score, talent)` keys. `UpdateIfBetter`
  keeps the maximum: a tie or a worse score is rejected, and an accepted score
  replaces the talent's old key. `TopN` and `RankOf` walk the index from the
  top, and `All` walks it from the bottom. The B-tree is modelled as a strictly
  sorted sequence of keys under `less` (module `OrderedIndex`). The store is a
  class whose invariant `Valid()` states that the map and the index describe
  exactly the same board.
- **The deduplication cache**. A grow-only set of event ids with `Set` and
  `IsSet` and the two storage hooks, which do nothing.
- **Event admission** (`EventService.Create`, `Seed`). The scorer's input
  channel becomes a sequence of queued events, and the "duplicate" metric
  becomes a counter.
- **The leaderboard service**. A delegation to the store. A talent the store
  does not know comes back as the zero leader.
- **The request mapper** `FromRequest`.
- **The decisions of the two REST controllers**. These are pure functions
  from the query parameter or path, and the service's answer, to a status.
  The service is a function parameter. Separate lemmas compose each
  controller with the store or the cache model.

The order is the code's. `less` compares scores first and then talent ids.
Go compares strings lexicographically, modelled as `Keys.StrLess` and proved
a strict total order. A descending walk therefore lists equal scores with
their talent ids in **descending** order, both in `TopN` and in the rank
`RankOf` computes. The contracts state this order.

A rank is proved equal to an order-statistics definition: one plus the number
of keys above the talent's key (`Leaderboard.Above`). That rank is also the
talent's one-based position in `TopN(size)`. The branch of `RankOf` that
handles a talent missing from the index is unreachable under the invariant.
The model writes it so that its outcome is the same on every path.

## Model

| member | source | states |
|---|---|---|
| Keys.StrLessIrreflexive | internal/infrastructure/leaderboard/memory.go:172 | no talent id is below itself under Go's string order |
| Keys.StrLessAsymmetric | internal/infrastructure/leaderboard/memory.go:172 | two ids are never each below the other |
| Keys.StrLessTransitive | internal/infrastructure/leaderboard/memory.go:172 | the string order is transitive |
| Keys.StrLessTotal | internal/infrastructure/leaderboard/memory.go:172 | any two distinct ids are ordered one way or the other |
| Keys.StrLess | internal/infrastructure/leaderboard/memory.go:172 | Go's `<` on talent ids: lexicographic by character, a proper prefix first (its laws are the `StrLess…` lemmas) |
| Keys.StrLessPrefix | internal/infrastructure/leaderboard/memory.go:172 | only a non-empty string is above another, and a proper prefix is below the strings it begins |
| Keys.LessIrreflexive | internal/infrastructure/leaderboard/memory.go:167-173 | no key is below itself under `less` |
| Keys.LessAsymmetric | internal/infrastructure/leaderboard/memory.go:167-173 | `less` is asymmetric |
| Keys.LessTransitive | internal/infrastructure/leaderboard/memory.go:167-173 | `less` is transitive |
| Keys.LessTotal | internal/infrastructure/leaderboard/memory.go:167-173 | any two distinct keys are ordered by `less` one way or the other |
| Keys.Less | internal/infrastructure/leaderboard/memory.go:167-173 | `less` itself: by score, equal scores by talent id (its meaning is stated by `LessScoreFirst` and the order laws) |
| Keys.LessScoreFirst | internal/infrastructure/leaderboard/memory.go:167-173 | a higher score is always greater; `less` never puts a higher score below a lower one; equal scores are ordered by talent id alone |
| Keys.LessIsStrictTotalOrder | internal/infrastructure/leaderboard/memory.go:167-173 | `less` is a strict total order on keys (all four laws, for all keys) |
| OrderedIndex.Insert | internal/infrastructure/leaderboard/memory.go:92 | `ReplaceOrInsert` keeps the index sorted; it holds the old keys plus the new one; it grows by one exactly when the key is new |
| OrderedIndex.Delete | internal/infrastructure/leaderboard/memory.go:89 | `Delete` keeps the index sorted; it holds the old keys minus the deleted one; it shrinks by one exactly when the key was present |
| OrderedIndex.Reverse | internal/infrastructure/leaderboard/memory.go:111 | a descending walk meets the keys in reverse index order |
| OrderedIndex.ReverseDescends | internal/infrastructure/leaderboard/memory.go:111-115 | a descending walk of a sorted index meets keys in strictly decreasing `less` order |
| OrderedIndex.SortedUnique | internal/infrastructure/leaderboard/memory.go:32 | a sorted index is determined by its set of keys |
| Leaderboard.Top | internal/infrastructure/leaderboard/memory.go:106-115 | the rows `TopN(n)` reports: none when `n <= 0`, else exactly `min(n, size)` |
| Leaderboard.LBMemory.constructor | internal/infrastructure/leaderboard/memory.go:41-55 | a new store is empty, consistent, with a zero "accepted" counter |
| Leaderboard.LBMemory.UpdateIfBetter | internal/infrastructure/leaderboard/memory.go:80-96 | accepts exactly a new talent or a strictly higher score. On rejection neither the map nor the index changes. On acceptance the map entry is set, the old key is removed, the new key is inserted, and no other key changes. The store stays consistent |
| Leaderboard.LBMemory.TopN | internal/infrastructure/leaderboard/memory.go:99-118 | equals `Top(tree, n)`: `min(n, size)` rows (none for `n <= 0`), ranked 1..k. Each row is a talent's best. Rows are in strictly descending `less` order, so highest score first and equal scores by talent id descending |
| Leaderboard.LBMemory.RankOf | internal/infrastructure/leaderboard/memory.go:121-148 | `ok` exactly when the talent is known. Unknown: rank 0 and score 0. Known: its best score and rank `1 + Above`, within 1..size, and the row at that position of `TopN(size)` |
| Leaderboard.LBMemory.All | internal/infrastructure/leaderboard/memory.go:151-164 | every row in strictly ascending `less` order, ranked 1..size, one row per talent, each its best |
| Leaderboard.AscendingRows | internal/infrastructure/leaderboard/memory.go:155-163 | the ranked rows of an ascending walk over a consistent index: strictly ascending under `less`, ranked 1..size, each a talent's best, every talent present |
| Leaderboard.LBMemory.RunLBWorker | internal/infrastructure/leaderboard/memory.go:57-72 | applying a stream of events in order yields the map `ApplyAll(old, events)`, keeps the store consistent, and adds one to "accepted" per event, accepted or not |
| Leaderboard.ApplyAll | internal/infrastructure/leaderboard/memory.go:64-71 | the best-score map after the worker loop: no talent's best goes down, and every submitted talent is present with a best at least its submitted score |
| Leaderboard.ApplyAllStep | internal/infrastructure/leaderboard/memory.go:64-71 | one more consumed event is one more keep-the-maximum update |
| Leaderboard.DeleteTalent | internal/infrastructure/leaderboard/memory.go:88-90 | removing a talent's key leaves exactly the keys of the other talents |
| Leaderboard.UpdateKeepsConsistency | internal/infrastructure/leaderboard/memory.go:84-93 | delete-then-insert with the map update takes a consistent store to a consistent store |
| Leaderboard.OneKeyPerTalent | internal/infrastructure/leaderboard/memory.go:84-93 | under the invariant, each talent has exactly one key in the index |
| Leaderboard.TopDescends | internal/infrastructure/leaderboard/memory.go:111-115 | `Top` rows descend strictly under `less`, are ranked 1..k, and are keys of the index |
| Leaderboard.AbovePosition | internal/infrastructure/leaderboard/memory.go:132-145 | in a sorted index, the key at position `p` has exactly the later keys above it, so the walk's counter equals `1 + Above` |
| Leaderboard.AllAbove | internal/infrastructure/leaderboard/memory.go:132-145 | a key below every key of a sequence has all of them above it |
| Leaderboard.TopAt | internal/infrastructure/leaderboard/memory.go:111-115 | row `q` of `Top` is the key `q` places from the top, ranked `q + 1` |
| Leaderboard.RankMatchesTop | internal/infrastructure/leaderboard/memory.go:121-148 | a known talent's rank position holds its row in `TopN(size)`; it appears in `TopN(n)` exactly when its rank is at most `n` |
| Leaderboard.PositionInTop | internal/infrastructure/leaderboard/memory.go:132-145 | the key at index position `idx` is row `Above + 1` of the full descending walk, and within the first `n` rows when its `Above` count is below `n` |
| Leaderboard.TopRowIsRank | internal/infrastructure/leaderboard/memory.go:121-148 | a row of `TopN(n)` naming a known talent sits exactly at that talent's rank position |
| Leaderboard.ApplyAllIsMaximum | internal/infrastructure/leaderboard/memory.go:64-71 | after a stream, a talent is present exactly when it was already or was submitted. Its best is at least its old best and at least every score submitted for it, and it is one of those values: the maximum |
| Leaderboard.SameKeys | internal/infrastructure/leaderboard/memory.go:84-93 | a consistent index holds exactly the keys of the map |
| Leaderboard.BoardsSorted | internal/infrastructure/leaderboard/memory_test.go:50-52 | the two example boards are sorted indexes |
| Leaderboard.ScenarioBoards | internal/infrastructure/leaderboard/memory_test.go:60-61 | the top rows and the rank count on the example boards |
| Leaderboard.ScenarioStart | internal/infrastructure/leaderboard/memory_test.go:47-52 | inserting t1=10, t2=30, t3=20 into a new store gives exactly that map and the index `[(10,t1),(20,t3),(30,t2)]` |
| Leaderboard.Scenario | internal/infrastructure/leaderboard/memory.go:80-148 | on that store: top 2 is t2 and t3; t1 ranks 3rd; 25 for t1 is accepted and moves it to 2nd; a later 5 for t1 is rejected |
| DedupCache.Cache.constructor | internal/infrastructure/cache/cache.go:26-37 | a new cache holds no id (the restore hook brings none back) |
| DedupCache.Cache.Set | internal/infrastructure/cache/cache.go:39-43 | the id becomes a member; the set only grows and no other id changes; setting twice is setting once |
| DedupCache.Cache.IsSet | internal/infrastructure/cache/cache.go:48-53 | true exactly for ids that were set; the set is not changed |
| DedupCache.Cache.WakeUp | internal/infrastructure/cache/cache.go:56-62 | returns no error and changes nothing |
| DedupCache.Cache.ToRedis | internal/infrastructure/cache/cache.go:82-92 | returns no error and changes nothing |
| EventServices.EventService.constructor | internal/application/services/event.go:23-34 | a new service over a cache, with an empty queue and a zero counter |
| EventServices.EventService.Create | internal/application/services/event.go:36-45 | duplicate exactly when the id was already in the cache, which is `Admission` of the old cache. Afterwards the id is in the cache. A new event is queued once and unchanged, and a duplicate queues nothing. The "duplicate" counter rises by one on both paths. No error |
| EventServices.Admission | internal/application/services/event.go:37-44 | admission against a cache holding `seen`: duplicate exactly when the id was seen, never an error; `Create` answers it |
| EventServices.EventService.Seed | internal/application/services/event.go:47-51 | queues exactly the `cnt` events of the batch, in order; the cache and the counter are untouched |
| EventServices.CreateTwice | internal/application/services/event.go:36-45 | the same new event submitted twice is reported new then duplicate and is queued exactly once |
| LeaderboardServices.RankLookupZeroIffAbsent | internal/application/services/leaderboard.go:26-33 | composed with a consistent store, the reported rank is 0 exactly when the talent is absent, and at most the board size otherwise |
| LeaderboardServices.RankLookup | internal/application/services/leaderboard.go:26-33 | the service's rank answer: rank 0 exactly for an absent talent, and then the zero leader; a present talent's id and best score |
| LeaderboardServices.LeaderboardService.constructor | internal/application/services/leaderboard.go:14-20 | the service wraps the given store |
| LeaderboardServices.LeaderboardService.GetBboard | internal/application/services/leaderboard.go:22-24 | returns exactly `TopN(limit)`, with `min(limit, size)` rows, and never an error |
| LeaderboardServices.LeaderboardService.GetRankByID | internal/application/services/leaderboard.go:26-33 | returns the store's row for a known talent. It returns the zero leader (the id `RankOf` filled in is discarded) for an unknown one. Rank is 0 exactly for an unknown talent. Never an error |
| EventDto.FromRequest | internal/interface/api/rest/dto/event/mapper.go:7-15 | every request field is copied unchanged and the score is zero |
| EventDto.FromRequestRoundTrip | internal/interface/api/rest/dto/event/mapper.go:7-15 | the mapping loses nothing of the request, and its images are exactly the unscored events |
| Strconv.Atoi | internal/interface/api/rest/leaderboard_controller.go:37 | a parsed value fits a 64-bit signed integer and the text starts with a sign or a digit |
| Strconv.DigitsValueOfDigits | internal/interface/api/rest/leaderboard_controller.go:37 | the digits of a natural number have that number as their value |
| Strconv.AtoiFormatInt | internal/interface/api/rest/leaderboard_controller.go:37 | parsing inverts decimal formatting on the whole 64-bit range |
| LeaderboardController.ParseLimit | internal/interface/api/rest/leaderboard_controller.go:35-43 | an absent limit is 10. A given one is accepted exactly when it parses to a value in 1..100, and is then that parsed value; it is rejected otherwise |
| LeaderboardController.ParseLimitOfDecimal | internal/interface/api/rest/leaderboard_controller.go:36-42 | a limit written in decimal reaches the service unchanged when in 1..100, and is rejected otherwise |
| LeaderboardController.GetBboard | internal/interface/api/rest/leaderboard_controller.go:34-55 | 400 exactly on a bad limit (the service is not consulted), 500 exactly on a service error, otherwise 200 with the service's rows |
| LeaderboardController.GetBboardOnStore | internal/interface/api/rest/leaderboard_controller.go:34-49 | over the store the endpoint never answers 500, and a 200 carries `Top(tree, limit)` with at most 100 rows |
| LeaderboardController.RankPath | internal/interface/api/rest/leaderboard_controller.go:58-67 | not this route exactly when the path lacks `/rank/`. An accepted id is the rest of the path and is non-empty and free of `/` |
| Rest.HasPrefix | internal/interface/api/rest/leaderboard_controller.go:59 | `strings.HasPrefix`: a string with the prefix is the prefix followed by the rest |
| LeaderboardController.RankPathOfId | internal/interface/api/rest/leaderboard_controller.go:63-67 | a path built from an id is classified by the id alone |
| LeaderboardController.GetRankByID | internal/interface/api/rest/leaderboard_controller.go:57-83 | 400 exactly for a bad id, 500 exactly for a service error, 404 exactly off the route or for a rank-0 answer. A successful answer with a non-zero rank is a 200 carrying the service's leader unchanged, and no other status occurs |
| LeaderboardController.GetRankOnStore | internal/interface/api/rest/leaderboard_controller.go:57-82 | over a consistent store, a well-formed id answers 404 "leader not found" exactly when the talent is absent, otherwise 200 with its best score and rank |
| EventsController.PostEvent | internal/interface/api/rest/events_controller.go:27-52 | 400 exactly when the body does not decode, 500 exactly when admission fails, 202 exactly for a new event, 200 exactly for a duplicate |
| EventsController.PostEventOnCache | internal/interface/api/rest/events_controller.go:41-51 | with `Admission`, which `EventService.Create` answers, the endpoint never answers 500; a decoded body gets 202 for an unseen id and 200 for a seen one |
| EventsController.ParseCount | internal/interface/api/rest/events_controller.go:56-65 | an absent count is 10; a given one is accepted exactly when it parses to a positive value, and is then that parsed value, with no upper bound |
| EventsController.ParseCountOfDecimal | internal/interface/api/rest/events_controller.go:58-64 | a positive count written in decimal reaches `Seed` unchanged; others are rejected |
| EventsController.SeedResponse | internal/interface/api/rest/events_controller.go:55-73 | 400 exactly on a bad count, otherwise 200 with the message that embeds the raw query string |
| EventsController.SeedMessage | internal/interface/api/rest/events_controller.go:72 | the message is the fixed prefix, then the raw query string unchanged, then the fixed suffix |
| EventsController.SeedMessageOfDefault | internal/interface/api/rest/events_controller.go:56-72 | with no count parameter the seed is 10 events, and the message names no count at all |

## Left out

- Locks: the read/write mutexes of the store and the cache are not modelled. Every operation runs alone, one after another.
- The scorer worker pool (`internal/infrastructure/ml/scorer.go`) is not part of this model: goroutines, channel fan-in, closing order, sleeps and random scores. An event reaches the store with its score already set.
- The B-tree's internals are not modelled: node degree, balancing and the O(log n) costs. The index is a sorted sequence with the same observable insert, delete and ordered walks.
- Floating point is not modelled: scores are reals, compared but never computed with. NaN, signed zero and `round` are out of scope.
- Go compares strings byte by byte in UTF-8. The model compares characters, which agrees on ASCII ids.
- `generateRandomEvents` and `randomPastTime` (randomness and the clock) are not modelled. `EventServices.EventService.Seed` takes the generated batch as a parameter, and requires `cnt` to be its length and non-negative, which is where `make` would panic.
- Sending on a full scorer channel blocks; the model's queue is unbounded.
- `EventsController.SeedResponse` answers 200 for every positive 64-bit count. In Go, `Seed` first allocates `cnt` events (internal/application/services/event.go:58), before the handler writes its status. A huge count therefore panics or exhausts memory and never gets the 200. The model has unbounded memory.
- `Leaderboard.LBMemory.TopN` and `LeaderboardServices.LeaderboardService.GetBboard` accept any `n`. Go reserves capacity `n` up front (internal/infrastructure/leaderboard/memory.go:109), and that allocation can fail for a huge `n`. Through the controller `n` is at most 100.
- `StopRankWorker` only closes the channel; it is not modelled. `RunLBWorker` consumes a finite sequence instead of a channel that may never close.
- The cache's backup ticker and context loop, and the Redis and Postgres behaviour the hooks describe, are not modelled. Only the hooks' nil results are.
- Prometheus counters are plain natural numbers: "accepted" on the store and "duplicate" on the event service. Labels and the exporter are out of scope.
- `EventServices.EventService.Create`: the cache's `Set` being called exactly once on a new id is stated by its effect on the set, not counted as a call.
- JSON decoding of the request body is an input: `None` when the body does not decode. JSON encoding of a reply, and its "failed to write response" 500, are not modelled. The handlers write the reply after the status is decided.
- `Strconv.Atoi` is written out here because Go's `strconv.Atoi` is library code. It follows that function's base-10 rules: an optional sign, one or more ASCII digits, and the 64-bit range. Its error values are collapsed to `None`.
- `Leaderboard.LBMemory.TopN` returns the empty sequence for `n <= 0` where Go returns a nil slice. The difference is only visible in JSON (`null` against `[]`), and the controller never passes such a limit.
- `LeaderboardController.GetBboard`, `LeaderboardController.GetRankByID` and `EventsController.PostEvent` take the service as a function. `LeaderboardServices.LeaderboardService.GetBboard` and `GetRankByID` ensure they answer `BoardQuery` and `RankQuery`, and `EventServices.EventService.Create` ensures it answers `Admission`. The composition lemmas (`GetBboardOnStore`, `GetRankOnStore`, `PostEventOnCache`) state the endpoints over those functions.
- `EventsController.SeedResponse` does not run the seeding. The parsed count goes to `EventServices.EventService.Seed`, which is modelled separately.
- Event ids are 128-bit numbers rather than UUID values; only equality is used.
- `LeaderboardController.RankPath` models the handler's own prefix guard. The router's pattern matching before the handler runs is not modelled.
- The process wiring is not modelled: `internal/app.go`, `cmd/leaderboard/main.go`, `config/config.go`, the metrics registry, the logging middleware, and the interfaces in `internal/application/ports`.
