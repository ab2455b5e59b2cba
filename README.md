# mephi-db data generator and reset: a Dafny model

This project models the core of the mephi-db tool, which fills a delivery
database with generated rows and empties it again. It has five parts:

- **`future`** (`future.dfy`, module `Futures`): a one-shot cell. A new
  future is Pending. `Set` resolves it with a value and `Cancel` cancels it.
  Each of them closes a channel, so a second call panics. `Get` waits until
  the future has left Pending. It then gives the value, or the zero value
  with `ErrFutureCanceled`.
- **`launcher`** (`launcher.dfy`, module `Launchers`): starts tasks and
  collects each task's error in a channel buffered for 1000 results. `Wait`
  closes that channel and folds the errors with `errors.Join`.
  `errors.Join` itself is modelled in `errors.dfy` (module `Errors`): it
  drops nil arguments, returns nil when nothing is left, and otherwise
  returns a join that holds the rest.
- **`Generate`** (`generate.dfy`, module `Gen`): fourteen tasks on one
  launcher, linked by ten futures. A task reads its upstream futures in
  order and stops with "<x> not created" at the first canceled one.
  Otherwise it calls its create function, then resolves or cancels the
  future it publishes. The payments task is modelled cancelling its future
  once when `createPayments` fails; as written it cancels twice and panics
  (see "## Findings"). The database work is the parameter `create`.
- **Generators** (`generators.dfy`, module `Generators`): the record
  generators of `generators.go`, with every random draw passed in as a
  bounded parameter. They cover `choose` and the linear probing of
  `chooseUniq`, the rating, cost and work-hours ranges, payment and order
  status, unique e-mails and the category deduplication. `batches.dfy`
  (module `Batches`) holds the record-building loops of the `create*`
  functions of `gen.go`.
- **`Reset`** (`reset.dfy`, module `Reset`): up to three `DELETE` attempts
  per table, then a join of the per-table errors. The outcome of each
  statement is the parameter `exec`.

The goroutines run here one after the other, in launch order. That is one
valid schedule, since every task only reads futures published by tasks
launched before it (`Gen.NeedsProducedEarlier`). The lemmas
`Gen.CompletionOrderIrrelevant` and `Reset.ResetOrderIrrelevant` cover
every other completion order. Whatever order the errors reach the channel
in, the joined error holds the same errors and is nil in the same cases.

`gen.go` calls `randomUser`, `randomDish` and so on, while `generators.go`
defines `generateRandomUser`, `generateRandomDish` and so on. The model
treats each pair as one function. `Generate` makes fourteen `launch.Go`
calls, so the model has fourteen tasks.

## Model

| member | source | states |
|---|---|---|
| Errors.NonNil | pkg/launcher/launcher.go:33 | `errors.Join` drops nil arguments: no more errors than arguments, and none exactly when every argument is nil |
| Errors.JoinList | pkg/launcher/launcher.go:33 | `errors.Join` is nil exactly when all its arguments are nil; otherwise it is a join of the non-nil ones, in order |
| Errors.JoinAllNilIff | pkg/launcher/launcher.go:31-35 | the left fold `err = errors.Join(err, next)` ends nil exactly when every folded error is nil |
| Errors.JoinTwoLeaves | pkg/launcher/launcher.go:33 | joining the accumulated error with the next one keeps the leaf errors of both, in order |
| Errors.JoinAllLeaves | pkg/launcher/launcher.go:31-35 | the leaves of the folded error are the leaves of the non-nil results, in arrival order; nothing is lost |
| Errors.NonNilCount | pkg/launcher/launcher.go:32-34 | dropping nils keeps each error exactly as often as it was returned |
| Errors.JoinAllNilPermutation | pkg/launcher/launcher.go:32-34 | the order in which results arrive does not change whether the fold is nil |
| Errors.JoinAllLeafCount | pkg/launcher/launcher.go:32-34 | when no result is itself a join, each error is a leaf of the fold as often as a task returned it |
| Errors.JoinAllOrderIndependent | pkg/launcher/launcher.go:32-34 | two arrival orders of the same results give the same leaves (as a multiset) and the same nil-ness |
| Errors.JoinAllCount | pkg/launcher/launcher.go:32-34 | one leaf per failing result |
| Futures.TerminalIsFinal | pkg/future/future.go:19-27 | once resolved or canceled, any further `Set` or `Cancel` closes a closed channel, which panics |
| Futures.AtMostOnce | pkg/future/future.go:19-27 | a new future accepts exactly one `Set` or `Cancel`; so `Set` after `Cancel` is impossible |
| Futures.Future.constructor | pkg/future/future.go:13-17 | a new future is Pending: channel open, not canceled, zero value |
| Futures.Future.Set | pkg/future/future.go:19-22 | requires Pending (a second close panics); stores the value and leaves the future Resolved(v) |
| Futures.Future.Cancel | pkg/future/future.go:24-27 | requires Pending; marks the future canceled, keeps its value, leaves it Canceled |
| Futures.Future.Get | pkg/future/future.go:29-35 | returns only once the future left Pending; (v, nil) after `Set(v)`, (zero, `ErrFutureCanceled`) after `Cancel`; changes nothing |
| Futures.ConsumersAgree | pkg/future/future.go:29-35 | repeated `Get` calls give the same value and error; the error is nil exactly when the future was resolved |
| Launchers.Launcher.constructor | pkg/launcher/launcher.go:13-18 | an empty buffer, no task counted, channel open |
| Launchers.Launcher.Go | pkg/launcher/launcher.go:20-26 | requires an open channel and fewer than 1000 tasks; adds exactly one task to the count and its result to the buffer |
| Launchers.Launcher.Wait | pkg/launcher/launcher.go:28-36 | requires an open channel (a second `Wait` panics); closes it, drains it and returns the fold of all results, nil exactly when every task returned nil, with the non-nil errors as its leaves |
| Generators.Choose | internal/gen/generators.go:256-258 | needs a non-empty slice; returns one of its elements |
| Generators.RandomRating | internal/gen/generators.go:248-254 | the rating is 100..499 with exponent -2, i.e. 1.00 to 4.99 |
| Generators.RandomCost | internal/gen/generators.go:226 | a dish or commodity costs a multiple of 10 in 100..9990 |
| Generators.RandomPayment | internal/gen/generators.go:141-151 | the method is cash, card or online; the status is "failed" exactly when the method is online and the draw is 0, "successful" otherwise |
| Generators.OrderStatus | internal/gen/generators.go:154-163 | draw 0 gives canceled, 1 and 2 give in_progress, 3..99 give delivered |
| Generators.RandomOrder | internal/gen/generators.go:153-195 | an order carries the given payment id, one of the user ids, one of the courier ids and one of the three statuses |
| Generators.RandomWorkHours | internal/gen/generators.go:200-207 | the start is at most 7:30 and the end at least 12:00, both on half hours, so the start is before the end |
| Generators.GoRem | internal/gen/gen.go:415 | Go's `%` on a positive divisor: magnitude below the divisor, sign of the dividend, and it differs from the dividend by a multiple of the divisor |
| Generators.StocksAsWrittenSkipsSuppliers | internal/gen/gen.go:415-416 | with the filter as written, a supplier gets neither dishes nor commodities exactly when its hash is negative and not a multiple of 3 |
| Generators.NegativeHashGetsNothing | internal/gen/generators.go:273-278 | a supplier whose hash is -1 gets no items at all |
| Generators.StocksPartitionsSuppliers | internal/gen/gen.go:443-444 | with the remainder taken in 0..2, every supplier stocks dishes or commodities, both exactly when the remainder is 0; this agrees with the written filter for non-negative hashes |
| Generators.FirstFreeIsFirst | internal/gen/generators.go:261-266 | the probe stops at the first index, going round from the start, that is not taken |
| Generators.FreeWhenSmall | internal/gen/generators.go:263-266 | while fewer indexes are taken than there are values, a free one exists, so the probe ends |
| Generators.PickIndices | internal/gen/generators.go:260-269 | successive probes sharing one `alreadyChosen` give one index per call, each in range |
| Generators.PickIndicesDistinct | internal/gen/generators.go:260-269 | the indexes those probes give are pairwise distinct and none was taken before |
| Generators.ChooseUniq | internal/gen/generators.go:260-269 | returns the value at the first free index from the start; that index was not chosen, and `alreadyChosen` grows by exactly it |
| Generators.EmailRegistry.constructor | internal/gen/generators.go:55 | `usedEmails` starts empty |
| Generators.EmailRegistry.NextEmail | internal/gen/generators.go:82-88 | the e-mail kept is the first drawn one not used before; all earlier draws were used; afterwards it is recorded as used |
| Generators.EmailRegistry.UserEmails | internal/gen/gen.go:265-267 | one e-mail per generated user, each drawn for that user, new and pairwise distinct; all of them recorded |
| Generators.UniqueCategories | internal/gen/generators.go:63-74 | the categories are exactly the dish cuisines and commodity categories, each once |
| Batches.Counts | internal/gen/gen.go:287 | one count per user, each at least the minimum and below the maximum: 1 to 4 cards, 1 to 9 addresses |
| Batches.ExpandSize | internal/gen/gen.go:286-292 | the rows built number the sum of the per-user counts |
| Batches.ExpandMembers | internal/gen/gen.go:286-292 | an id appears among the rows exactly when some owner with that id has a positive count |
| Batches.ExpandMultiplicity | internal/gen/gen.go:286-292 | with distinct owners, each owner appears exactly its count times |
| Batches.PerUserFacts | internal/gen/gen.go:286-292 | with counts in lo..hi, the rows number between lo and hi per owner, mention exactly the owners, and each distinct owner has lo..hi rows |
| Batches.CreateCards | internal/gen/gen.go:282-295 | `totalCards == len(cards)`; one to four cards per user (`IntN(4) + 1` never reaches the maximum 5); every card belongs to a user and every user has one |
| Batches.CreateAddresses | internal/gen/gen.go:308-321 | `totalAddresses == len(cards)`; one to nine addresses per user; every address belongs to a user and every user has one |
| Batches.CreateOrders | internal/gen/gen.go:370-375 | needs at least `OrderCount` payment ids; order `i` carries payment `paymentIDs[i]` |
| Batches.OrdersPaidOnce | internal/gen/gen.go:373-375 | with distinct payment ids, no two orders share a payment |
| Batches.SupplierItems | internal/gen/gen.go:417-421 | a supplier gets one item per count draw |
| Batches.BlockFromPicks | internal/gen/gen.go:418-421 | building a supplier's items one `chooseUniq` at a time gives the catalog entries at the probed indexes |
| Batches.SupplierBlock | internal/gen/gen.go:417-421 | the inner loop builds exactly the supplier's items |
| Batches.SupplierShare | internal/gen/gen.go:415-422 | one supplier's share: its items when `hash % 3`, with Go's truncating remainder, passes the kind's test, nothing otherwise |
| Batches.SupplierItemsFacts | internal/gen/gen.go:417-421 | 3 to 9 items per supplier, all naming it and a catalog entry, costs and ratings in range, pairwise distinct names for a duplicate-free catalog |
| Batches.CreateSupplierItems | internal/gen/gen.go:414-423 | the dish (or commodity) loop over all suppliers, as written, builds the concatenation of their shares |
| Batches.ItemsForSuppliers | internal/gen/gen.go:442-451 | a supplier has items exactly when it is one of the suppliers and its hash passes the kind's test with Go's `%`, so a hash of -1 or -2 gets none |
| Batches.SupplierCoverage | internal/gen/gen.go:414-451 | across the dish and commodity loops, a supplier gets items exactly when its hash is non-negative or a multiple of 3 |
| Batches.OrderBlock | internal/gen/gen.go:471-493 | an order gets as many entries as its item count |
| Batches.OrderBlockFacts | internal/gen/gen.go:471-493 | an order has 1 to 9 entries, `dishCount + commodityCount == itemCount`; dish entries first, from the dish ids, then commodity entries from the commodity ids |
| Batches.OrderEntries | internal/gen/gen.go:475-493 | the two inner loops build exactly one order's entries |
| Batches.CreateOrderCompositions | internal/gen/gen.go:467-497 | the loop over orders builds the concatenation of the orders' entries |
| Batches.LinksFacts | internal/gen/gen.go:523-549 | every link names one of the categories and one of the targets, there are no more links than targets, and a target is linked exactly when its skip draw is not 0 |
| Batches.CreateCategoriesToTargets | internal/gen/gen.go:519-552 | the links are the dish links followed by the commodity links |
| Batches.PickedValues | internal/gen/gen.go:588-592 | one picked id per draw |
| Batches.PickUniq | internal/gen/gen.go:588-592 | the `chooseUniq` loop over one discount's slice fills it with the probed ids |
| Batches.DiscountBlockFacts | internal/gen/gen.go:585-621 | every discount gets 1 to 20 targets, all for it (commodities are forced when no dish was picked); with distinct ids no target repeats |
| Batches.DiscountEntries | internal/gen/gen.go:585-621 | the body of the discount loop builds exactly one discount's targets |
| Batches.CreateDiscountsToTargets | internal/gen/gen.go:580-625 | the rows are the discounts' targets in order, and every discount has at least one |
| Gen.Index | internal/gen/gen.go:42-51 | each future has a place among the ten created |
| Gen.IndexInjective | internal/gen/gen.go:42-51 | the ten futures are distinct objects |
| Gen.Rank | internal/gen/gen.go:53-257 | each task has a place among the fourteen `launch.Go` calls |
| Gen.LaunchedAtRank | internal/gen/gen.go:53-257 | every task is launched, at its place |
| Gen.RankIsPosition | internal/gen/gen.go:53-257 | the place of the task launched at `k` is `k`: each task is launched once |
| Gen.Producer | internal/gen/gen.go:53-257 | every future has a task that publishes it |
| Gen.PublisherIsProducer | internal/gen/gen.go:53-257 | no future has two publishers |
| Gen.NeedsProducedEarlier | internal/gen/gen.go:53-257 | every future a task reads is published by a task launched before it |
| Gen.Settled | internal/gen/gen.go:53-241 | every future ends resolved or canceled, resolved exactly when its producer succeeded |
| Gen.TaskError | internal/gen/gen.go:53-257 | a task returns nil exactly when it succeeded, and never a join |
| Gen.FirstMissingSpec | internal/gen/gen.go:125-136 | the reads stop at a future exactly when one of the inputs was not created; that future was not created, and every input read before it was |
| Gen.FirstMissingIsFirst | internal/gen/gen.go:125-136 | every input read before the reported missing one was created |
| Gen.SucceededIff | internal/gen/gen.go:53-241 | a task succeeds exactly when every future it reads was created and its own create call succeeded |
| Gen.FailurePropagates | internal/gen/gen.go:192-204 | a canceled upstream future makes every task that reads it stop before its create call (`Blocked`) and return "<x> not created" for its first canceled input |
| Gen.AllCreatesSucceed | internal/gen/gen.go:53-257 | when every create call succeeds, every task does |
| Gen.RootCause | internal/gen/gen.go:53-257 | a failing task traces back, through the futures it reads, to an upstream task (or itself) whose own create call failed |
| Gen.ResultAt | internal/gen/gen.go:53-257 | a task's error sits at its launch position among the results |
| Gen.SomeTaskFailsIff | internal/gen/gen.go:53-257 | some task fails exactly when some create call that ran failed |
| Gen.ResultsNilIff | internal/gen/gen.go:53-257 | every task error is nil exactly when every task succeeded |
| Gen.RootCauseReported | internal/gen/gen.go:259 | a failed create call's own message is a leaf of the returned error |
| Gen.CompletionOrderIrrelevant | internal/gen/gen.go:259 | in any completion order, the returned error holds the same leaves and is nil exactly when every task succeeded |
| Gen.TaskOpsSettle | internal/gen/gen.go:53-241 | in the corrected model, every publishing task settles its future exactly once, so no close panics |
| Gen.PaymentsAsWrittenPanics | internal/gen/gen.go:99-116 | as written, the payments task closes `paymentsFut` twice, and so panics, exactly when the cards exist but `createPayments` fails |
| Gen.PaymentsPanicExample | internal/gen/gen.go:109-112 | a run where only `createPayments` fails makes the payments task panic |
| Gen.ReadInputs | internal/gen/gen.go:125-136 | the `Get` calls read the inputs in order and stop at the first canceled future |
| Gen.RunOutcome | internal/gen/gen.go:53-257 | a blocked task returns "<x> not created", a failed create returns its own error, a successful one returns nil; the published future is canceled or set accordingly |
| Gen.RunTask | internal/gen/gen.go:53-257 | one closure: returns the task's error and leaves its own future settled, resolved exactly when the task succeeded |
| Gen.NewFutures | internal/gen/gen.go:42-51 | ten fresh, distinct, Pending futures |
| Gen.LaunchNext | internal/gen/gen.go:53-257 | the `launch.Go` at position `k` adds exactly that task's error and settles only its own future |
| Gen.LaunchAll | internal/gen/gen.go:53-257 | after all fourteen calls every future is settled and the buffer holds every task's error in launch order |
| Gen.GenerateNilIff | internal/gen/gen.go:259 | the returned error is nil exactly when every task succeeded |
| Gen.GenerateFailureIff | internal/gen/gen.go:259 | the returned error is nil exactly when no create call failed |
| Gen.GenerateLeaves | internal/gen/gen.go:259 | the returned error's leaves are the failing tasks' errors, one each |
| Gen.Generate | internal/gen/gen.go:39-260 | with the payments task cancelling once, returns the join of the task errors: nil exactly when every task succeeded, otherwise one leaf per failing task |
| Reset.ResetTable | internal/reset/reset.go:51-58 | nil exactly when the `DELETE` succeeded; otherwise a single wrapped error |
| Reset.AttemptsFromSpec | internal/reset/reset.go:35-39 | from any attempt on, the result is nil exactly when a remaining attempt succeeds, and otherwise is the last attempt's error |
| Reset.TableResultSpec | internal/reset/reset.go:34-40 | a table's reported error is nil exactly when one of its three attempts succeeded, otherwise it is the third attempt's error |
| Reset.ResetWithRetries | internal/reset/reset.go:35-39 | at most `maxRetries = 3` attempts; the loop stops at the first success, and an error is only reported after all three failed |
| Reset.TableResults | internal/reset/reset.go:31-42 | one result per table |
| Reset.TableResultsFacts | internal/reset/reset.go:32-42 | the per-table results are all nil exactly when every table was reset, and none is a join |
| Reset.Reset | internal/reset/reset.go:30-49 | one send per table into a buffer of `len(tableNames)`, so no send blocks; returns the join, nil exactly when every table was reset, with one leaf per failed table |
| Reset.ResetOutcome | internal/reset/reset.go:44-48 | the join is nil exactly when every table was reset; its leaves are the failed tables' errors |
| Reset.ResetOrderIrrelevant | internal/reset/reset.go:44-47 | in any completion order the join holds the same table errors and is nil in the same cases |

## Left out

- Goroutines, channels, `sync.WaitGroup` and scheduling: tasks run to completion in launch order. Blocking on a full buffer or a Pending future is a precondition, and other completion orders are covered by the order-independence lemmas.
- The database (`queries.*`, the pool's `Exec`) is the `create` parameter of `Gen` and the `exec` parameter of `Reset`. The `Select*Ids` queries are folded into `create`'s result.
- `gofakeit` and `math/rand` draws are bounded parameters. Names, phones, addresses, card numbers and timestamps are not modelled; nor is the date range built from `time.Now`.
- `hash` (crc64 of the id's bytes) is a parameter `hash: int -> int`. Password hashing with sha256 is not modelled.
- The JSON decoding of the embedded `data.json` in `init` is not modelled. The dish and commodity catalogs are sequences of names, and the float ratings and nutrition fields are not modelled.
- `big.Int`/`pgtype` wrappers are reduced to their integer payload; a record keeps only the fields the loops decide.
- `log.Printf` output and cmd/ctrl/main.go (flags, connection string) are not part of this model.
- The fixed-count loops of `createCouriers`, `createPayments`, `createSuppliers` and `createDiscounts` only append one generated record per iteration; they are covered by the `create` parameter, as is the single insert of `createCategories`. The per-record generators they call are modelled where they decide a range (`RandomPayment`, `RandomWorkHours`, `RandomRating`). `randomDiscount` is not part of this model.
- Reset.ResetTable: the `%q` quoting is written as plain double quotes around the name, which is what `%q` gives for the table names used (letters and underscores); the `%w` wrapping is reduced to the message text.
- Reset.Reset: the `discounts` table is commented out of `tableNames` and `discounts_to_targets` is absent, so neither is emptied; the model keeps the list as written.
- Generators.UniqueCategories: Go's map iteration order is unspecified; the contract fixes the contents and their distinctness, not the order.
- Gen.RunTask: models the payments task cancelling `paymentsFut` once when `createPayments` fails; as written it cancels twice and panics, which Gen.PaymentsAsWrittenPanics and Gen.PaymentsPanicExample state.
- Gen.LaunchNext: runs the single-cancel payments task, so for a failing `createPayments` it returns where the Go program panics.
- Gen.LaunchAll: runs the single-cancel payments task, so for a failing `createPayments` it returns where the Go program panics.
- Gen.Generate: returns the join for a failing `createPayments` too, where the Go program panics before `Wait` returns; the panic is stated by Gen.PaymentsAsWrittenPanics.
- Batches.ValidSupplierDraw, Batches.ValidMix and Batches.ValidPicks are preconditions: besides keeping each draw inside its `rand.IntN` range, they exclude draws for which `chooseUniq` would probe for ever (more picks than candidates) or `rand.IntN(0)` would panic (an empty candidate list).
- Generators.EmailRegistry.NextEmail: gofakeit's stream is a finite sequence that contains an unused address; the Go loop would spin for ever otherwise.

## Findings

| source | as written | input that shows it | evidently intended | confidence | as-written member | corrected member |
|---|---|---|---|---|---|---|
| internal/gen/gen.go:109-112 | when `createPayments` fails, the payments task calls `paymentsFut.Cancel()` and returns the error, and the deferred function cancels `paymentsFut` again; the second `close` panics | users and cards created, `createPayments` returns an error | cancel `paymentsFut` once, as the other deferred-cancel tasks (cards, dishes, commodities) do | high, not executed | Gen.PaymentsAsWrittenPanics | Gen.TaskOpsSettle |
| internal/gen/gen.go:415-416 | `hash(supplierID) % 3` with `hash` returning `int(crc64)`, which is negative for half of all checksums; Go's `%` then gives -1 or -2, so the supplier passes neither the dish test (0 or 1) nor the commodity test (0 or 2) | a supplier whose hash is -1 | every supplier stocks dishes, commodities or both, by a remainder in 0..2 | medium, not executed | Generators.StocksAsWrittenSkipsSuppliers | Generators.StocksPartitionsSuppliers |
