# Verified model of the message pipeline

A Dafny model of the parts of the shop that decide what can be lost, duplicated or left
inconsistent, with proofs about every run rather than about single calls.

Check everything with `dafny verify dfyconfig.toml`.

- **Ordering's outbox worker** (`Lsn`, `ChangeCapture`, `OutboxServices`, `OutboxReader`,
  `OutboxWorker`, `OutboxProcessor`, `OutboxRuns`, `OutboxProgress`, `OutboxHistory`). It reads the change log in
  batches that end at transaction boundaries, publishes in order, counts failures, poisons
  stubborn messages and saves a position per group. The worker is written as it runs, with loops
  over stores; each method is proved equal to a function of the world and of a script that says
  how each call ends, and the theorems are about every sequence of such cycles.
- **Basket's checkout, relay and consumer** (`Envelopes`, `Pipeline`, `PipelineInvariant`,
  `PipelineSteps`, `PipelineRuns`, `PipelineContents`, `PipelineRequests`, `PipelineProgress`, `PipelineTiming`,
  `PipelineWitness`, and as they run `CheckoutHandler`, `CheckoutRelay`, `CheckoutRelayCycles`, `CheckoutConsumer`,
  `CheckoutConsumerDeliveries`). The pipeline is a machine whose steps are single calls, taken in any order
  by handlers, the relay and the consumer, each able to stop between any two of them. The
  processes are proved to do nothing the machine cannot do.
- **The Redis copy of a basket** (`BasketCache`, `BasketCacheRuns`, `BasketCacheReplies`, `BasketCacheAgreement`), one
  request after another and overlapping at will.
- **The order aggregate and its transactional save** (`Domain`, `Checkout`, `OrderTables`,
  `OrderRepository`, `OrderProperties`, `OrderEffects`, `OrderStaging`, `OrderRuns`).
- **The gateway's fixed-window limiter** (`RateLimit`) and **the card number check** (`Luhn`).

`Ids`, `Calls` and `Histories` hold what several of these share.

## What the proofs rest on

- One worker reads the change log and one relay reads Basket's outbox, as
  `docs/ordering-worker-runbook.md:150` demands of the worker. One consumer handles one delivery
  at a time.
- A SQL statement or transaction is atomic. Every call may also fail after taking effect; only in
  the order repository does a failed commit change nothing.
- Committed transactions get positions above the current maximum and their rows appear together.
  The change function refuses a range that starts below what is retained. The successor of a
  position is the next number.
- A publisher that returns no error means the broker holds the message, and the consumer's queue is
  bound. The queue holds only messages Basket published.
- Fresh UUIDs never repeat and are never nil. The name-based hash (section 4.3 of RFC 4122) is a
  parameter; the results that need it free of collisions among the baskets that were stored say so.
- A call that takes effect has done so by the time it returns, also when it returns an error.
- Decimals are exact and modelled as reals. JSON encodes and decodes an event without loss.

A call whose script has run out fails without effect. To the stores that is a crash, and scripts of
every length put one between any two calls.

## Where the code says more or less than its comments

- `internal/gateway/ratelimit.go:26` allows for twice the limit across a boundary. The exact bound
  is one less, and it is reached: the request that opened the earlier window is always too old.
- `internal/gateway/ratelimit.go:70-72` tells a refused caller when it is worth trying again. The header is
  rounded to the nearest second, so for a hint whose fraction is below half a second a caller that waits just
  that long is refused again; the exact condition is proved.
- `internal/basket/rediscache/repository.go:131-136` reports a failed eviction so that the caller
  can act on it. For a checkout retrying is no remedy: the retry stops at not found and leaves the
  entry until it expires or the user's next store or delete. This is proved, not changed.
- `internal/basket/rediscache/repository.go:92-97` reports a failed refresh so that no stale entry goes
  unnoticed. Requests of one user that overlap can leave one though all of them succeed; two such runs
  are given, with the exact condition over every run.
- `internal/platform/messaging/rabbitmq/subscriber.go:246-250` wants no well-formed number refused for
  its encoding. Unsigned integers and 32-bit floats are refused all the same, and the message is then
  discarded; this publisher writes neither.
- `internal/basket/carts/checkout_basket.go:66-98` reads the basket and later deletes by user name.
  The basket deleted is the basket announced exactly when the row's version has not changed since
  it was read; the model keeps the code as it is, gives a failing run and proves that condition.

## Model

| member | source | states |
|---|---|---|
| OutboxRuns.NoMessageIsLost | internal/ordering/outbox/processor.go:104-216 | No loss over every run, with a crash between any two calls, lost acknowledgements, commits and cleanups in between: every captured message from the retention minimum of the read behind the first saved checkpoint up to the checkpoint was accepted by the broker or is poisoned |
| OutboxRuns.BrokerSeesCommitOrder | internal/ordering/outbox/processor.go:120-176 | Over every run, the broker's delivery history with repeats dropped (first kept) is a subsequence of the change log, and nothing is sent that was not captured |
| OutboxRuns.CheckpointNeverDecreases | internal/ordering/outbox/processor.go:104-150 | At no point of a run is the saved position higher than at any later point |
| OutboxRuns.PoisonedIsFinal | internal/ordering/outbox/processor.go:157-216 | A poisoned message stays poisoned, has at least the configured number of attempts, and is never sent again |
| OutboxRuns.CycleKeeps | internal/ordering/outbox/processor.go:104-150 | One cycle, however it ends, keeps the invariant behind the four results above, and every record it leaves only grows |
| OutboxProgress.StreamIsNotHeldUp | internal/ordering/outbox/processor.go:157-216 | From any reachable state with a saved checkpoint, a next transaction of k messages is passed within k*(MaxPublishAttempts-1)+1 cycles that do not end in an error, however the broker refuses |
| OutboxProgress.CycleProgress | internal/ordering/outbox/processor.go:120-216 | One cycle that does not end in an error either passes the next transaction or uses up one of its remaining attempts |
| OutboxHistory.OnlyRefusalsCount | internal/ordering/outbox/processor.go:157-216 | Over every run: a message never has more attempts against it than the broker refused it, and a poisoned one was refused at least MaxPublishAttempts times; refusals are counted from the answers alone, and a cancelled or timed-out publish and a crash are none |
| OutboxHistory.AStopIsObeyed | internal/ordering/outbox/processor.go:124-171 | Over every run: once a cycle is told to stop, by its poll or a cancelled publish, it sends nothing more, records nothing and saves no position |
| OutboxHistory.ResultTellsTheCycle | internal/ordering/outbox/processor.go:104-216 | For every cycle from any state: published is the number of confirmed publishes; without an error, poisoned is the number of messages given up on, and the cycle faults exactly when it was refused once more than that; an idle one did nothing |
| OutboxHistory.IdleIffNothingPassed | internal/ordering/outbox/processor.go:104-150 | In every reachable state, a cycle that goes through is idle exactly when it leaves the position where it was |
| OutboxHistory.CalmCycleGoesThrough | internal/ordering/outbox/processor.go:104-150 | A cycle whose calls all succeed, undisturbed by cleanup, ends in an error if and only if the batch size is not positive, the table is not ready, or rows behind the checkpoint are gone; otherwise it goes through |
| OutboxProcessor.Processor.ProcessOnce | internal/ordering/outbox/processor.go:104-150 | The nested loops over groups and messages carry out exactly the cycle the results are about: same calls, same early exits, same counters, one saved position per finished group |
| OutboxProcessor.Processor.Publish | internal/ordering/outbox/processor.go:157-179 | One message: skipped if poisoned, else sent; a refusal is recorded unless it was a cancellation, which ends the cycle (what that means over a run is OutboxHistory.OnlyRefusalsCount and AStopIsObeyed) |
| OutboxProcessor.Processor.RecordFailure | internal/ordering/outbox/processor.go:182-216 | A refusal is counted and the message poisoned once the count reaches the maximum; only then does the cycle go on |
| OutboxReader.ReadReturnsWholeTransactions | internal/ordering/outbox/reader.go:65-136 | For every log and positive batch size: a read returns a prefix of the readable rows ending at a transaction boundary, as long as fits, non-empty whenever a row is readable, and over the size only when it is one single transaction |
| OutboxReader.ReadingIsGapFree | internal/ordering/outbox/reader.go:65-136 | For every interleaving of appends, cleanups and reads resumed from the last returned group: the batches together are exactly the rows above the saved checkpoint the reader started from, in order, without gap or repeat |
| OutboxReader.FirstReadingIsGapFree | internal/ordering/outbox/reader.go:96-99 | The same for a reader with no checkpoint: exactly the rows from the retention minimum of the first read that returned any |
| OutboxReader.LostRowsStopTheReader | internal/ordering/outbox/reader.go:91-93 | If cleanup removed any row above the checkpoint, a read reports expiry and returns no rows |
| OutboxReader.ReadLiesOnLog | internal/ordering/outbox/reader.go:96-135 | The groups of a batch are a stretch of the change log directly above the checkpoint |
| OutboxReader.GroupsIncrease | internal/ordering/outbox/reader.go:249-263 | Groups of ordered rows are non-empty and their positions strictly increase |
| OutboxReader.GroupsKeepRows | internal/ordering/outbox/reader.go:249-263 | Grouping loses, adds and reorders nothing |
| OutboxProcessor.GroupByLsn | internal/ordering/outbox/reader.go:249-263 | Extending the last group row by row yields the grouping the properties are about |
| OutboxProcessor.DropPosition | internal/ordering/outbox/reader.go:116-122 | The trimming loop drops exactly the rows of the over-read transaction |
| OutboxProcessor.Processor.Read | internal/ordering/outbox/reader.go:65-136 | The reader with its bounds, expiry, over-read by one, trim and refetch is the read the properties are about |
| OutboxProcessor.Services.Bounds | internal/ordering/outbox/reader.go:140-164 | Both ends of what is retained and the position after the reader's own, if it has one, at one moment |
| OutboxProcessor.Services.Changes | internal/ordering/outbox/reader.go:174-209 | The rows of a range, up to a limit; a range that starts below what is retained is refused |
| OutboxProcessor.Services.Get | internal/ordering/outbox/failures.go:39-54 | A message without a record has no attempts and is not poisoned |
| OutboxProcessor.Services.RecordFailure | internal/ordering/outbox/failures.go:57-79 | One more attempt, never a reset, and the poison mark untouched |
| OutboxProcessor.Services.MarkPoisoned | internal/ordering/outbox/failures.go:85-95 | Marks a recorded message and leaves its attempts |
| OutboxProcessor.Services.Load | internal/ordering/outbox/checkpoint.go:33-48 | The saved position, or none |
| OutboxProcessor.Services.Save | internal/ordering/outbox/checkpoint.go:56-73 | Overwrites the position; a zero position is refused |
| OutboxHistory.APositionIsNeverLost | internal/ordering/outbox/checkpoint.go:56-73 | No save leaves the store without the position it had, and a confirmed one leaves exactly the non-zero position it was given |
| Lsn.CompareIsNumericOrder | internal/ordering/outbox/lsn.go:43-45 | Comparing bytes is comparing the numbers they spell, for two positions of one length |
| Lsn.ZeroIsNumberZero | internal/ordering/outbox/lsn.go:28-40 | A position is zero exactly when the number is |
| Lsn.BytesAnswerLikeNumbers | internal/ordering/outbox/lsn.go:28-45 | Every number that fits stands for one position of that width, and order, equality and missing have one answer for the bytes and the numbers, which is why the other modules use numbers |
| PipelineRuns.CheckoutIsNeverLost | internal/basket/postgres/outbox.go:146-202 | From the moment a checkout takes effect, through every crash, redelivery and failure of relay, broker and consumer, its message is in the outbox table, the consumer's queue, the error queue or a placed order |
| PipelineContents.CheckoutKeepsItsBasket | internal/basket/postgres/outbox.go:146-202 | The same for the content, if the hash has no collision among stored baskets: what is in the table or a queue announces the very basket the handler was served, and an order has its lines and total |
| PipelineRuns.ABasketIsCheckedOutOnce | internal/basket/postgres/outbox.go:157-165 | However many requests race, a user's checkouts that take effect never outnumber the baskets the user stored |
| PipelineRuns.NothingIsDiscarded | internal/platform/messaging/rabbitmq/subscriber.go:113-123 | Over every run, the branch that discards an unreadable message is never taken for Basket's messages |
| PipelineRuns.OnlyBrokenCheckoutsAreSetAside | internal/platform/messaging/rabbitmq/subscriber.go:155-175 | What the error queue holds is of a really stored basket whose checkout breaks a rule of Ordering |
| PipelineRuns.OrdersPerMessage | internal/platform/messaging/inbox/inbox.go:41-71 | Over every run, the orders of a message number exactly its completion plus the deliveries that placed but did not complete plus the one in progress; a completed inbox row implies an order |
| PipelineRuns.OneBasketOneOrder | internal/platform/messaging/inbox/inbox.go:41-71 | Under every interleaving of handlers, stores, relay cycles and non-overlapping deliveries, the orders made from one basket version number at most one more than the deliveries that placed but did not complete |
| PipelineRuns.IncompleteDeliveryRepeatsTheOrder | internal/platform/messaging/inbox/inbox.go:37-40 | Over every run, a consumer that stops after placing and before completing places the order once more on redelivery |
| PipelineWitness.BasketBecomesAnOrder | internal/ordering/orders/checkout.go:38-50 | From every fresh system, every new basket that meets the rules has a run - store, check out, relay, deliver, claim, place - that ends with one order of its lines and total |
| PipelineWitness.BasketBecomesTwoOrders | internal/platform/messaging/inbox/inbox.go:37-40 | That run, cut short before completing and redelivered, ends with two orders, so the bound of one more per incomplete delivery is reached |
| PipelineRuns.OrdersAreOfStoredBaskets | internal/ordering/orders/checkout.go:38-102 | Every order of every run is of a basket its user really stored: that basket's derived id, its lines in order and its total |
| PipelineRequests.OrdersFulfilBegunCheckouts | internal/ordering/orders/checkout.go:38-129 | Every order of every run fulfils one checkout begun in that run: customer, both addresses and payment are that request's, lines and total those of the stored cart it was served; with it come the cart's products and the customer, under the trimmed first and last name or else the user name |
| PipelineRequests.MessagesAreOfBegunCheckouts | internal/basket/carts/checkout_basket.go:63-101 | Every message in the outbox table, the queue or the error queue says what a checkout begun in the run asked for: derived id, contract, user, correlation id, customer, addresses, payment, total and lines; in the table it has that request's time |
| PipelineRuns.RepeatedOrderIsTheSameBasket | internal/basket/carts/checkout_basket.go:108-118 | Two orders under one message id are of the same basket, if the hash has no collision among stored baskets |
| PipelineRuns.IdIdentifiesBasket | internal/basket/carts/checkout_basket.go:108-118 | Over every run, two stored baskets share a checkout id exactly when they are one basket, if the hash has no collision among them |
| PipelineContents.DeletedIsAnnouncedIffUnchanged | internal/basket/carts/checkout_basket.go:66-98 | Over every run, a checkout that takes effect removes the user's row; the basket removed is the one its announcement was built from, and has been announced by then, if and only if it still has the version the handler was served (no hash collision among stored baskets) |
| PipelineContents.BasketStoredInBetweenIsLost | internal/basket/postgres/outbox.go:157-169 | The failing input: a basket stored after the handler read an earlier one is deleted, and only the earlier one is announced |
| PipelineContents.RacingHandlersShareOneId | internal/basket/carts/checkout_basket.go:84-87 | Over every run, two handlers in progress announce one id exactly when they were served one basket, so a double click records one message (no hash collision among stored baskets) |
| PipelineRuns.RelayBooksAddUp | internal/basket/outbox/outbox.go:152-183 | Over every run, an unpoisoned row has failed fewer times than allowed, a poisoned one exactly as often, and attempts are the refusals that were written down |
| PipelineRuns.PoisonedIsFinal | internal/basket/postgres/outbox.go:31-36 | A poisoned row never changes and its message is never sent again |
| PipelineRuns.RowsLeaveOnlyWhenAccepted | internal/basket/outbox/outbox.go:101-106 | A row disappears only after the publisher accepted its message |
| PipelineProgress.RowIsDoneWithinItsAttempts | internal/basket/outbox/outbox.go:107-183 | Over every run: a waiting row of which as many tries are settled (deleted, or its refusal written down) as the configuration has left for it is poisoned on the way or leaves the table; by the end it is poisoned or was accepted |
| PipelineProgress.TryIsSettled | internal/basket/outbox/outbox.go:114-183 | Poll, publish and the call after it settle exactly one try of the message in hand, whatever others do in between, unless the relay is told to stop or that last call is lost |
| PipelineProgress.OldestIsTriedFirst | internal/basket/postgres/outbox.go:31-38 | In every reachable state the next read begins with the ready row that no ready row is older than |
| PipelineTiming.NotTriedBeforeItsTime | internal/basket/postgres/outbox.go:31-38 | Over every run: after a failure recorded with a next attempt at t, no number of reads before t, whatever else happens, puts the message in the relay's hands; it is not sent and its row keeps that time and one more attempt |
| PipelineTiming.DueOnceCommitted | internal/basket/postgres/outbox.go:179-202 | A checkout that takes effect is in the table exactly as announced, without attempts, and due from the moment of its commit |
| PipelineTiming.OnlyRefusalsCount | internal/basket/outbox/outbox.go:152-183 | Over every run: a row has at most as many attempts as its publishes were refused in the run, cancelled ones not counted, and a poisoned one was refused at least MaxAttempts times |
| PipelineTiming.AStopEndsTheCycle | internal/basket/outbox/outbox.go:107-183 | After a failed poll, a cancelled publish or a failed database call the relay sends nothing until its next read; a stop leaves every row as it is |
| PipelineSteps.DueIsOldestDue | internal/basket/postgres/outbox.go:31-38 | A batch answers the relay's query if and only if its rows are unpoisoned and due by their own fields, ordered by time and id, and a due row is left out only behind a full batch of older ones |
| PipelineSteps.StepKeeps | internal/basket/outbox/outbox.go:107-183 | Every single call of every component keeps the invariant behind these results |
| CheckoutHandler.CheckoutBasketHandler.Handle | internal/basket/carts/checkout_basket.go:63-101 | A basket that is empty or has no version, or a request without a user name, changes nothing; any other is announced under its derived id in the transaction that removes the user's row; accepted means the row went, the commit was confirmed and the cache entry was evicted |
| CheckoutHandler.Repository.Checkout | internal/basket/rediscache/repository.go:137-149 | The tables first, then the entry; not found leaves the entry, and a failed eviction is reported after the checkout has happened. On the baskets table and the cache it does and answers what BasketCache's checkout does when its two calls end that way |
| CheckoutHandler.Database.Checkout | internal/basket/postgres/outbox.go:146-176 | Both statements commit together or not at all, whichever of them the database leaves unanswered; not found is reported exactly when the delete was answered and there was no row |
| CheckoutHandler.Database.InsertMessage | internal/basket/postgres/outbox.go:179-202 | A message already recorded under the id is left as it is |
| CheckoutHandler.HandlingIsARun | internal/basket/carts/checkout_basket.go:63-101 | What the handler does to the tables is what the pipeline's steps for it do, with anything else that leaves the handler in place happening in between, so the results over all runs are about it |
| CheckoutRelay.CheckoutRelay.ProcessOnce | internal/basket/outbox/outbox.go:107-138 | One batch of the oldest due rows, message by message until an error or a stop; it does exactly the pipeline's relay steps with other components' steps before each call, and counts what was published and deleted |
| CheckoutRelay.CheckoutRelay.Publish | internal/basket/outbox/outbox.go:152-183 | Accepted messages are deleted, refused ones failed or, at the last attempt, poisoned; a cancellation records nothing |
| CheckoutRelay.Backends.Select | internal/basket/postgres/outbox.go:32-38 | Row by row: unpoisoned, next attempt not after now, ordered by time and id; a due row is left out only when the batch is full of older ones |
| CheckoutRelay.Backends.ReadDue | internal/basket/postgres/outbox.go:31-84 | Reads the due rows as they are after whatever others did before the query |
| CheckoutRelay.Backends.Delete | internal/basket/postgres/outbox.go:91-97 | Removes one row |
| CheckoutRelay.Backends.Fail | internal/basket/postgres/outbox.go:100-111 | One more attempt and a later next one |
| CheckoutRelay.Backends.Poison | internal/basket/postgres/outbox.go:114-125 | One more attempt and the poison mark, unless it is there |
| CheckoutRelay.CycleIsARun | internal/basket/outbox/outbox.go:107-138 | A whole cycle, with any failures and any steps of the other components in between, is a run of the pipeline whose steps account for its report: published is the number of confirmed deletions, and it failed exactly if its last call failed and was neither a poll nor refused by the broker |
| CheckoutRelay.CycleEndsIdle | internal/basket/outbox/outbox.go:107-138 | However a cycle ends, it leaves nothing in hand |
| CheckoutRelayCycles.CycleHandlesItsBatch | internal/basket/outbox/outbox.go:107-183 | A cycle disturbed by nothing but refusals handles its whole batch: confirmed messages are gone and counted, each refused one has exactly one more attempt and is given up on or due again at the time recorded, no other row has changed |
| CheckoutConsumer.Consumer.Handle | internal/platform/messaging/rabbitmq/subscriber.go:112-147 | One delivery: discarded when unreadable, set aside when rejected, given back on any other error, acknowledged when handled; it does exactly the pipeline's consumer steps |
| CheckoutConsumer.Consumer.SetAside | internal/platform/messaging/rabbitmq/subscriber.go:155-175 | The copy is confirmed before the original is acknowledged, else the original is given back |
| CheckoutConsumer.Consumer.Idempotent | internal/platform/messaging/inbox/inbox.go:41-71 | Claim, work, complete; a finished message is acknowledged without work, an unfinished one is worked on again |
| CheckoutConsumer.Consumer.PlaceOrder | internal/ordering/orders/checkout.go:38-50 | Rejects exactly the messages that do not decode or break a rule, and places the order of every other |
| CheckoutConsumer.InboxStore.Begin | internal/ordering/mssql/inbox.go:40-66 | A claim is granted when the message is new or was claimed and never completed, refused when it was completed |
| CheckoutConsumer.InboxStore.Complete | internal/ordering/mssql/inbox.go:69-79 | Marks the claim completed |
| CheckoutConsumer.Backends.PublishRejected | internal/platform/messaging/rabbitmq/subscriber.go:179-216 | The error queue gets a copy with the reason added to its headers |
| CheckoutConsumer.DeliveryIsARun | internal/platform/messaging/rabbitmq/subscriber.go:112-147 | A whole delivery, with any failures and any steps of the other components in between, is a run of the pipeline |
| CheckoutConsumerDeliveries.DeliveryDecides | internal/platform/messaging/rabbitmq/subscriber.go:112-175 | A delivery whose calls all succeed, from any state: an unreadable message is dropped, one with a nil id goes back, a completed one is acknowledged without work, and any other becomes exactly one order or a copy in the error queue, completed or claimed accordingly |
| CheckoutConsumerDeliveries.NilIdIsNeverClaimed | internal/platform/messaging/inbox/inbox.go:41-71 | Over every run, no nil id enters the inbox or an order |
| Envelopes.EnvelopeSurvives | internal/platform/messaging/rabbitmq/rabbitmq.go:117-136 | Round trip: from the message built for an envelope, in whichever accepted form the wire writes its version, the consumer rebuilds that envelope with the time the wire carried; the message survives a broker restart |
| Envelopes.IntHeaderReadsExactly | internal/platform/messaging/rabbitmq/subscriber.go:251-271 | A header yields n if and only if it is a signed integer holding n, a 64-bit float whose whole part is n, or decimal text that spells n, sign and leading zeros included, and fits 64 bits; a float whose whole part does not fit 64 bits yields some number, the model does not say which |
| Envelopes.ReadableIff | internal/platform/messaging/rabbitmq/subscriber.go:219-243 | A message is readable if and only if its id is a UUID in its 36-character form (the library's other spellings are left out), it has a type, and its version comes in an accepted form |
| Envelopes.UnsignedVersionIsUnreadable | internal/platform/messaging/rabbitmq/subscriber.go:268-270 | A version written as an unsigned integer or a 32-bit float makes an otherwise well-formed message unreadable |
| Envelopes.RejectedCopyStaysReadable | internal/platform/messaging/rabbitmq/subscriber.go:182-199 | The copy in the error queue is the message with its reason as one more header and nothing else changed, survives a broker restart, and reads as the same envelope |
| Envelopes.NewEnvelope | internal/platform/messaging/envelope.go:37-60 | An event is stored exactly when it has an aggregate and an id |
| Ids.CheckoutNameIsInjective | internal/basket/carts/checkout_basket.go:114-118 | The name an id is derived from is the user, a colon and 32 hex digits, and determines user and version, colons in user names included |
| Ids.ParseOfCanonical | internal/platform/messaging/rabbitmq/subscriber.go:219-223 | Round trip: the canonical text of every UUID parses back to it |
| Checkout.CheckoutKeepsItsMeaning | internal/ordering/orders/checkout.go:54-145 | For every cart: the recomputed total equals the event's, an order comes out exactly when the line, customer, address and payment rules hold, and it has the cart's lines in order and the cart's total |
| Checkout.FreeLineIsRefused | internal/basket/carts/store_basket.go:70-77 | A cart with a line a coupon clamped to zero never becomes an order |
| Checkout.OrderFrom | internal/ordering/orders/checkout.go:54-102 | Built step by step, an order comes out exactly when every rule of the message holds, each stated in plain terms; it is the one the message describes, and its customer has the message's id, shipping email and name: first and last name without white space around them, or the user name if they hold nothing else |
| Checkout.CustomerNameIsNameOf | internal/ordering/orders/checkout.go:149-157 | The customer's name is what lies between the first and last character of the joined names that is no white space, and the user name exactly when there is none |
| Checkout.OrderableIffRules | internal/ordering/orders/checkout.go:54-129 | What the value objects accept, all together, in plain terms: totals agree, no id is nil, required texts are not all white space, four digits, positive prices and quantities |
| Domain.TrimTakesTheCore | internal/ordering/orders/checkout.go:150 | Trimming leaves exactly the part from the first to the last character that is no white space |
| Checkout.NewOrder | internal/ordering/orders/checkout.go:105-129 | A pending order with both addresses and the payment, exactly when those meet their rules |
| Checkout.AddLines | internal/ordering/orders/checkout.go:83-99 | Every line is added in order and its product listed, or the first broken rule stops it |
| Checkout.TotalOf | internal/ordering/orders/checkout.go:139-145 | The sum over the message's lines |
| Checkout.CheckoutEvent | internal/basket/carts/checkout_basket.go:125-164 | The event carries the cart's lines in order, its total, and one address for shipping and billing |
| Checkout.TotalPrice | internal/basket/carts/cart.go:49-55 | The sum over the cart's lines |
| Checkout.ApplyDiscounts | internal/basket/carts/store_basket.go:60-83 | Every line loses its coupon's amount, or becomes free exactly when that is worth more, and nothing else changes; the first failed lookup fails all |
| BasketCacheRuns.StaleOnlyAfterAFailedWrite | internal/basket/rediscache/repository.go:59-149 | Over every run of requests one after another, with failing Redis calls, expiry and garbled entries: an entry that disagrees with the table belongs to a user whose last write, checkouts answered by not found left out, returned an error |
| BasketCacheRuns.WriteThatReturnsHeals | internal/basket/rediscache/repository.go:98-149 | In every state: a store, delete or checkout that returns no error leaves cache and table agreeing, with the stored basket in the table or none |
| BasketCacheRuns.AgreeingReadIsTrue | internal/basket/rediscache/repository.go:59-90 | A read of an agreeing entry answers with the row, items and version, and says not found only when there is none |
| BasketCacheReplies.ReadAnswers | internal/basket/rediscache/repository.go:55-90 | In every state: a read is served from a readable, versioned entry if Redis answers with one; else the table decides alone, its row, not found exactly without one, an error exactly when the table's own call failed; filling the cache never causes an error, and makes the entry the row when it takes effect |
| BasketCacheReplies.WriteAnswers | internal/basket/rediscache/repository.go:92-149 | In every state: a write succeeds exactly when both calls did (and a checkout had a row), a checkout says not found exactly when its transaction found none, anything else is an error; the row changes exactly when the first call took effect; after success the entry is the stored cart, or gone |
| BasketCacheReplies.StoredIsServed | internal/basket/rediscache/repository.go:55-114 | After a store without an error the next read serves just that cart, and fails only if Redis had nothing to offer and the table failed |
| BasketCacheRuns.RetriedCheckoutDoesNotHeal | internal/basket/rediscache/repository.go:137-149 | Once the row is gone, no number of retried checkouts removes a surviving entry, and none reports success |
| BasketCacheRuns.SurvivingEntryIsServed | internal/basket/rediscache/repository.go:131-149 | A checkout whose eviction fails takes the row, reports an error, and the next read serves the basket already checked out |
| BasketCacheRuns.ServedCartsWereStored | internal/basket/rediscache/repository.go:59-149 | Under every interleaving of requests: every cart served was really stored by its user under the non-nil version it carries, and no other stored cart has that version |
| BasketCacheAgreement.AgreesAfterCallIff | internal/basket/rediscache/repository.go:59-158 | In every state of every interleaving, call by call: a cart written to the cache agrees with the table if and only if the row is there with the cart's version; a row written or removed leaves agreement if and only if no usable entry is there |
| BasketCacheAgreement.DisagreesIffOutdated | internal/basket/rediscache/repository.go:59-149 | Over every interleaving whatsoever: the entry disagrees if and only if a usable entry is there and the row moved last, or the entry was last written with a version other than the row's |
| BasketCacheAgreement.LoneUserDisagreesIffBehind | internal/basket/rediscache/repository.go:59-149 | Over every interleaving in which the user's own requests do not overlap, other users' at will: the entry disagrees if and only if the row has moved since the entry was last written or removed and a usable entry is still there |
| BasketCacheAgreement.LoneUserIsStaleOnlyAfterAnError | internal/basket/rediscache/repository.go:92-149 | In the same runs, once none of the user's requests is in progress, an entry that disagrees belongs to a user whose last write that did anything ended in an error or was abandoned |
| BasketCacheAgreement.SequentialRunIsARun | internal/basket/rediscache/repository.go:59-149 | Requests one after another are runs of the shared machine in which no two overlap |
| BasketCacheAgreement.CrossingStoresDisagree | internal/basket/rediscache/repository.go:98-114 | Two overlapping stores of one user can both return no error and leave one's entry over the other's row |
| BasketCacheRuns.DelayedReaderLeavesStaleEntry | internal/basket/rediscache/repository.go:79-87 | So can a slow reader and a delete: the reader refills the cache after the delete has finished |
| BasketCache.CachedRepository.GetByUserName | internal/basket/rediscache/repository.go:59-90 | Cache, then table on a miss, a failed read or an unusable entry; filling the cache is best effort |
| BasketCache.CachedRepository.Store | internal/basket/rediscache/repository.go:98-114 | Table first, then cache, both under the version chosen here; either failure is returned |
| BasketCache.CachedRepository.Delete | internal/basket/rediscache/repository.go:119-129 | Row first, then entry; either failure is returned |
| BasketCache.CachedRepository.Checkout | internal/basket/rediscache/repository.go:137-149 | Transaction first, then entry; not found leaves the entry alone |
| BasketCache.Backends.FindRow | internal/basket/postgres/repository.go:32-53 | The row under the user name, or not found |
| BasketCache.Backends.StoreRow | internal/basket/postgres/repository.go:60-91 | Replaces the user's row, under the cart's version or, without one, a fresh one |
| BasketCache.Backends.DeleteRow | internal/basket/postgres/repository.go:94-102 | Removes the row; removing none is no error |
| OrderStaging.EventsAreStagedExactlyOnce | internal/ordering/mssql/repository.go:36-50 | Whatever was announced before, over every sequence of changes, reloads and saves that may fail anywhere: the messages a run adds for the order are exactly the images of its committing saves, one save after another, each of the order as it was then; and their kinds followed by the pending events are all the raised events, once and in order (a reload drops what was pending) |
| OrderStaging.EachMessageTellsItsOwnSave | internal/ordering/mssql/outbox.go:32-48 | Over every such run: each message added for the order was appended by one of the run's saves, is a message of the order as it was then, and tells the customer, status, sum and lines that very save committed |
| OrderStaging.AnnouncedIsWhatIsCommitted | internal/ordering/integration/integration.go:41-108 | For any order and any save that commits: each staged message tells what that transaction committed, the customer and status of the order row and the sum of its lines; a creation lists exactly the committed lines' product, quantity and price, an update lists none |
| OrderProperties.SaveThenLoad | internal/ordering/mssql/repository.go:129-146 | Round trip: a saved order reads back with the same customer, addresses, payment or none, status and multiset of lines, hence the same total |
| OrderProperties.UpdateReadsBack | internal/ordering/domain/order.go:144-162 | An update is accepted for exactly the four statuses; once saved, the order reads back with exactly the given addresses, payment and status, under its id and customer, with its lines |
| OrderRuns.OrderReadsBack | internal/ordering/mssql/repository.go:129-146 | The round trip for every order the domain made or the database gave back, paid or not, at every point of every run of changes, saves and reloads |
| OrderRuns.LoadedIsConstructed | internal/ordering/mssql/scan.go:39-91 | Whatever the tables hold, an order that loads meets everything the round trip asks for, so runs may start from it |
| OrderRuns.NewOrderIsConstructed | internal/ordering/domain/order.go:63-109 | So does a new order without lines, paid or unpaid, whose ids, addresses and payment passed their constructors, as in create_order.go |
| OrderRuns.PlacementIsConstructed | internal/ordering/orders/checkout.go:54-129 | An order made of an acceptable message under fresh ids meets everything the round trip asks for |
| OrderRuns.StepKeepsConstructed | internal/ordering/domain/order.go:144-195 | Adding, removing, updating, saving and reloading keep it so |
| OrderProperties.UpdateKeepsLines | internal/ordering/mssql/repository.go:212-231 | Whatever the database holds, an order that loads can be updated, with any addresses and payment, and saved again, and keeps every line and its id |
| OrderProperties.ReferencesAlwaysHold | internal/ordering/mssql/repository.go:59-126 | In every reachable database each line's product and order and each order's customer exist |
| OrderProperties.CheckoutAlwaysPlaces | internal/ordering/mssql/repository.go:59-89 | An order built from a checkout message can never hit a missing reference |
| OrderProperties.ProductsBecomeKnown | internal/ordering/mssql/repository.go:114-126 | Known products stay as they are, and exactly the mentioned ones are known afterwards |
| OrderProperties.FirstLineDescribes | internal/ordering/mssql/repository.go:67-80 | An unknown product is added with its first line's name and price |
| OrderEffects.PlaceStoresCustomer | internal/ordering/mssql/repository.go:59-126 | After a placement the customer has exactly the given name and email, every product is known, and other customers and orders are as before |
| OrderEffects.SaveLeavesOthers | internal/ordering/mssql/repository.go:212-231 | A save changes nothing that any other order reads back as |
| OrderEffects.DeleteTakesOnlyTheOrder | internal/ordering/mssql/repository.go:193-208 | A delete takes the order and its lines, and every other order reads back as before |
| OrderEffects.SaveIsRefusedIff | internal/ordering/mssql/repository.go:306-382 | A save is refused if and only if the customer is unknown or a line names an unknown product or a taken id; it is reported as a missing reference exactly when the customer or the first offending line's product is unknown |
| OrderRepository.Repository.Save | internal/ordering/mssql/repository.go:36-50 | All of order, lines and messages commit and the events are dropped, or tables and pending events stay as they were |
| OrderRepository.Repository.Place | internal/ordering/mssql/repository.go:59-89 | The same with the customer and the unknown products, each product looked at once |
| OrderRepository.Repository.WriteOrder | internal/ordering/mssql/repository.go:212-231 | The row, its lines deleted and reinserted, then the messages |
| OrderRepository.Repository.StageEvents | internal/ordering/mssql/outbox.go:32-48 | One message for every event that maps to one, in order, on the open transaction |
| OrderRepository.Repository.InsertOutboxMessage | internal/ordering/mssql/outbox.go:50-70 | Appends one message on the open transaction, or fails and appends none |
| OrderRepository.Database.Commit | internal/ordering/mssql/repository.go:234-252 | A transaction that fails to commit changes nothing |
| OrderProperties.RowRoundTrip | internal/ordering/mssql/scan.go:39-91 | An order's columns read back as the order, absent payment and absent email included |
| OrderTables.Lines | internal/ordering/integration/integration.go:95-108 | A message lists the order's lines in order |
| Domain.Order.Add | internal/ordering/domain/order.go:165-182 | Appends exactly the given line if quantity and price are positive, and else changes nothing |
| Domain.Order.Remove | internal/ordering/domain/order.go:187-195 | Filtering the list in place leaves the lines of other products |
| Domain.RemoveTakesExactlyTheProduct | internal/ordering/domain/order.go:187-195 | Removing takes every line of the product and no other |
| Domain.RemoveKeepsTheOrder | internal/ordering/domain/order.go:187-195 | The lines that stay keep their order |
| Domain.Order.Update | internal/ordering/domain/order.go:144-162 | Accepts exactly the four statuses and then has the given addresses, payment and status, its lines, and one more event; else nothing changes |
| Domain.Order.TotalPrice | internal/ordering/domain/order.go:135-141 | The sum over the lines |
| Domain.TotalOfPermutation | internal/ordering/domain/order.go:135-141 | The total does not depend on the order of the lines |
| Domain.Order.Restore | internal/ordering/domain/order.go:201-216 | Rebuilds an order without raising anything |
| Domain.Order.Raise | internal/ordering/domain/events.go:36-38 | Appends one event |
| Domain.Order.PullEvents | internal/ordering/domain/events.go:47-51 | Hands over the pending events and clears them |
| Domain.StatusRoundTrip | internal/ordering/domain/status.go:43-53 | Each status has its name, and a stored name reads back as its status |
| RateLimit.SweepingIsInvisible | internal/gateway/ratelimit.go:85-123 | For every trace with non-decreasing times, the decisions a caller gets equal those of a limiter that never sweeps and sees only that caller |
| RateLimit.LessThanTwiceTheLimit | internal/gateway/ratelimit.go:22-26 | Any closed interval one window long admits at most 2*limit-1 requests of a caller |
| RateLimit.TheBoundIsReached | internal/gateway/ratelimit.go:85-104 | For every limit and window the limiter, starting from its empty map, admits 2*limit-1 requests of one caller within one window length, so the bound is exact |
| RateLimit.RetryHintIsExact | internal/gateway/ratelimit.go:94-101 | From any state, whatever others do: until the moment a refusal names the caller is refused again with a hint of the same moment, and its first request after that moment is admitted |
| RateLimit.HeaderSufficesIffRoundedUp | internal/gateway/ratelimit.go:66-78 | A caller that waits as long as the response header says is admitted if and only if the header was rounded up |
| RateLimit.MemoryIsBounded | internal/gateway/ratelimit.go:106-123 | After every request the map holds only callers that opened a window less than two window lengths ago |
| RateLimit.FixedWindow.Allow | internal/gateway/ratelimit.go:85-104 | The caller's own counter decides; a refusal says how long to wait; no other live counter changes |
| RateLimit.FixedWindow.SweepAt | internal/gateway/ratelimit.go:111-123 | Drops exactly the counters whose window has passed, at most once a window |
| RateLimit.FixedWindow.constructor | internal/gateway/ratelimit.go:44-58 | A non-positive limit falls back to 5, a non-positive window to ten seconds |
| Luhn.ValidCardNumber | internal/payment/cards/card.go:80-100 | The toggling right-to-left loop is the position-parity sum of Annex B of ISO/IEC 7812-1, for 12 to 19 digits |
| Luhn.SingleErrorIsDetected | internal/payment/cards/card.go:80-100 | Changing any one digit of an accepted number makes it rejected |
| Luhn.NeighbourSwapIsDetected | internal/payment/cards/card.go:80-100 | Swapping two unequal neighbours is noticed exactly unless they are 0 and 9 |
| Luhn.CheckDigitIsUnique | internal/payment/cards/card.go:80-100 | Every digit string of 11 to 18 digits has exactly one completing check digit |

## Left out

- CheckoutRelay.Backends.Fail: the wait before the next attempt is an arbitrary time chosen per call, so backoff, jitter and timers are not modelled.
- CheckoutRelay.Backends.Poison: the recorded error text and its truncation to 2000 bytes are not modelled, here and in `Fail`.
- OrderRepository.Database.Commit: a commit that takes effect and is reported as failed is not modelled for order saves; it would leave events both committed and pending.
- Ids.ParseOfCanonical: the library's other spellings of a UUID (braces, a `urn:uuid:` prefix, no dashes) are not modelled, so a message id in one of them reads as unreadable; the publisher only writes the canonical text.
- Envelopes.EnvelopeSurvives: the timestamp a message arrives with is arbitrary, because its precision is the wire's business.
- Envelopes.IntHeaderReadsExactly: a float header is taken as a real number; NaN and infinities are not modelled, and of one beyond 64 bits only that some number comes out.
- Envelopes.ReadableIff: the library's other spellings of a message id, as under `Ids.ParseOfCanonical`.
- PipelineProgress.RowIsDoneWithinItsAttempts: that a row's tries are settled is a condition and not claimed: newer rows wait for older ones, and a relay whose database calls keep failing settles nothing.
- OrderEffects.SaveIsRefusedIff: which error the database reports for a line that names both an unknown product and a taken id is its own business; here the unknown product wins.
- OrderEffects.DeleteTakesOnlyTheOrder: the reply to a delete of an order that is not there is not modelled, only that the tables stay as they are.
- RateLimit.HeaderSufficesIffRoundedUp: the header's floating-point arithmetic is taken as exact.
- RateLimit.SweepingIsInvisible: clock readings that go backwards are not covered; requests read the clock before they take the lock, so they could be handled slightly out of order.
- Domain.Order.Remove: the list is a sequence-valued field that is overwritten position by position; other slices sharing its memory are not modelled.
- OrderProperties.SaveThenLoad: column widths and types are not modelled, so neither is the rounding of a price to the column's scale.
- PipelineRuns.OneBasketOneOrder: overlapping deliveries of one message are outside the claim, because `Begin` lets an unfinished claim run again.
- PipelineRuns.CheckoutIsNeverLost: a queue nobody bound, on which the broker drops messages, is excluded by assumption.
- BasketCache.CachedRepository.GetByUserName: entries are keyed by the user name; the fixed key prefix and the length of an entry's life are not modelled, any entry may expire at any moment.
- BasketCacheAgreement.LoneUserDisagreesIffBehind: a Redis write that reaches the server after the call reporting its failure has returned is not modelled.
- The handler in `CheckoutHandler` is given what the repository served; that this is a cart its user really stored is proved in `BasketCacheRuns` and taken over as a condition on the pipeline's read step.
- The pipeline places an order as one call that takes effect or not; the transaction behind it is `OrderRepository.Repository.Place`, and `OrderProperties.CheckoutAlwaysPlaces` shows that only a database fault can refuse it.
- Prefetch: the broker may hand the consumer several messages, of which it handles one at a time; only the one being handled is modelled.
- The Kafka subscriber: after a failed delivery it goes on to the next message, and what that does to the failed one is decided by a library.
- Two workers on one checkpoint, which the runbook rules out.
- Cancellation beyond "the cycle stops here", connections and reconnecting, readiness polling.
- SQL text, drivers, migrations, mixed-endian GUIDs (lines are listed in some fixed order of their ids), JSON bytes, Redis and AMQP wire details.
- `normalizeCardNumber`, expiry dates and security codes: which spellings of a card number, dates and codes the payment form takes; none of them affects the digit check.
- HTTP routes, gateway proxying, gRPC, request validation, logging, redaction, seeding, the storefront.
- Catalog and Discount: how products and coupons are stored and looked up; a basket meets them only as an answer to a lookup.
- Pagination, health checks, command chaining, the contract registry: which slice of a list is returned, when a service reports itself ready, in which order a request's decorators run, which event types are known.
