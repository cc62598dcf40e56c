# The write side of the goldy shop bot, modelled and proved

The repository is a shop bot whose write side is a small distributed protocol with a replicated read
model. This project states what that side does in Dafny and proves what its documentation promises.
Nothing here runs the bot; every claim is a statement the verifier checks for all inputs.

`dafny verify dfyconfig.toml` checks everything.

| file | what it is about |
|---|---|
| `Delivery.dfy`, `Relaying.dfy`, `Notifying.dfy` | order events from the committed outbox row through relays, broker and consumers to the inbox: a system of small steps, and the two handlers that run on it |
| `Like.dfy`, `CategoryTree.dfy` | category paths, and the LIKE pattern that must mean descent |
| `Upserts.dfy`, `Projection.dfy` | conditional upserts, scoped sweeps, and the import and finalise commands |
| `Decimals.dfy`, `Money.dfy`, `Currencies.dfy` | decimals with explicit exponents in a context of 28 digits, and money and quantities over them |
| `Events.dfy`, `Carts.dfy`, `CartProvider.dfy` | the cart, its event log, and two requests starting one cart |
| `OrderNumbers.dfy`, `Orders.dfy` | the order number and the order's life |
| `Checkout.dfy`, `CheckoutLaws.dfy` | screen, pricing service and order over one cart, and the command between them |
| `Pipelines.dfy` | transaction around events around handler |
| `Users.dfy` | people, their accounts, and registration |
| `OrderCards.dfy` | cutting order lines to the room a card has |

## How it is built

A method of the source that changes an object is a method of a class here, and its contract equates the
new state and the recorded events with a function of the old state. What the source promises is then
proved about those functions, over single steps and over whole runs. `Delivery` and the race in
`CartProvider` are step systems: an action is enabled or not, and the theorems quantify over every
possible sequence of actions from the empty state. `Relaying.HandlerTickIsARun`,
`Notifying.CommittedHandlingIsARun`, `Notifying.RefusedHandlingIsARun` and `CartProvider.CallIsARun` connect
the sequential handlers with the step systems.

## Where the code does less than its documentation says

Each of these is a theorem, with a witness and the exact condition.

- A million pieces at the dearest price is said to fit (`quantity.py:32-33`); it fits exactly when one
  piece costs at most 9999.99 (`Money.MillionPiecesFitUpTo9999`).
- The consumer middleware is meant for bodies that cannot be parsed, but it acknowledges a `ValueError`
  raised anywhere in the handling. That is the only way to lose an event, and as long as an event is not in
  the inbox it can still be lost that way (`Delivery.OnlyADiscardLosesAnEvent`).
- "One poisoned event cannot block the queue behind it": fewer than a batch of them, counting
  those no younger than the row, cannot (`Relaying.HealthyRowsGetThrough`), a full batch of them can
  (`Relaying.GetsThroughExactly`), and a full batch of strictly older ones always does
  (`Relaying.AFullBatchOfFailuresBlocks`).
- Within one snapshot with prefix-free identifiers the subtree filter means descent exactly when no two
  categories are each other's ancestors (`CategoryTree.SubtreeMeansDescent`). A separator inside an
  identifier makes it leak in some snapshot exactly when a part before a separator is an identifier
  too (`CategoryTree.SeparatorsInIdentifiersLeak`, `CategoryTree.TwoRootsLeak`).
- A path is computed from one snapshot, while a listing selects from the table. A snapshot delivered again
  after a newer one can take a child out of the listing of its parent (`Projection.ReplayBreaksDescent`).
  The stored paths are those of the snapshot imported last exactly when every category it could not write
  already stood there (`Projection.PathsAreTheSnapshots`), and then, without a cycle, the listing means
  descent (`Projection.TableMeansDescent`). In general the categories that stand where the snapshot puts them
  are listed as they descend exactly when everything above them stands there, too
  (`Projection.ListingsNeedTheirGroups`).
- A repeated or reordered delivery of a key is harmless exactly when there is only one version of it, or
  every version carries a timestamp and those at the greatest agree on the payload
  (`Upserts.OrderIsHarmlessExactly`; for two versions, `Upserts.OrderMattersOtherwise`).
- Import and finalise leave in scope exactly what the export mentions if and only if the table held nothing
  of it at a newer timestamp: a row that loses is not stamped and is swept (`Upserts.ImportThenFinalise`,
  `Upserts.StaleRowsAreSwept`). A swept row leaves no tombstone (`Upserts.SweptRowsComeBack`),
  and a batch finalised again takes what later batches have won (`Upserts.FinalisedAgain`).
- A price of nothing is to be kept out of the shop, but the filter asks only for more than zero while the
  column rounds to two decimals: 0.004 is accepted and stored as 0.00 (`Projection.DustIsStoredAsFree`). The
  promise holds exactly when no accepted price below 0.005 wins its upsert
  (`Projection.EveryRunKeepsPricesUsable`), so always for a sender that rounds
  (`Projection.RoundedPricesStayUsable`).
- The retry after a lost registration race is said to succeed; it is refused exactly when the owner of
  the number already has another account of that platform (`Users.WhenRegistrationSucceeds`,
  `Users.RetryMayBeRefused`).

## Model

| member | source | states |
|---|---|---|
| Delivery.NoEventIsLost | src/goldy/application/commands/outbox/relay_outbox/handler.py:41-80 | In every run of commands, relays, publish failures, crashes and redeliveries, the outbox rows are exactly the events the commands committed, each of its kind, and every one of the three consumed kinds is still pending, or unacknowledged, or in the inbox, or was discarded by the ValueError handler |
| Delivery.CommitWritesEveryEvent | src/goldy/infrastructure/adapters/persistence/sqlalchemy_outbox_command_gateway.py:28-39 | Committing fresh events is always possible, adds one unprocessed row for each and changes no other row |
| Delivery.OtherStepsLeaveTheOutbox | src/goldy/infrastructure/adapters/persistence/sqlalchemy_outbox_command_gateway.py:69-80 | Nothing but a command adds rows, and nothing but the commit of a relay marks any |
| Delivery.OnlyConsumedKindsTravel | src/goldy/infrastructure/task_manager/consumers/order_event_consumers.py:97-109 | In every run what is queued or handled is a committed event of a consumed kind, under its own identity |
| Delivery.HandledEffectivelyOnce | src/goldy/infrastructure/adapters/notifications/sqlalchemy_inbox_gateway.py:45-63 | Counting over the run itself: a message's work is committed at most once and exactly once when its key is in the inbox; only committed rows are published, only published ones handled, and a row marked processed was accepted by the broker |
| Delivery.NeverStuck | src/goldy/infrastructure/task_manager/consumers/order_event_consumers.py:15-27 | From every reachable state the relays and consumers can bring a committed consumed row to the inbox by themselves, with nothing published by hand, if and only if it is not lost: no lock, claim or abandoned transaction leaves it stuck, and a lost one stays lost |
| Delivery.AHandBringsItBack | src/goldy/infrastructure/task_manager/consumers/order_event_consumers.py:15-27 | A lost message can always be published by hand and is then handled by itself |
| Delivery.NothingIsUndone | src/goldy/infrastructure/adapters/persistence/sqlalchemy_outbox_command_gateway.py:69-80 | Along any run rows are never removed, relabelled or unmarked and the inbox only grows |
| Delivery.OnlyADiscardLosesAnEvent | src/goldy/infrastructure/task_manager/consumers/order_event_consumers.py:72-89 | From every reachable state a committed consumed event can still be lost if and only if it is not in the inbox; and every run that loses it holds a step that acknowledged its message after a ValueError |
| Delivery.StepKeepsInv | src/goldy/infrastructure/adapters/persistence/sqlalchemy_outbox_command_gateway.py:45-53 | Every step keeps relay locks disjoint and on pending rows, copies genuine, claims exclusive, marks behind acceptance, and nothing accepted out of sight |
| Relaying.RelayOutbox | src/goldy/application/commands/outbox/relay_outbox/handler.py:41-80 | The loop marks exactly the messages whose publish returned, skips the rest, hands the broker what it took in order, and counts what it marked |
| Relaying.SelectKeepsOrder | src/goldy/application/commands/outbox/relay_outbox/handler.py:56-68 | What is handed over keeps the order of the batch |
| Relaying.TickIsARun | src/goldy/application/commands/outbox/relay_outbox/handler.py:28-30 | A whole tick over any batch it may lock is a run of the step system with exactly those marks and hand-overs, and releases its locks |
| Relaying.HandlerTickIsARun | src/goldy/infrastructure/adapters/persistence/sqlalchemy_outbox_command_gateway.py:45-67 | Any batch the gateway may return from the same table is one a relay of the step system may read, and the run leaves the table and the broker as the handler does |
| Relaying.HealthyRowsGetThrough | src/goldy/infrastructure/adapters/persistence/sqlalchemy_outbox_command_gateway.py:45-53 | With k failing rows no younger than the row, k below the limit, and h healthy rows ahead, a healthy row is processed within any t completed ticks with t(limit - k) at least h + 1; failing rows younger than it do not count |
| Relaying.GetsThroughExactly | src/goldy/infrastructure/adapters/persistence/sqlalchemy_outbox_command_gateway.py:45-53 | A healthy pending row gets through in every long enough sequence of ticks if and only if fewer failing rows than a batch holds are no younger than it |
| Relaying.AFullBatchOfFailuresBlocks | src/goldy/application/commands/outbox/relay_outbox/handler.py:24-26 | With a full batch of strictly older failing rows every tick, however ties are broken, leaves the row pending and the same obstacle in place |
| Notifying.Staff | src/goldy/application/commands/notifications/notify_order_placed/handler.py:107-125 | Everyone of every role is found, under one entry each, and nobody else |
| Notifying.Inbox.Claim | src/goldy/infrastructure/adapters/notifications/sqlalchemy_inbox_gateway.py:45-63 | A claim succeeds exactly for a new key, writes only into the caller's transaction, and a clash writes nothing |
| Notifying.Inbox.Consume | src/goldy/application/commands/notifications/notify_order_placed/handler.py:62-105 | The key is committed exactly when the handling went through, a duplicate is reported exactly for a committed key, an error is exactly a failing send; delivered are those reached, skipped those without a recipient and those out of reach, and nobody is counted for an order that is gone |
| Notifying.WhoIsCounted | src/goldy/application/commands/notifications/dispatcher.py:53-111 | The dispatcher fails exactly when a send does, and otherwise counts the reached as delivered and the others as skipped |
| Notifying.CommittedHandlingIsARun | src/goldy/infrastructure/task_manager/consumers/order_event_consumers.py:97-109 | A successful handling is a run of the step system that adds its key to the inbox once and takes the message off the broker |
| Notifying.RefusedHandlingIsARun | src/goldy/infrastructure/task_manager/consumers/order_event_consumers.py:86-89 | A failed handling puts the message back with the inbox untouched; a duplicate is acknowledged and changes nothing else |
| Like.EscapedIsLiteral | src/goldy/infrastructure/adapters/persistence/catalog_listing_statements.py:41-49 | An escaped value in front of any pattern matches exactly itself followed by a match of the rest, whatever percent signs, underscores and backslashes it holds, and the result is a legal pattern |
| Like.WildcardsMatchAnything | src/goldy/infrastructure/adapters/persistence/catalog_listing_statements.py:41-49 | Unescaped, the percent sign matches any text and the underscore any one character |
| CategoryTree.Placements | src/goldy/infrastructure/adapters/persistence/sqlalchemy_catalog_projection_dao.py:376-410 | The walk loop terminates on any parent graph and computes the specified placement of every row |
| CategoryTree.EveryCategoryIsPlaced | src/goldy/infrastructure/adapters/persistence/sqlalchemy_catalog_projection_dao.py:391-410 | Every category of the batch, later duplicates replacing earlier ones, is placed by its own chain |
| CategoryTree.LastRowCounts | src/goldy/infrastructure/adapters/persistence/sqlalchemy_catalog_projection_dao.py:391 | Of the rows with one id the last one gives the parent |
| CategoryTree.PathOfAnyGraph | src/goldy/infrastructure/adapters/persistence/sqlalchemy_catalog_projection_dao.py:386-389 | On any graph a path has pairwise different components, ends in its own id, and has one component more than its depth |
| CategoryTree.PathsAreRecursive | src/goldy/infrastructure/adapters/persistence/sqlalchemy_catalog_projection_dao.py:395-408 | Without a cycle a path is the parent's path, a separator and the own id |
| CategoryTree.ListedUnder | src/goldy/infrastructure/adapters/persistence/catalog_listing_statements.py:113-131 | A category that stands where an acyclic snapshot puts it is listed under a path ending in some category if and only if that is an ancestor and the path is its own in that snapshot |
| CategoryTree.ChainIsSelfAndAncestors | src/goldy/infrastructure/adapters/persistence/sqlalchemy_catalog_projection_dao.py:399-402 | On any graph the walk meets exactly the category and its ancestors |
| CategoryTree.SubtreeIsUnder | src/goldy/infrastructure/adapters/persistence/catalog_listing_statements.py:113-131 | The filter selects exactly the path itself and the paths that continue it after a separator |
| CategoryTree.SubtreeMeansDescent | src/goldy/infrastructure/adapters/persistence/catalog_listing_statements.py:113-131 | Within one snapshot with prefix-free ids the filter selects only descendants, and it selects all of them for every pair of categories if and only if no two categories are each other's ancestors |
| CategoryTree.SeparatorsInIdentifiersLeak | src/goldy/infrastructure/adapters/persistence/catalog_listing_statements.py:29-36 | For every set of ids: the filter selects only descendants in every snapshot over them if and only if they are prefix-free, that is no id followed by a separator begins another |
| CategoryTree.SeparatorFreeIsPrefixFree | src/goldy/infrastructure/adapters/persistence/catalog_listing_statements.py:29-36 | Ids without a separator are prefix-free |
| CategoryTree.TwoRootsLeak | src/goldy/infrastructure/adapters/persistence/catalog_listing_statements.py:29-36 | Of two roots of which the first and a separator begin the second, the filter for the first takes in the second |
| Upserts.UpsertEffect | src/goldy/infrastructure/adapters/persistence/sqlalchemy_catalog_projection_dao.py:286-317 | Each row that wins against the table before the statement is written as sent, stamped and active, every other key is left alone, and as many keys are counted as rows exactly when every row wins |
| Upserts.DistinctKeysFrom | src/goldy/infrastructure/adapters/persistence/sqlalchemy_catalog_projection_dao.py:300-315 | A statement whose rows have different keys is never refused |
| Upserts.RefusedExactly | src/goldy/infrastructure/adapters/persistence/sqlalchemy_catalog_projection_dao.py:300-315 | A statement is refused if and only if it would write a row twice: two rows of one key of which the earlier wins |
| Upserts.HistoryDelivers | src/goldy/infrastructure/adapters/persistence/sqlalchemy_catalog_projection_dao.py:286-317 | Any history of statements acts on each key like its own deliveries one after another |
| Upserts.GreatestStays | src/goldy/infrastructure/adapters/persistence/sqlalchemy_catalog_projection_dao.py:309-314 | With timestamps throughout, what stays is a delivery of the greatest timestamp and the stored timestamp never decreases |
| Upserts.HistoriesConverge | src/goldy/infrastructure/adapters/persistence/sqlalchemy_catalog_projection_dao.py:68-74 | Two histories that delivered the same settled versions of a key, in any order, repetition and chunking, leave the same version, with timestamps throughout that of the greatest |
| Upserts.OrderIsHarmlessExactly | src/goldy/infrastructure/adapters/persistence/sqlalchemy_catalog_projection_dao.py:309-314 | For every set of versions: all histories that deliver exactly them agree if and only if there is at most one version, or all carry a timestamp and those at the greatest are one |
| Upserts.OrderMattersOtherwise | src/goldy/infrastructure/adapters/persistence/sqlalchemy_catalog_projection_dao.py:76-79 | Two different versions are kept or lost by their order if and only if one has no timestamp or both have the same |
| Upserts.ChunksEffect | src/goldy/application/commands/catalog/import_catalog/handler.py:24-27 | However a batch is cut, the keys it writes and stamps are exactly those with a row that wins against the table before the batch, each as carried, and every other key is left alone |
| Upserts.ImportThenFinalise | src/goldy/infrastructure/adapters/persistence/sqlalchemy_catalog_projection_dao.py:319-342 | For every accepted new batch the table after the sweep, or the deactivation, is settled by the table before: what won is present as carried, in scope the rest is gone or hidden, out of scope it is untouched; and in scope exactly the mentioned keys are present if and only if the table held none of them newer than all its rows |
| Upserts.StaleRowsAreSwept | src/goldy/infrastructure/adapters/persistence/sqlalchemy_catalog_projection_dao.py:334-342 | A key mentioned in an accepted new batch is swept with its scope if and only if the table held it at a newer timestamp than each of its rows |
| Upserts.SweptRowsComeBack | src/goldy/infrastructure/adapters/persistence/sqlalchemy_catalog_projection_dao.py:334-342 | Any delivery of a swept row, however old, brings it back |
| Upserts.FinalisedAgain | src/goldy/infrastructure/adapters/persistence/sqlalchemy_catalog_projection_dao.py:319-342 | A batch finalised again after other batches have written and swept takes, or hides, exactly what they won in its scope, so repeating it is harmless if and only if nothing of that is left |
| Projection.ProjectionSession.HandleImport | src/goldy/application/commands/catalog/import_catalog/handler.py:46-96 | The six writes and the accumulated count are those of the specification, and nothing is committed by the handler |
| Projection.ProjectionSession.Import | src/goldy/application/pipelines/transaction_pipeline.py:38-47 | An import commits all six tables or none |
| Projection.ProjectionSession.Finalize | src/goldy/application/commands/catalog/finalize_catalog_import/handler.py:56-99 | A finalisation commits its sweep or nothing; it does to the table of its scope what the scope says, row by row, and to the other five nothing; it is refused exactly when a sweep of price lists would take the default one |
| Projection.FinalisingMovesNothingElse | src/goldy/infrastructure/adapters/persistence/sqlalchemy_catalog_projection_dao.py:226-267 | For each scope, table by table: its own table loses or hides exactly what carries another stamp and is in reach, and the other five are as they were |
| Projection.ImportAccounting | src/goldy/application/commands/catalog/import_catalog/handler.py:58-96 | Accepted plus discarded never exceeds the rows sent and equals them if and only if every accepted row wins against its table |
| Projection.WhatIsReported | src/goldy/application/commands/catalog/import_catalog/handler.py:58-96 | Accepted is the number of keys that win, table by table, and discarded the number of price rows of no positive amount or in an unknown currency |
| Projection.ImportIsRefusedExactly | src/goldy/application/commands/catalog/import_catalog/handler.py:52-96 | An import is refused if and only if a price is not a number, or a price that is let through is too long for its column, or a statement would write a row twice |
| Projection.ImportedPrice | src/goldy/infrastructure/adapters/persistence/sqlalchemy_catalog_projection_dao.py:165-182 | A positive price in a known currency that wins is stored at the nearest hundredth, in its currency, under its stamp and timestamp |
| Projection.OnlyOfferedPricesAreWritten | src/goldy/application/commands/catalog/import_catalog/handler.py:52-57 | No other price is written, and an import removes none |
| Projection.ImportedPriceType | src/goldy/infrastructure/adapters/persistence/sqlalchemy_catalog_projection_dao.py:143-163 | A price list that wins keeps its name and currency and is supported exactly when the currency is known |
| Projection.EveryRunKeepsPricesUsable | src/goldy/application/commands/catalog/import_catalog/handler.py:52-57 | In every run of imports and finalisations stored prices are at all times above zero and in a known currency if and only if no accepted price below 0.005 wins an upsert; and the default price list, once there, is never taken away |
| Projection.RoundedPricesStayUsable | docs/design/ordering.md:583-586 | When every positive amount sent is at least 0.005, as it is when the sender rounds, no stored price is ever free |
| Projection.StoredAsNothing | src/goldy/infrastructure/persistence/models/catalog.py:190 | A positive amount is stored as zero by the two-decimal column if and only if it is below 0.005 |
| Projection.StoredIsNearest | src/goldy/infrastructure/persistence/models/catalog.py:190 | The column stores the nearest hundredth, a half going up, and amounts of at most two decimals unchanged |
| Projection.DustIsStoredAsFree | src/goldy/application/commands/catalog/import_catalog/handler.py:52-57 | An amount of 0.004 passes the filter, counts as accepted and is stored as 0.00 |
| Projection.ScopeIsReplaced | src/goldy/infrastructure/adapters/persistence/sqlalchemy_catalog_projection_dao.py:226-267 | For each of the six kinds of scope: one export in any number of parts under a new batch, finalised, leaves exactly its accepted rows in scope if and only if none is outdated; finalising leaves the other five tables as the import left them |
| Projection.PriceListIsReplaced | src/goldy/infrastructure/adapters/persistence/sqlalchemy_catalog_projection_dao.py:248-255 | One price list exported in any number of parts under a new batch and finalised holds exactly the accepted rows, as stored, if and only if none of them was held newer; rows of other lists that were not written have not moved |
| Projection.CategoriesStandWhereTheBatchPutsThem | src/goldy/infrastructure/adapters/persistence/sqlalchemy_catalog_projection_dao.py:93-116 | A category that wins its upsert carries the path its whole batch gives it |
| Projection.PlacedAsTheBatchSays | src/goldy/infrastructure/adapters/persistence/sqlalchemy_catalog_projection_dao.py:93-116 | Each category row carries its own id, parent, name and timestamp, and the path and depth its whole batch gives it |
| Projection.PathsAreTheSnapshots | src/goldy/infrastructure/adapters/persistence/sqlalchemy_catalog_projection_dao.py:93-116 | After an import the stored path of every mentioned category is the snapshot's if and only if those of which no row won were already stored with it |
| Projection.TableMeansDescent | src/goldy/infrastructure/adapters/persistence/catalog_listing_statements.py:113-131 | Over the table after an import whose losing rows, if any, already stood where the snapshot puts them, the listing means descent among the categories of the snapshot if and only if it has no cycle |
| Projection.ListingsNeedTheirGroups | src/goldy/infrastructure/adapters/persistence/catalog_listing_statements.py:113-131 | In a table of paths of any snapshots: the categories that stand where an acyclic snapshot puts them are listed under exactly their ancestors if and only if all their ancestors stand where it puts them |
| Projection.ImportKeepsPathsSpelled | src/goldy/infrastructure/adapters/persistence/sqlalchemy_catalog_projection_dao.py:93-116 | Every import leaves stored paths that are made of known ids and end in their own |
| Projection.ReplayBreaksDescent | src/goldy/infrastructure/adapters/persistence/sqlalchemy_catalog_projection_dao.py:68-79 | Two snapshots in good order and the first once more leave a table in which the listing of a category has lost the child it has in both |
| Currencies.StripTwice | src/goldy/infrastructure/adapters/persistence/sqlalchemy_catalog_projection_dao.py:422-428 | A stored, stripped currency code is read as the same currency as the code that was sent |
| Currencies.WhatIsRead | src/goldy/infrastructure/adapters/persistence/sqlalchemy_catalog_projection_dao.py:422-428 | A code is read as a currency if and only if it is its three letters, in any case, with spaces around |
| Money.MakeMoney | src/goldy/domain/common/values/money.py:85-107 | An amount is accepted exactly when it is finite, not negative, within the limit and of at most two decimals |
| Money.WhatIsMoney | src/goldy/domain/common/values/money.py:85-107 | Which refusal each amount meets, the first that applies, and that an accepted amount is the one given |
| Money.WhatIsAQuantity | src/goldy/domain/common/values/quantity.py:38-46 | Quantities are 1 to 1000000, refused below and above each in its own way |
| Money.TimesIsExact | src/goldy/domain/common/values/money.py:40-47 | Price times quantity has at most 28 digits before validation, keeps the exponent and loses nothing |
| Decimals.LongIsRounded | src/goldy/domain/common/values/money.py:40-57 | A result of more than 28 digits is replaced by a nearest number of 28 |
| Money.TimesQuantityMeaning | src/goldy/domain/common/values/money.py:40-47 | The product is refused exactly when the true product exceeds the limit |
| Money.PlusMeaning | src/goldy/domain/common/values/money.py:49-57 | A sum is refused exactly for two currencies or a true sum above the limit, and is otherwise exact |
| Money.MillionPiecesFitUpTo9999 | src/goldy/domain/common/values/quantity.py:27-33 | A million pieces fit exactly up to 9999.99 a piece |
| Money.MillionPiecesAtTheDearestPriceAreRefused | src/goldy/domain/common/values/money.py:95-97 | A million pieces at the dearest price are refused |
| Money.TwoDecimalsText | src/goldy/domain/orders/entities/order.py:170 | A total at two decimals prints with exactly two and reads back as its hundredths |
| Carts.Cart.AddItem | src/goldy/domain/carts/entities/cart.py:75-112 | Answer, lines and recorded event are those of the specified step; a refusal changes and records nothing |
| Carts.Cart.DecreaseItem | src/goldy/domain/carts/entities/cart.py:114-132 | As above, removing the line with the last piece |
| Carts.Cart.SetItemQuantity | src/goldy/domain/carts/entities/cart.py:134-150 | As above, for an absolute quantity |
| Carts.Cart.RemoveItem | src/goldy/domain/carts/entities/cart.py:152-167 | As above, for taking a product out |
| Carts.Cart.ClearLines | src/goldy/domain/carts/entities/cart.py:169-185 | The cart is empty afterwards and an empty one records nothing |
| Carts.Cart.RemoveUnavailable | src/goldy/application/commands/carts/remove_unavailable_cart_lines/handler.py:46-59 | The loop never fails, leaves exactly the available subsequence, and records one removal for each other line in order |
| Carts.OperationsOnQuantities | src/goldy/domain/carts/entities/cart.py:75-185 | Over the plain map from product to quantity: each operation changes its own product by its own amount and is refused exactly by its own guard |
| Carts.WhatOperationsRecord | src/goldy/domain/carts/entities/cart.py:75-185 | The event of each operation in full, and the refusal it meets |
| Carts.PlacesAreKept | src/goldy/domain/carts/entities/cart.py:75-167 | A new product comes last, a removed one leaves no gap, and everything else keeps its place |
| Carts.RunIsReplayable | src/goldy/domain/carts/entities/cart.py:75-185 | After any run, refused operations included, the events alone rebuild the lines in order, and the cart holds at most a hundred different products |
| Carts.ForeignEventsDoNotMatter | src/goldy/domain/common/events_collection.py:11-24 | Replaying a shared log is replaying the cart's own events in it |
| Events.EventsCollection.PullEvents | src/goldy/domain/common/events_collection.py:21-24 | Pulling hands over everything in order and empties the log |
| CartProvider.WithdrawCreationOf | src/goldy/application/common/services/cart_provider.py:89-95 | The loop removes every announcement of that cart and nothing else, in order |
| CartProvider.OthersAreKept | src/goldy/application/common/services/cart_provider.py:89-95 | After a withdrawal every event that does not announce the cart is there as often as before, and none that does |
| CartProvider.CurrentOrNew | src/goldy/application/common/services/cart_provider.py:61-87 | The person's one committed cart row comes back whoever wrote it, and exactly the call that wrote it has announced it |
| CartProvider.CallIsARun | src/goldy/application/common/services/cart_provider.py:61-87 | A call of the handler with any steps of others between its read and its insert is a run of the race system with the same rows and announcements |
| CartProvider.OneCartOneAnnouncement | src/goldy/infrastructure/adapters/persistence/sqlalchemy_cart_command_gateway.py:45-73 | However requests race, commit or are abandoned, each cart row has exactly one announcement in the outbox, no announcement lacks its row, and losers hold the winner's cart |
| OrderNumbers.DerivedNumber | src/goldy/domain/orders/values/order_number.py:68-91 | Every derived number validates; it begins with the year of the century, the month and the day, and its letters read back as the identifier modulo 2^30 |
| OrderNumbers.NumbersCollide | src/goldy/domain/orders/values/order_number.py:52-59 | Within one century two numbers are equal exactly when the day and the thirty bits are |
| Orders.Order.Place | src/goldy/domain/orders/entities/order.py:120-175 | An order is created and announced exactly when its lines can become one; it starts new and not cancelled, with everything as agreed, and the announcement tells whose it is, its total, currency and number of lines; a refusal records nothing |
| Orders.WhatCanBePlaced | src/goldy/domain/orders/entities/order.py:140-147 | Lines can become an order exactly when there are some, in one currency, within the limit; otherwise the first refusal that applies |
| Orders.PlacedIsNew | src/goldy/domain/orders/entities/order.py:149-175 | A placed order field by field, and its announcement field by field |
| Orders.Order.ConfirmOrder | src/goldy/domain/orders/entities/order.py:177-184 | Answer, state and event are those of the specified step |
| Orders.Order.ShipOrder | src/goldy/domain/orders/entities/order.py:186-193 | Answer, state and event are those of the specified step |
| Orders.Order.CompleteOrder | src/goldy/domain/orders/entities/order.py:195-202 | Answer, state and event are those of the specified step |
| Orders.Order.Total | src/goldy/domain/orders/entities/order.py:280-296 | The loop computes the specified partial sum of the lines |
| Orders.TotalMeaning | src/goldy/domain/orders/entities/order.py:280-296 | The total exists exactly when the true sum is within the limit and is then that sum at exactly two decimals, so a partial sum overflows only if the full one does |
| Orders.AnnouncedTotal | src/goldy/domain/orders/entities/order.py:164-174 | The total text of every announcement shows exactly two decimals and reads back as the true sum |
| Orders.Order.CancelOrder | src/goldy/domain/orders/entities/order.py:204-248 | Answer, state and event are those of the specified step |
| Orders.Order.ChangeStatus | src/goldy/domain/orders/entities/order.py:310-350 | Answer, state and event are those of the specified step |
| Orders.Order.ChangeAddress | src/goldy/domain/orders/entities/order.py:250-278 | Answer, state and event are those of the specified step |
| Orders.WhatOperationsNeed | src/goldy/domain/orders/status_transitions.py:6-12 | Exactly when each operation goes through and what it leaves, without the tables |
| Orders.WhatOperationsRecord | src/goldy/domain/orders/entities/order.py:204-350 | The event of each operation in full, and the refusal it meets |
| Orders.RunIsLawful | src/goldy/domain/orders/entities/order.py:204-278 | In every run the events chain old to new through the table and end at the current status and address, addresses change only while new or confirmed, what was agreed never changes, and cancellation fields are set exactly when cancelled, by staff always with a reason |
| Orders.AtMostThreeMoves | src/goldy/domain/orders/status_transitions.py:6-12 | A placed order changes status at most three times |
| Orders.DispatchIsFinal | src/goldy/domain/orders/status_transitions.py:28-50 | Once dispatched, no run changes the address or lets the customer cancel |
| Orders.TerminalIsFinal | src/goldy/domain/orders/status_transitions.py:52-55 | The terminal statuses are exactly those with no way out, and no run changes a finished order or records anything for it |
| Checkout.TotalFor | src/goldy/application/common/services/cart_pricing_service.py:28-51 | The loop computes the specified total, nothing for a cart with a product without a price |
| Checkout.PlaceOrder | src/goldy/application/commands/orders/place_order/handler.py:62-124 | On success the order is new, with the specified lines, announced, and the cart emptied and announced empty; on any refusal cart and log are untouched |
| Checkout.CheckOut | src/goldy/domain/orders/services/checkout_service.py:54-126 | Both halves of the checkout or neither, and the first refusal in order |
| CheckoutLaws.ReaderSplits | src/goldy/infrastructure/adapters/persistence/sqlalchemy_pricing_reader.py:85-147 | The answer holds exactly the active priced products of the list, as offered, and has no unpriced ones exactly when every active product is priced |
| CheckoutLaws.ServiceAgreesWithOrder | src/goldy/application/common/services/cart_pricing_service.py:28-51 | The service's total and the order's are the same amount, and the service has one exactly when the lines share a currency and stay within the limit |
| CheckoutLaws.ScreenShowsTheTruth | src/goldy/infrastructure/mappers/sqlalchemy_cart_row_view_mapper.py:32-77 | A screen that offers to check out shows the true sum of the lines without rounding, even above the money limit, in the currency of the first line, which is the order's whenever there is a total |
| CheckoutLaws.ScreenLine | src/goldy/infrastructure/mappers/sqlalchemy_cart_row_view_mapper.py:49-77 | Each line shows its own product and quantity, is available exactly when the product is active, priced exactly when the list prices it, and at so many times the price |
| CheckoutLaws.ScreenTotal | src/goldy/infrastructure/mappers/sqlalchemy_cart_row_view_mapper.py:32-47 | Any screen, one with unpriced lines included, shows the exact sum of its priced lines in the currency of the first of them, and nothing in roubles when none is priced |
| CheckoutLaws.ScreenOffersExactly | src/goldy/application/common/views/cart.py:34-80 | A screen offers to check out if and only if the cart holds something and all of it is offered |
| CheckoutLaws.PlacingSucceeds | src/goldy/application/commands/orders/place_order/handler.py:80-124 | Exactly when a command places an order, and which lines it places |
| CheckoutLaws.PlacedAsPromised | src/goldy/domain/orders/services/checkout_service.py:71-90 | A placed order has the promised amount and number of lines, and the cart's products and quantities in order at positions 1 to n, each with the catalog's own article, name, unit and price |
| CheckoutLaws.ConfirmedFromTheScreen | src/goldy/application/commands/orders/place_order/handler.py:93-124 | Confirmed at unchanged prices from a screen that offered it, an order is never refused as repriced; it is placed exactly when the lines share a currency and stay within the limit |
| CheckoutLaws.LostProductsAreNotRepricing | src/goldy/application/commands/orders/place_order/handler.py:99-108 | A product lost since the screen is named as unpriced or as a line that cannot be priced, never as a repricing |
| CheckoutLaws.WhenRepriced | src/goldy/application/commands/orders/place_order/handler.py:99-124 | Over offered products a changed number of lines, and then a changed total, is refused as a repricing, and nothing else is |
| CheckoutLaws.RefusedBeforePricing | src/goldy/application/commands/orders/place_order/handler.py:80-97 | An empty cart and an unresolved price list are refused as such |
| CheckoutLaws.SecondTap | src/goldy/application/commands/orders/place_order/handler.py:30-41 | After a placed order, in any serial run of cart changes and further confirmations without an accepted addition, no order is placed and every confirmation is told the cart is empty |
| CheckoutLaws.OrdersNeedAdditions | src/goldy/application/commands/orders/place_order/handler.py:30-41 | In every serial run of cart changes and confirmations the placed orders are at most the accepted additions, plus one when the cart was not empty to begin with |
| Pipelines.BuildPipelineHandlers | src/goldy/infrastructure/mediator/chain.py:24-44 | The reversed loop nests the pipelines in registration order |
| Pipelines.FirstIsOutermost | src/goldy/infrastructure/mediator/chain.py:30-38 | Around any handler, whichever way it ends, any number of pipelines is entered in registration order and left in the opposite one, and its failure passes through |
| Pipelines.StateAndOutboxMoveTogether | src/goldy/application/pipelines/events_pipeline.py:36-54 | A command that succeeds commits its state and its events together; any other, a crash, a refused commit or an outbox that refuses a row after some were written included, leaves both as they were |
| Pipelines.WhatIsAnswered | src/goldy/application/pipelines/transaction_pipeline.py:38-47 | The caller is answered success exactly when the command succeeds, otherwise the handler's own failure, the outbox's, or an application error for a refused commit; a caught error leaves nothing in the transaction |
| Pipelines.OutboxTellsTheRun | src/goldy/application/pipelines/transaction_pipeline.py:29-47 | After any run the outbox holds exactly the events of the committed commands in recorded order |
| Pipelines.ReversedRegistrationLosesEvents | src/goldy/infrastructure/mediator/chain.py:35-37 | Registered the other way round, a command whose handler goes through commits its state without its events |
| Users.User.LinkOne | src/goldy/domain/users/entities/user.py:120-151 | Answer, state and event are those of the specified step |
| Users.User.UnlinkOne | src/goldy/domain/users/entities/user.py:153-192 | Answer, state and event are those of the specified step |
| Users.User.SetPreferences | src/goldy/domain/users/entities/user.py:244-270 | Answer, state and event are those of the specified step |
| Users.User.Bar | src/goldy/domain/users/entities/user.py:292-306 | Answer, state and event are those of the specified step |
| Users.User.Unbar | src/goldy/domain/users/entities/user.py:308-321 | Answer, state and event are those of the specified step |
| Users.User.NotificationAccount | src/goldy/domain/users/entities/user.py:362-379 | For a person in good order it never raises and answers with a linked account of the chosen platform |
| Users.StepKeepsWellFormed | src/goldy/domain/users/entities/user.py:120-321 | Every operation, refused or not, leaves at least one account, one per platform, notifications pointed at one of them, and blocked exactly with a reason |
| Users.LinkingAndUnlinking | src/goldy/domain/users/entities/user.py:120-192 | Linking adds the one account, unlinking takes the one away, each refused exactly by its guard |
| Users.WhatLinkingDoes | src/goldy/domain/users/entities/user.py:120-151 | Linking in full: a new platform is added last and announced, the same account takes the new handle, another account is refused |
| Users.WhatUnlinkingDoes | src/goldy/domain/users/entities/user.py:153-192 | Unlinking in full: the account goes, the others keep their order, notifications move only if they went to it |
| Users.WhatEditsDo | src/goldy/domain/users/entities/user.py:194-321 | Every other edit in full: what changes, what is recorded, and when it is refused |
| Users.UserRegistry.Register | src/goldy/application/commands/users/register_user/handler.py:54-111 | The three-way resolution, its effect on the registry and its events are those of the specification |
| Users.KnownAccountRegisters | src/goldy/application/commands/users/register_user/handler.py:63-70 | A known account answers with its owner and changes nothing but the handle |
| Users.KnownPersonRegisters | src/goldy/application/commands/users/register_user/handler.py:72-88 | A known number takes the new account, unless its owner writes from that platform already |
| Users.NewPersonRegisters | src/goldy/application/commands/users/register_user/handler.py:90-111 | A new person has that number, language and account, is reached there, and is an administrator exactly when configured |
| Users.EveryRunKeepsInv | src/goldy/application/commands/users/register_user/handler.py:54-111 | In every run of registrations and edits, an edit being refused when another person has the number or the account, no phone number and no account belongs to two people, and everybody stays reachable |
| Users.IndexesRefuseExactly | src/goldy/infrastructure/persistence/models/user.py:37 | Of the edits a person allows, exactly those that take a number or an account from another would break a unique index |
| Users.WhenRegistrationSucceeds | src/goldy/application/commands/users/register_user/handler.py:36-39 | A contact is turned away exactly when its account is new and its number is unreadable or its owner has another account of the platform |
| Users.RetryMayBeRefused | src/goldy/application/commands/users/register_user/handler.py:36-39 | A retry after a lost race can be refused |
| Users.RegisteringAgain | src/goldy/application/commands/users/register_user/handler.py:28-30 | Registering the same contact again adds nobody, changes nothing and records nothing |
| OrderCards.FitLines | src/goldy/presentation/telegram/common/order_cards.py:99-135 | The loop with its break computes the specified text, and lines that fit are left as they are |
| OrderCards.CutToWholeRows | src/goldy/presentation/telegram/common/order_cards.py:114-135 | A cut text is the longest prefix of whole rows, none holding a separator, that fits beside the notice for all rows, then a notice whose positive count and the kept rows make up all of them |
| OrderCards.FittedIsWithinBudget | src/goldy/presentation/telegram/common/order_cards.py:110-135 | With a notice that never shrinks, the text fits its budget if and only if it needed no cutting or the notice for all rows fits |
| OrderCards.CardFits | src/goldy/presentation/telegram/common/order_cards.py:74-96 | A card fitted to its own budget leaves the reserve free and never passes a value the template refuses |
| OrderCards.BudgetIsTheMost | src/goldy/presentation/telegram/common/order_cards.py:74-96 | The budget is the greatest that leaves the message 800 of its 4096 characters and the template within 2500 |

## Left out

- Presentation, SQL execution, sessions, RabbitMQ and taskiq internals, retry timing, search ranking, roles, configuration and logging: library calls, plumbing or one-branch members.
- Pipelines: handlers are values, functions from a session to a session, because a Dafny method cannot be passed along a chain; update in place of the session object is not captured.
- Cart and user lists hold values, so the identity of a CartLine or MessengerAccount object and what an alias of one would see are not captured.
- Timestamps other than the order that an upsert or the relay depends on: updated_at, synced_at, added_at, linked_at are not modelled; the screen's rows and the cart's lines are taken in the same order.
- Delivery: that a published body parses and that the broker loses nothing it accepted are assumed; the ValueError handler is modelled as the Discard action.
- Delivery: uniqueness of event identifiers is assumed, one fresh identifier for each committed row; the outbox row's identifier is the event's own.
- Relaying.HealthyRowsGetThrough: assumes no arrivals older than the row and no second relay holding rows, as the promise does not hold without it.
- Upserts: two rows of one key in a statement are refused when the earlier one was written, which is when the database would have to write the row twice.
- Projection: column length limits, the columns of a product card, and the rounding and the sign check of a stock figure are not modelled; only prices are rounded and checked for size here.
- Decimals: signs of zero, exponent limits of the context and scientific notation; no amount in this model reaches the last two.
- Currencies: stripping and lower-casing are modelled for ASCII.
- OrderNumbers: the validator is modelled for ASCII digits; a calendar day is any day of a month up to 31.
- Checkout.PlaceOrder: takes the cart that CartProvider.CurrentOrNew hands it, the resolved price list or its refusal, and delivery fields already accepted by their validators; two checkouts of one cart at the same time are not modelled, so the second-tap law is about serial runs.
- Checkout: names, articles and units of a product row are taken as valid; only the price can be refused.
- Users: renaming, and change of number and role as methods, have the shape of the methods shown; as operations number and role are covered by the run theorem. Two registrations at the same time are modelled by the retry that follows the loser's refusal.
- Order.number uniqueness: probabilistic in the source, stated here as exactly when two numbers are equal.
