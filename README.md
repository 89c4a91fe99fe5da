# Order lifecycle of the Atr restaurant platform, in Dafny

This project models the order-lifecycle rules of the restaurant ordering
platform: the server, the admin dashboard, the customer checkout and the local
kitchen-ticket print service. It proves properties of that model. The rules
are copied with variations across these parts, and the model keeps each copy
separately. It holds:

- **Status transitions** (`StatusTransition`). `validateStatusTransition`
  upper-cases and de-aliases both statuses, then looks the pair up in the
  lifecycle table PLACED → ACCEPTED → PREPARING → READY → COMPLETED. CHANGED
  goes back to ACCEPTED, and CANCELLED can be reached from every live state.
- **Order requests on the server** (`OrderController`). Status updates, edits
  with a snapshot and the forced re-acceptance, order creation with its
  preparation-time countdown, and the print confirmation. The store of orders
  is the class `OrderStore`, whose methods change it in place.
- **Server session aggregation** (`SessionGrouping`). `getGroupedOrders`
  groups orders by session into a dictionary. It sums the totals, gives
  Dine-in and delivery precedence, and picks a "worst" status through a
  priority table. The table is doubled so that Preparing's 3.5 stays an
  integer, and candidates are the active orders first.
- **Order ids** (`OrderId`). Ids have the form `ORD-YYYYMMDD-NNNN`. The day's
  greatest id so far and the date prefix are inputs. `isValidOrderId` is
  included.
- **The print queue** (`PrintQueueModel`). It is a FIFO with an
  `isProcessing` flag. It has `add`, the two halves of `process`, and the
  timer's repeated calls.
- **The status migration** (`MigrateStatus`). This is the legacy-to-canonical
  status map and the migration loop with its counters.
- **The admin session card** (`SessionOrderCard`). Visible orders, their
  sort, the action buttons, the ticket button and the footer total.
- **The admin order list** (`AdminOrders`). The session entry is built from a
  socket push and upserted. After a status change the status is recomputed.
  The list has a status and search filter. This page has its own priority
  table, with Cancelled highest, its own active filter, and its own Dine-in
  rule (the first Dine-in order counts).
- **The bill** (`BillMerge`). Each item is merged by name and customizations
  into the bill's lines.
- **The dashboard statistics** (`Dashboard`). Revenue, status counts, revenue
  per category, sales per item and the top five items.
- **The checkout** (`Checkout`). The guards of placing an order, the order
  payload, and the confirm button's disabled state.

`OrderModel` holds the records of the Order schema
(server/models/Order.js:8-16, 25-31, 51-65). `Text` holds ASCII case mapping,
`includes`, `split`, `padStart`, `String(n)` and `parseInt`. `Wrappers` holds
`Option`. The server's `Result` of a request, a value or a failure answer, is
declared in `OrderController`.

To check the proofs, give all files to Dafny 4.11 together:
`dafny verify *.dfy`, with the default options or with
`--resource-limit 2000000`.

Modelling conventions:

- Strings stand for statuses, because the code branches on raw strings in
  several spellings.
- A JavaScript string that the code only tests for truthiness is a `string`,
  and `""` stands for both `undefined` and empty. This covers the order type
  state, table number, delivery address and search query.
- Numbers read through `||` are `Option<int>`, and the fallback applies to
  `None` and to `Some(0)`.
- Amounts and timestamps are integers.
- Database reads, the session id, generated ids, the clock and each print
  job's outcome are parameters.
- Loops that fill a dictionary or a list are methods with invariants. Each is
  proved equal to a function on the input. That function's meaning is then
  proved as lemmas: per-key sums, first occurrence, permutation and order.

Two behaviours of the code that are easy to misread:

- `getGroupedOrders` overwrites the session's table only with a truthy Dine-in
  table, so a Dine-in order without a table keeps the earlier one.
- The server's priority table has no entry for the legacy "Completed" or for
  "PREPARING", so those rank 0, like any unlisted status.

Facts about the code that the lemmas record:

- `updateOrder` compares exact spellings. An order stored as "Completed",
  which the validator treats as final, is still edited and reopened as CHANGED
  (`OrderController.LegacyCompletedIsReopened`).
- "Last id" is the greatest id in string order. After `...-9999` the
  generator returns `...-10000`. That id sorts below `...-9999` and is not a
  valid id, so every later call of the day produces `...-10000` again
  (`OrderId.CounterStallsAfter9999`, `OrderId.OverflowIsInvalid`). The order
  id carries a unique index (server/models/Order.js:5), so the second order
  given `...-10000` fails to save and `createOrder` answers 500; from then on
  no order can be created that day. Store errors are otherwise not modelled.
- The two sides read a session's orders in opposite orders. The server
  lists them newest first (server/controllers/orderController.js:243) and
  keeps the last Dine-in order with a table in that list
  (`SessionGrouping.LastDineInTableIsLast`); the socket event the admin page
  reads sends them oldest first (server/controllers/orderController.js:70, 159) and only
  its first Dine-in order's table counts (`AdminOrders.LaterTableIgnored`).
  In time both start from the earliest Dine-in order. They differ only when
  that order has no table: the server then takes the earliest Dine-in order
  that has one, while the admin page keeps the empty table.
- The checkout does not refuse an empty cart. The server answers that with
  "No order items". A payload is also refused when its order type is outside
  the schema's two values, which fails the schema's validation
  (`Checkout.ServerAcceptsNonEmptyCarts`).

## Model

| member | source | states |
|---|---|---|
| StatusTransition.Fold | server/controllers/orderController.js:192-207 | no folded status is one of the three legacy upper-case aliases; a status is kept exactly when it is not one of them, and an alias becomes PLACED or CHANGED |
| StatusTransition.CanonicalIdempotent | server/controllers/orderController.js:189-207 | normalising a normalised status changes nothing |
| StatusTransition.ValidateIsTable | server/controllers/orderController.js:210-221 | the validator accepts a pair exactly when the normalised pair is in the transition table |
| StatusTransition.CaseInsensitive | server/controllers/orderController.js:189-207 | upper-casing either status first does not change the verdict |
| StatusTransition.CanonicalIsFixed | server/controllers/orderController.js:192-207 | the seven canonical names normalise to themselves |
| StatusTransition.LegacyAliases | server/controllers/orderController.js:192-207 | every legacy spelling of the schema normalises to its canonical name |
| StatusTransition.SameCanonical | server/controllers/orderController.js:203-221 | two spellings with the same normal form are judged alike, as current status and as target |
| StatusTransition.TerminalHasNoSuccessor | server/controllers/orderController.js:210-221 | CANCELLED and COMPLETED, in any spelling, admit no transition |
| StatusTransition.NoSelfTransition | server/controllers/orderController.js:210-221 | no status may move to itself or to another spelling of itself |
| StatusTransition.UnknownCurrentRejected | server/controllers/orderController.js:220-221 | a current status without a row in the table admits nothing |
| StatusTransition.AcceptedTargets | server/controllers/orderController.js:210-218 | every accepted target is a known status and is neither PLACED nor CHANGED |
| OrderController.StatusUpdate | server/controllers/orderController.js:135-149 | refused exactly when a status is given and the validator rejects it, with both statuses in the error; otherwise only status and feedback status change, each only when given |
| OrderController.StatusUpdateFollowsTable | server/controllers/orderController.js:135-148 | an accepted status change is a pair of the table and ends in a known status other than PLACED and CHANGED |
| OrderController.TerminalIsFinal | server/controllers/orderController.js:134-154 | no sequence of status requests moves a CANCELLED or COMPLETED order, in any spelling |
| OrderController.RequestsChangeOnlyStatus | server/controllers/orderController.js:146-154 | any sequence of status requests changes nothing but the order's status |
| OrderController.OrderStore.UpdateOrderStatus | server/controllers/orderController.js:117-154 | 404 for an unknown id; otherwise the answer is the status update of the stored order, and only that order is rewritten, and only on success |
| OrderController.EditOrder | server/controllers/orderController.js:564-599 | refused exactly for CANCELLED and COMPLETED, naming the status; otherwise the order becomes CHANGED and holds a snapshot of itself before the edit |
| OrderController.EditAppliesSuppliedFields | server/controllers/orderController.js:591-599 | supplied fields take the supplied values, the others keep theirs, and nothing else but the snapshot and the status changes |
| OrderController.RestoreUndoesEdit | server/controllers/orderController.js:580-596 | the snapshot holds everything an edit changes: restoring it gives back the order as it was |
| OrderController.EditNeedsReacceptance | server/controllers/orderController.js:598-599 | after an edit the validator allows exactly ACCEPTED and CANCELLED |
| OrderController.LegacyCompletedIsReopened | server/controllers/orderController.js:564-599 | an order stored as "Completed" has no valid successor, yet the edit succeeds and reopens it as CHANGED |
| OrderController.OrderStore.UpdateOrder | server/controllers/orderController.js:554-601 | 404 for an unknown id; otherwise the answer is the edit of the stored order, and only that order is rewritten, and only on success |
| OrderController.MaxPrepTime | server/controllers/orderController.js:26-35 | 15 when no catalogue item is found; otherwise at least every found item's time (default 15) and equal to one of them |
| OrderController.CreateOrder | server/controllers/orderController.js:14-55 | refused with "No order items" exactly for an empty item list; refused by the schema's validation exactly when the list is not empty but the user is missing, the session id is empty or the order type is neither Dine-in nor Takeaway; otherwise a PLACED order with the request's items, the given ids, a countdown of 60 seconds per minute of the longest preparation time, no tickets and no snapshot, the request's discount or the schema's default of 0; it copies the request's totals, type, table, customer and delivery fields, takes the given store id, sets the feedback status to Pending and stamps both times with the clock |
| OrderController.CountdownCoversEveryItem | server/controllers/orderController.js:25-54 | for a request that is created, the countdown covers every found item's preparation time, and is 900 seconds when none was found |
| OrderController.CreatedOrderNextSteps | server/controllers/orderController.js:49 | a created order can next be accepted or cancelled, and nothing else |
| OrderController.PrintEntry | server/controllers/orderController.js:519-524 | the pushed ticket is stamped with the time, holds the given items or none, is for both printers, and keeps a given print id; without one its id is `P-` followed by the decimal digits of the time |
| OrderController.PrintedRecordsOneTicket | server/controllers/orderController.js:514-527 | a printed order is marked printed, has exactly one more ticket at the end of its history, and is otherwise unchanged |
| OrderController.PrintedIdsBound | server/controllers/orderController.js:514-515 | no more orders are marked than ids are listed |
| OrderController.RepeatedIdPrintsOnce | server/controllers/orderController.js:514-515 | listing an id a second time marks nothing more |
| OrderController.OrderStore.ConfirmPrintStatus | server/controllers/orderController.js:500-543 | 400 and no change for an empty id list; otherwise every stored listed order is printed once, however often it is listed, and the count is the number of such orders |
| SessionGrouping.MembersAreTheSession | server/controllers/orderController.js:246-265 | the orders collected for a session are exactly the orders carrying its id |
| SessionGrouping.SessionIdsHaveMembers | server/controllers/orderController.js:247-265 | a session has an entry exactly when it has member orders |
| SessionGrouping.SessionIdsAreOrderSessions | server/controllers/orderController.js:247-263 | the dictionary's keys are the session ids of the orders |
| SessionGrouping.LastDineInTableIsLast | server/controllers/orderController.js:270-276 | no table is found exactly when no Dine-in member has one; a found table belongs to a Dine-in member after which no Dine-in member has a table |
| SessionGrouping.EarliestCreatedBounds | server/controllers/orderController.js:289-291 | the session's createdAt is at most every member's and equals one of them |
| SessionGrouping.LatestUpdatedBounds | server/controllers/orderController.js:292-294 | the session's updatedAt is at least every member's and equals one of them |
| SessionGrouping.TimestampBounds | server/controllers/orderController.js:288-294 | createdAt is the minimum and updatedAt the maximum over the members |
| SessionGrouping.SummaryFields | server/controllers/orderController.js:250-294 | the session is Dine-in iff some member is; its table is the last seated Dine-in member's, else the first member's; delivery iff some member is; the timestamps are the extremes |
| SessionGrouping.ExampleDineInOverride | server/controllers/orderController.js:270-276 | a Takeaway order followed by a Dine-in order at table 5 gives a Dine-in session at table 5 |
| SessionGrouping.ActiveOrdersAreActive | server/controllers/orderController.js:318-321 | the active orders are exactly the members not CANCELLED, Cancelled, COMPLETED or Completed |
| SessionGrouping.ActiveOrdersAppend | server/controllers/orderController.js:318-321 | the filter distributes over concatenation, so the active members keep their order and multiplicity, which decides the first of equal-priority candidates |
| SessionGrouping.Candidates | server/controllers/orderController.js:318-322 | the candidates are the active members when there is one, otherwise all members |
| SessionGrouping.MaxPriority | server/controllers/orderController.js:299-331 | the highest candidate priority is at least COMPLETED's, bounds every candidate, and is attained unless it is COMPLETED's |
| SessionGrouping.WorstStatusIsFirstMaximum | server/controllers/orderController.js:324-331 | the session status has the highest priority, and is COMPLETED or the first candidate reaching it |
| SessionGrouping.UnlistedNeverChosen | server/controllers/orderController.js:324-331 | a status missing from the priority table is never the session's status |
| SessionGrouping.ExamplePlacedWins | server/controllers/orderController.js:299-332 | PLACED, ACCEPTED and CANCELLED members give PLACED |
| SessionGrouping.ExampleAllTerminal | server/controllers/orderController.js:299-332 | CANCELLED and COMPLETED members give CANCELLED |
| SessionGrouping.ExampleUnlistedActive | server/controllers/orderController.js:299-332 | a single active order in an unlisted status leaves the session COMPLETED |
| SessionGrouping.GroupedIsSummary | server/controllers/orderController.js:246-295 | after any prefix of the orders, the dictionary has one entry per session seen, summarising exactly its members |
| SessionGrouping.GroupBySession | server/controllers/orderController.js:246-295 | the grouping loop gives one entry per session id, equal to the summary of exactly its members |
| SessionGrouping.EnterOrder | server/controllers/orderController.js:247-295 | one pass of the grouping loop is the dictionary step: the entry of the order's session is started from that order when the session is new, then absorbs the order |
| SessionGrouping.ComputeWorstStatus | server/controllers/orderController.js:324-331 | the worst-status loop computes the session status of its candidates |
| SessionGrouping.AssignStatuses | server/controllers/orderController.js:316-333 | every session gets the worst status of its candidates, and nothing else in any session changes |
| SessionGrouping.SessionWorstStatus | server/controllers/orderController.js:318-332 | a session's status is the worst status among its active members, or among all members when none is active |
| SessionGrouping.GetGroupedOrders | server/controllers/orderController.js:239-333 | one session per session id, each summarising exactly its members and carrying their worst status |
| OrderId.TwoDigits | server/utils/orderIdGenerator.js:11-12 | a month or day padded to two places is two digits |
| OrderId.DatePrefixIsEightDigits | server/utils/orderIdGenerator.js:9-13 | a four-digit year with a calendar month and day gives an eight-digit prefix |
| OrderId.OrderNumberOfSmall | server/utils/orderIdGenerator.js:34 | a counter up to 9999 is printed as four digits denoting it |
| OrderId.OrderNumberOfLarge | server/utils/orderIdGenerator.js:34 | padStart does not truncate: from 10000 on the counter has more than four digits |
| OrderId.ValidIdShape | server/utils/orderIdGenerator.js:41-44 | a valid id is ORD-, its prefix, a dash and its counter |
| OrderId.SplitGenerated | server/utils/orderIdGenerator.js:29 | a generated id splits on dashes into ORD, the prefix and the counter |
| OrderId.FirstOfTheDay | server/utils/orderIdGenerator.js:24-35 | with no id yet today the id ends in 0001 |
| OrderId.AssembleValid | server/utils/orderIdGenerator.js:41-44 | a valid prefix and four digits make a valid id whose counter is those digits |
| OrderId.GeneratedIsValid | server/utils/orderIdGenerator.js:24-35 | for a counter up to 9999 the generated id is valid and carries that counter |
| OrderId.NextAfterValid | server/utils/orderIdGenerator.js:26-31 | after a valid id the next counter is one more than its counter |
| OrderId.SuccessorIsNext | server/utils/orderIdGenerator.js:26-35 | after a valid id with a counter below 9999 the next id is valid with the counter one higher |
| OrderId.GenerateContinues | server/utils/orderIdGenerator.js:24-35 | given back as the day's last id, a generated id continues the count by one |
| OrderId.OverflowIsInvalid | server/utils/orderIdGenerator.js:34-35 | from 10000 on the generated id is not valid |
| OrderId.MalformedLastGivesNaN | server/utils/orderIdGenerator.js:29-35 | a last id without a numeric third field gives NaN and the invalid id ending in 0NaN |
| OrderId.NaNIdInvalid | server/utils/orderIdGenerator.js:41-44 | an id ending in 0NaN never matches the id pattern |
| OrderId.CounterStallsAfter9999 | server/utils/orderIdGenerator.js:19-31 | the id after ...-9999 is ...-10000, which sorts below ...-9999 in string order |
| Text.Upper | server/controllers/orderController.js:189 | upper-casing keeps the length, leaves no small letter, keeps every other character, and turns each small letter into the capital that lower-cases back to it |
| Text.UpperIdempotent | server/controllers/orderController.js:189 | upper-casing twice is upper-casing once |
| Text.Lower | AdminDashbord/src/pages/Orders.jsx:167-169 | lower-casing keeps the length, leaves no capital, keeps every other character, and turns each capital into the small letter that upper-cases back to it |
| Text.LowerForgetsCase | AdminDashbord/src/pages/Orders.jsx:167-169 | lower-casing forgets any earlier case mapping and is idempotent |
| Text.NatToDecimal | server/utils/orderIdGenerator.js:34 | the decimal text of a number is a non-empty digit string |
| Text.DecimalRoundTrip | server/utils/orderIdGenerator.js:29-34 | the decimal text of n denotes n |
| Text.DecimalLength | server/utils/orderIdGenerator.js:34 | the decimal text of n has at most k digits exactly when n is below 10^k |
| Text.PadStart | server/utils/orderIdGenerator.js:34 | the padded text has the larger of the two lengths, ends with the input and is filled on the left |
| Text.ZeroPaddedValue | server/utils/orderIdGenerator.js:34 | zero padding keeps the digits' value |
| Text.Split | server/utils/orderIdGenerator.js:29 | splitting gives at least one piece |
| Text.ParseInt | server/utils/orderIdGenerator.js:29 | parsing gives NaN exactly for text not starting with a digit |
| OrderModel.SumTotalAppend | server/controllers/orderController.js:266 | the summed total of two lists of orders is the sum of their totals |
| PrintQueueModel.CallbackEvents | print-service/printQueue.js:25-29 | at most one callback follows a job: onSuccess only after success, onError only after failure and with that error |
| PrintQueueModel.RunExecutesInOrder | print-service/printQueue.js:14-34 | running the queue executes every job exactly once, first in first out |
| PrintQueueModel.CallbacksMatchOutcomes | print-service/printQueue.js:21-29 | every onError call belongs to a failed job with that error, every onSuccess call to a job that succeeded |
| PrintQueueModel.PrintQueue.constructor | print-service/printQueue.js:2-5 | a new queue is empty and idle |
| PrintQueueModel.PrintQueue.StartNext | print-service/printQueue.js:14-19 | nothing happens while a job is in flight or the queue is empty; otherwise the head job is taken off, executed and in flight, and the rest wait in order |
| PrintQueueModel.PrintQueue.Finish | print-service/printQueue.js:20-34 | the job's callback is called per its outcome, the flag is cleared, and the waiting jobs are untouched (a failed job is not re-queued) |
| PrintQueueModel.PrintQueue.Process | print-service/printQueue.js:14-34 | one whole process call on an idle queue: nothing for an empty queue, otherwise exactly the head job runs with its callback |
| PrintQueueModel.PrintQueue.Add | print-service/printQueue.js:7-12 | the job goes to the tail, and an idle queue starts its head job at once |
| PrintQueueModel.PrintQueue.Drain | print-service/printQueue.js:30-34 | the timer's repeated calls empty an idle queue, running the jobs in order with their outcomes |
| PrintQueueModel.ThreeJobs | print-service/printQueue.js:7-34 | three jobs added to an idle queue, the first failing, all run in order with the right callbacks |
| MigrateStatus.MapStatusCases | server/scripts/migrateOrderStatus.js:15-24 | legacy statuses map into the new ones and Preparing and Ready to ACCEPTED; a status changes exactly when it is a legacy key |
| MigrateStatus.SchemaStatusesEndNew | server/scripts/migrateOrderStatus.js:15-24 | every status the schema allows ends as a new status |
| MigrateStatus.MapStatusIdempotent | server/scripts/migrateOrderStatus.js:15-24 | mapping twice is mapping once |
| MigrateStatus.NeedsMigration | server/scripts/migrateOrderStatus.js:34-39 | the selected orders are exactly those without an orderId |
| MigrateStatus.MigrateOne | server/scripts/migrateOrderStatus.js:54-66 | a migrated order has an id: the one it had, or else the generated one; its status is the mapped status, and nothing but id and status changes |
| MigrateStatus.SavedCount | server/scripts/migrateOrderStatus.js:68-69 | the saved orders number the successful saves |
| MigrateStatus.MigrationIsFinal | server/scripts/migrateOrderStatus.js:52-79 | after the loop no saved order needs migrating or has an unmigrated status |
| MigrateStatus.SavedAreMigrated | server/scripts/migrateOrderStatus.js:52-69 | every saved order has an id and a status the map leaves alone |
| MigrateStatus.MigrateOrders | server/scripts/migrateOrderStatus.js:49-79 | the loop saves exactly the rewritten orders whose save succeeded; migrated plus failed counts equal the orders processed |
| SessionOrderCard.VisibleOrders | AdminDashbord/src/components/SessionOrderCard.jsx:44-52 | an order is visible exactly when it is neither cancelled nor changed, in any spelling |
| SessionOrderCard.CardPriority | AdminDashbord/src/components/SessionOrderCard.jsx:61-77 | each of the thirteen listed spellings has a priority from 1 to 7, and a status gets 99 exactly when it is not one of them |
| SessionOrderCard.SortForCardCorrect | AdminDashbord/src/components/SessionOrderCard.jsx:60-82 | the sorted orders are a permutation of the input, by priority and then newest first |
| SessionOrderCard.CardOrders | AdminDashbord/src/components/SessionOrderCard.jsx:54-57 | the card renders nothing exactly when no order is visible |
| SessionOrderCard.CardShowsVisibleSorted | AdminDashbord/src/components/SessionOrderCard.jsx:239 | the card's orders are in card order; expanded, they are exactly the visible orders; collapsed, there are two of them, or fewer when fewer are visible; only visible orders are shown; the shown orders are a prefix of the sorted visible orders, so each one left out sorts after each one shown |
| SessionOrderCard.ComparatorExamples | AdminDashbord/src/components/SessionOrderCard.jsx:77-81 | PLACED comes before ACCEPTED; on a tie the newer order first; an unlisted status last |
| SessionOrderCard.NextStatusTable | AdminDashbord/src/components/SessionOrderCard.jsx:94-183 | PLACED, Pending and the changed spellings request ACCEPTED; ACCEPTED and Accepted request Preparing, Preparing Ready, Ready COMPLETED; there is no button exactly for the cancelled and completed spellings and the statuses the card does not list |
| SessionOrderCard.ButtonsPassValidator | AdminDashbord/src/components/SessionOrderCard.jsx:98-162 | every status change a button requests is accepted by the server's validator |
| SessionOrderCard.ButtonsWalkTheLifecycle | AdminDashbord/src/components/SessionOrderCard.jsx:98-183 | following the buttons from PLACED reaches COMPLETED, which offers no button |
| SessionOrderCard.KotGoesWithStartPreparing | AdminDashbord/src/components/SessionOrderCard.jsx:89-91 | the ticket button appears exactly on orders that offer "Start Preparing" |
| SessionOrderCard.FooterCountsVisibleOnly | AdminDashbord/src/components/SessionOrderCard.jsx:370 | a hidden order adds nothing to the footer total, a visible one its amount |
| SessionOrderCard.VisibleAppend | AdminDashbord/src/components/SessionOrderCard.jsx:44-52 | the visible orders of two lists are the visible orders of each, in order |
| AdminOrders.Active | AdminDashbord/src/pages/Orders.jsx:81 | the active orders are exactly those not 'Cancelled' |
| AdminOrders.ActiveAppend | AdminDashbord/src/pages/Orders.jsx:81 | the filter distributes over concatenation, so the active orders keep their order and multiplicity |
| AdminOrders.WorstAgree | AdminDashbord/src/pages/Orders.jsx:84-89 | the socket handler's comparison and the status handler's zero-default comparison give the same status, always a listed one |
| AdminOrders.WorstIsFirstMaximum | AdminDashbord/src/pages/Orders.jsx:253-262 | the status is listed, ranks at least every order, and is Completed or the first order reaching it |
| AdminOrders.UnlistedShowCompleted | AdminDashbord/src/pages/Orders.jsx:84-89 | orders whose statuses are all unlisted (PLACED among them) give Completed |
| AdminOrders.AllCancelledIsCancelled | AdminDashbord/src/pages/Orders.jsx:81-89 | a non-empty all-Cancelled session is Cancelled |
| AdminOrders.CancelledOnlyWhenAllCancelled | AdminDashbord/src/pages/Orders.jsx:81-89 | a session is Cancelled exactly when it has orders and all are Cancelled |
| AdminOrders.SocketWorstStatus | AdminDashbord/src/pages/Orders.jsx:84-89 | the socket handler's loop computes the worst status of its candidates |
| AdminOrders.RecomputeWorstStatus | AdminDashbord/src/pages/Orders.jsx:253-262 | the status handler's loop computes the worst status of its candidates |
| AdminOrders.FirstDineIn | AdminDashbord/src/pages/Orders.jsx:95 | the index found is a Dine-in order with none before it, and none is found only without a Dine-in order |
| AdminOrders.SocketTypeAndTable | AdminDashbord/src/pages/Orders.jsx:92-101 | the session is Dine-in iff an order is; the table is the first Dine-in order's when it has one; without Dine-in it is the first order's |
| AdminOrders.LaterTableIgnored | AdminDashbord/src/pages/Orders.jsx:95-100 | when the first Dine-in order has no table, a later Dine-in order's table is ignored |
| AdminOrders.FindSession | AdminDashbord/src/pages/Orders.jsx:118 | the index found is the first entry with the session id, and none is found only when no entry has it |
| AdminOrders.UpsertPlacesSession | AdminDashbord/src/pages/Orders.jsx:117-129 | a known session is replaced at its index and the rest kept; a new one is prepended; either way a lookup finds the pushed entry |
| AdminOrders.UpsertIdempotent | AdminDashbord/src/pages/Orders.jsx:117-129 | pushing the same session twice is pushing it once |
| AdminOrders.HandleSessionUpdate | AdminDashbord/src/pages/Orders.jsx:61-129 | the handler's new list is the upsert of the entry computed from the pushed orders |
| AdminOrders.ReplaceMatching | AdminDashbord/src/pages/Orders.jsx:264-273 | the list keeps its length |
| AdminOrders.StatusUpdateOnlyTouchesItsSession | AdminDashbord/src/pages/Orders.jsx:179-273 | only the entries of the updated session change, and only their orders and status, which is the socket handler's status for the same orders |
| AdminOrders.StatusUpdateIdempotent | AdminDashbord/src/pages/Orders.jsx:264-273 | applying the same answer twice is applying it once |
| AdminOrders.HandleStatusUpdate | AdminDashbord/src/pages/Orders.jsx:179-273 | the handler's new list is the status update of the old one; an empty answer changes nothing |
| AdminOrders.FilteredOrders | AdminDashbord/src/pages/Orders.jsx:161-172 | a session is kept exactly when its status matches the filter and the search matches |
| AdminOrders.NoFilterKeepsAll | AdminDashbord/src/pages/Orders.jsx:161-172 | with filter All and no query, every session is kept in order |
| AdminOrders.SearchIgnoresCase | AdminDashbord/src/pages/Orders.jsx:166-169 | a session id found in any case is found for the query in upper or lower case |
| BillMerge.Find | AdminDashbord/src/pages/Orders.jsx:320-322 | the line found is the first with the same name and customizations, and none is found only when no line has them |
| BillMerge.MergedIsCorrect | AdminDashbord/src/pages/Orders.jsx:317-329 | one line per distinct name and customizations, in order of first appearance, each the first such item with the summed quantity |
| BillMerge.MergedKeepsQuantity | AdminDashbord/src/pages/Orders.jsx:317-329 | merging keeps the total quantity |
| BillMerge.StepKeepsQuantity | AdminDashbord/src/pages/Orders.jsx:320-327 | one merge step adds exactly the item's quantity to the bill's total quantity |
| BillMerge.MergeInto | AdminDashbord/src/pages/Orders.jsx:320-327 | one item is merged as the fold's step: the quantity is added to the first line with its name and customizations, or a copy is appended when there is none |
| BillMerge.MergeItems | AdminDashbord/src/pages/Orders.jsx:319-328 | the inner loop merges one order's items into the lines collected so far |
| BillMerge.CollectBillItems | AdminDashbord/src/pages/Orders.jsx:317-329 | the nested loop yields the merge of all the session's items in order |
| BillMerge.BillOfSession | AdminDashbord/src/pages/Orders.jsx:316-329 | a session's bill lists each distinct item once, in order of first appearance, with the summed quantity, and keeps the total quantity |
| Dashboard.RevenueAddsUp | AdminDashbord/src/pages/Dashboard.jsx:95 | revenue adds up over any split of the orders |
| Dashboard.CountIsNumberOfMatches | AdminDashbord/src/pages/Dashboard.jsx:97-98 | a status count is the number of orders whose status is exactly that string |
| Dashboard.CountsAreExact | AdminDashbord/src/pages/Dashboard.jsx:97-98 | the pending and completed counts are disjoint from each other and from PLACED and COMPLETED, and are zero without exact matches |
| Dashboard.CategoryMapIsPerCategorySum | AdminDashbord/src/pages/Dashboard.jsx:114-122 | one entry for exactly the categories that occur (missing ones as Other), each the sum of price times quantity over its items |
| Dashboard.AddCategories | AdminDashbord/src/pages/Dashboard.jsx:116-121 | the inner loop extends the category map by one order's items |
| Dashboard.BuildCategoryMap | AdminDashbord/src/pages/Dashboard.jsx:114-122 | the nested loop yields the category map of all orders' items |
| Dashboard.CategoryNamesAreKeys | AdminDashbord/src/pages/Dashboard.jsx:114-124 | the categories the chart lists are the keys of the category map, each listed once |
| Dashboard.CategoryNamesOccur | AdminDashbord/src/pages/Dashboard.jsx:114-124 | a category is listed exactly when some item falls in it |
| Dashboard.ChartDataIsPerCategory | AdminDashbord/src/pages/Dashboard.jsx:124-128 | the chart has one bar for each category that occurs and no other, none twice; each bar's revenue is its category's summed price times quantity and its colour is green for Veg, red for Non-Veg and gold otherwise |
| Dashboard.ItemMapIsPerNameSum | AdminDashbord/src/pages/Dashboard.jsx:131-140 | one entry per item name that occurs, listed once in insertion order, with summed quantity as sales and summed price times quantity as revenue |
| Dashboard.KeysAreNames | AdminDashbord/src/pages/Dashboard.jsx:131-140 | the keys of the item map are exactly the names in key order |
| Dashboard.NamesOccur | AdminDashbord/src/pages/Dashboard.jsx:131-140 | a name is a key exactly when some item carries it |
| Dashboard.NamesDistinct | AdminDashbord/src/pages/Dashboard.jsx:131-140 | no name is listed twice in key order |
| Dashboard.EntriesAreSums | AdminDashbord/src/pages/Dashboard.jsx:131-140 | each entry's sales and revenue are the summed quantity and line totals of the items of its name |
| Dashboard.CountItem | AdminDashbord/src/pages/Dashboard.jsx:134-138 | one item's pass creates the entry at zero when the name is new, listing the name last, then adds the quantity and the line total |
| Dashboard.AddItems | AdminDashbord/src/pages/Dashboard.jsx:133-139 | the inner loop extends the item map and its key order by one order's items |
| Dashboard.BuildItemMap | AdminDashbord/src/pages/Dashboard.jsx:131-140 | the nested loop yields the item map of all orders' items and its key order |
| Dashboard.Values | AdminDashbord/src/pages/Dashboard.jsx:142 | one value per item name, in key order, each holding that name, its summed quantity as sales and its summed price times quantity as revenue |
| Dashboard.SortBySalesCorrect | AdminDashbord/src/pages/Dashboard.jsx:143 | sorting by sales gives a permutation in non-increasing order of sales |
| Dashboard.TopFive | AdminDashbord/src/pages/Dashboard.jsx:142-144 | the popular items number min(5, n), are in non-increasing order of sales, are drawn from the items, and sell at least as much as every item left out |
| Checkout.SelectedAddons | client/src/pages/OrderType.jsx:50 | the customizations are exactly the add-ons whose flag is set |
| Checkout.SelectedAddonsAppend | client/src/pages/OrderType.jsx:50 | the selection distributes over concatenation, so the add-on names keep their order and multiplicity |
| Checkout.OrderData | client/src/pages/OrderType.jsx:37-58 | no payload exactly when no order type is chosen or a Dine-in order has no table |
| Checkout.PayloadMatchesCart | client/src/pages/OrderType.jsx:43-58 | the payload's items match the cart one for one with the selected add-ons; the table goes only with Dine-in; totals and coupon come from the cart |
| Checkout.DineInCarriesTable | client/src/pages/OrderType.jsx:38-57 | a Dine-in payload always carries a table number |
| Checkout.DisabledIffGuardFailsOrLoading | client/src/pages/OrderType.jsx:194 | the confirm button is disabled exactly when placing would return early or an order is being placed |
| Checkout.ServerAcceptsNonEmptyCarts | server/controllers/orderController.js:14-49 | the server answers "No order items" exactly when the cart is empty; a non-empty Dine-in or Takeaway cart becomes a PLACED order holding its items, table and user; any other order type fails the schema's validation |

## Left out

- `getAnalytics`, `getOrders` and `getOrderById` are database aggregations and lookups. They carry no rule of the lifecycle.
- The database is reduced to the order store's map and the given lists. The re-reads of a session's orders after each request, `populate`, and the 500 answers on store errors are not modelled.
- Socket emits and listeners, browser notifications, alerts, the PDF layout, the WhatsApp link and the printing triggered on acceptance are UI effects.
- `SessionManager.getCurrentSessionId` is not part of this model. The session id is an input.
- The clock is an input wherever the code reads it. The model uses one `now` for the ticket's `printedAt` and for the `P-<time>` print id, which the code reads separately.
- The concurrent-request race in id generation is not modelled. Generation is sequential.
- The database query behind "the day's greatest id" is not modelled. That id is an input.
- SessionGrouping.GetGroupedOrders: the final sort of the sessions by creation time is not modelled. The result is the dictionary. The store's read order of the orders is whatever list is given.
- AdminOrders.HandleStatusUpdate: the update of the open session panel (`selectedSession`) is not modelled. It mirrors the list entry.
- PrintQueueModel.PrintQueue.Process: `async`/`await` is modelled as one atomic step, with the job's outcome as a parameter. The 2-second `setTimeout` delay is modelled only as the next `Process` call. A callback that throws is not modelled.
- MigrateStatus.MigrateOrders: the generated ids and the outcome of each save are inputs. Connecting, closing and progress logging are left out.
- Text.ParseInt: it handles unsigned leading digits only. Signs, leading blanks and radix prefixes are not modelled, because an order id's third field never contains them.
- Text.Upper: case mapping covers ASCII letters only. Statuses and ids are ASCII.
- Text.Lower: case mapping covers ASCII letters only.
- BillMerge.KeyOf: `JSON.stringify` equality of customizations is modelled as sequence equality. That is the same for arrays of strings.
- Dashboard.CategoryNames: as for `Dashboard.Names`, insertion order stands for the key order of `Object.entries`.
- Dashboard.Names: the listing order of `Object.values` is modelled as insertion order. JavaScript lists integer-like keys first, and that is not modelled.
- Dashboard.ItemMap: the object's inherited keys are not modelled.
- Dashboard.TotalRevenue: the `|| 0` default is not represented, because every stored order has a numeric total.
- Dashboard's seven-day trend, the random growth figure and the sample chart data depend on the clock or randomness.
- Checkout.OrderData: the user is sent as an id and modelled as the user record the server stores. Navigation, the loading flag's updates and the coupon fetch are UI. Without a signed-in user, `user._id` throws before the request's `try`, so the loading flag is never reset; the model takes the user as given.
- OrderController.OrderStore.ConfirmPrintStatus: the one `updateMany` is applied to each listed stored order in turn, in a local copy of the store that then replaces the store. With no other request in between, the final store is the same, and the count stands for `modifiedCount`.
- The schema's `timestamps` option, which refreshes `updatedAt` on every `save`, `updateOne` and `updateMany`, is not modelled. The write paths (status updates, edits, print confirmation and migration) keep the stored `updatedAt`, and so does the session `updatedAt` that the grouping derives from it.
- OrderController.EditOrder: fields sent as `null` are not modelled. An absent field is `None`, a supplied one `Some`.
- The remaining UI pages and the print service's printer driver and HTTP endpoints are presentation or foreign calls.
