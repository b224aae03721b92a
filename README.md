# Karinderya restaurant core, modelled in Dafny

This project models the business rules of the Karinderya restaurant
application: a Laravel back end with a React front end where customers book
tables and order dishes, and administrators manage reservations, orders,
dishes and users.

What is modelled, one Dafny module per source file:

- **Reservations.**
  - `Booking`: the public availability map and the ordered guards of `store`.
  - `Schema`: the unique index on table, date and time.
  - `ReservationAdmin`: the administrator's past-lock on status changes, the deletion guard, the statistics and the list of bookable tables.
  - `Transactions`: the customer's cancellation, guarded by owner and the status `Pending`.
- **Orders.**
  - `Ordering`: single-line `store` and all-or-nothing `storeBulk`, with one group id per call, the delivery fee on the first line only, and the grand total.
  - `Ordering`, continued: `getOrderGroup`, per-line status updates and the grouping of the order list.
  - `OrderCodes`: the `ORD-Ymd-XXXXXX` order code set by the model's creating hook.
  - `OrdersAdmin`: the administrator's order listing, its date filters and its status update.
  - `Dashboard`: the dashboard aggregates and the monthly sales.
  - `UsersAdmin`: the user listing, the user counters and the user deletion with its cascade.
- **Client-side logic.**
  - `OrderCart`: the cart of the order form and the lines it posts.
  - `ReserveForm`: the reservation form's time slots, selection rule and pre-submit checks.
  - `TransactionView`: the transaction history's filters, grouping, group total and local update after a cancellation.
  - `OrdersView`: the administrator's order page.
  - `MenuItems`: the menu page's filter, counts and dish form.
  - `Signup`: the sign-up validators and the password-strength meter.

`Schema` holds the stored entities as datatypes and the database as a class
(`Db`) whose tables are sequences. Its invariant is the set of constraints the
migrations declare: unique ids, unique order codes, the unique reservation
slot, and resolving foreign keys. Operations that write to the database are
methods on `Db` or methods taking it. Every such method states the complete
new state, and a refused request leaves the state unchanged. Read-only
controller actions are functions over the rows a query returns. React state
that handlers replace is a class with one field per piece of state.

Modelling conventions:

- Money is integer centavos, so 20 pesos is 2000.
- Instants are integer seconds, and a day number is an instant divided by 86400.
- The clock, `uniqid()`, `Date.now()` and `Math.random()` are parameters.
- Status strings are compared exactly, as written in each file, including case.
- The database's own collation is not modelled.

## Model

| member | source | states |
|---|---|---|
| Base.ParseHi | app/Http/Controllers/ReservationController.php:97 | a string passes the `H:i` rule only when it is the two-digit rendering of a valid time of day, and then reads back as that time |
| Base.ParseFormatHi | app/Http/Controllers/ReservationController.php:97 | every valid time's `H:i` rendering passes the rule and reads back as that time |
| Base.LeadingHourOfParsed | app/Http/Controllers/ReservationController.php:101 | on a string that passed the `H:i` rule, the hour read from its first two characters is the parsed hour |
| Base.RemoveSpaces | resources/js/components/signup.jsx:68 | no longer than the input and free of whitespace |
| Base.RemoveSpacesAppend | resources/js/components/signup.jsx:68 | whitespace is removed piece by piece: the rest of the text keeps its order |
| Base.RemoveSpacesKeepsText | resources/js/components/signup.jsx:68 | text without whitespace comes back unchanged |
| Base.Lower | resources/js/admin/MenuItems.jsx:47 | same length, every character lower-cased in place |
| Schema.AtMostOneRowPerSlot | database/migrations/2025_08_20_153832_create_reservations_table.php:26-27 | under the unique index, two different reservation rows never share table, date and time, whatever their status |
| Schema.UniqueSlotsAppend | database/migrations/2025_08_20_153832_create_reservations_table.php:27 | appending a row keeps the index intact exactly when no row (of any status) holds its slot |
| Schema.Db.InsertReservation | database/migrations/2025_08_20_153832_create_reservations_table.php:11-27 | the insert succeeds exactly when the slot is free and the table and user keys resolve; the row gets the next id and is appended; a failed insert changes nothing; the store's constraints are kept |
| Schema.Db.SetReservationStatus | app/Http/Controllers/Admin/ReservationController.php:96 | only the status of that one row changes; constraints are kept |
| Schema.Db.DeleteReservationAt | app/Http/Controllers/Admin/ReservationController.php:151 | exactly that row is removed, the others keep their order; constraints are kept |
| Schema.Db.InsertOrder | app/Http/Controllers/OrderController.php:40-51 | the insert succeeds exactly when the order code is unused, the dish and user keys resolve and the NOT NULL customer name and address are present; the row gets the next id and is appended; a failed insert changes nothing |
| Schema.Db.CommitOrders | app/Http/Controllers/OrderController.php:117 | the rows written in a transaction are appended in order with consecutive ids; constraints are kept |
| Schema.Db.SetOrderStatus | app/Http/Controllers/OrderController.php:191-192 | only that row's status and update time change; constraints are kept |
| Schema.Db.DeleteUserAt | app/Http/Controllers/Admin/UserController.php:66 | the user row is removed and the foreign keys' cascade removes exactly that user's reservations and orders |
| Schema.InsertableAppend | app/Http/Controllers/OrderController.php:101-112 | a row with the next id, resolving keys and an unused code can follow the rows already written in a transaction |
| Booking.BookedTableIds | app/Http/Controllers/ReservationController.php:41-45 | a table id is listed exactly when a pending or confirmed reservation at that date and time holds it |
| Booking.HttpStatus | app/Http/Controllers/ReservationController.php:79-172 | every refusal maps to a 4xx or 5xx status |
| Booking.CheckAvailability | app/Http/Controllers/ReservationController.php:24-77 | a missing date or a time not in `H:i` gives the 422 validation refusal and nothing else does; otherwise one entry per table of `Table::all()`, true exactly when no holding reservation sits at that slot, and the booked list as above |
| Booking.NonHoldingRowsNeverBlock | app/Http/Controllers/ReservationController.php:43 | a reservation that is neither pending nor confirmed never changes whether a table is free on the map |
| Booking.CheckStore | app/Http/Controllers/ReservationController.php:83-141 | no session gives 401; the guards pass exactly when the field rules, the 6-15 hour window, the not-past check for today and the capacity check all hold; the row built is pending and carries the caller's id, name and email and the request's values; for a logged-in caller failed field rules give the validation refusal and every refusal is a 422 |
| Booking.Store | app/Http/Controllers/ReservationController.php:79-172 | a refused request changes nothing; an accepted one inserts its row with the next id unless any row holds the slot, in which case the answer is 500 and nothing changes |
| Booking.HourGuardWindow | app/Http/Controllers/ReservationController.php:100-106 | the hour guard admits exactly the times from 06:00 up to 15:59 |
| Booking.HalfPastThreeAccepted | app/Http/Controllers/ReservationController.php:100-106 | a 15:30 booking on a later day for a large enough table passes every guard, although the message says the restaurant closes at 3 PM |
| Booking.AcceptedSlotNotPast | app/Http/Controllers/ReservationController.php:108-114 | a reservation that passes the guards never starts before the current instant |
| Booking.CancelledSlotShownFreeButTaken | app/Http/Controllers/ReservationController.php:41-45 | a cancelled row shows its table free on the public map while the unique index still counts the slot as taken, so booking it answers 500 |
| Ordering.HttpStatus | app/Http/Controllers/OrderController.php:28-31 | every refusal of the order endpoints maps to a 4xx or 5xx status |
| Ordering.SingleDraft | app/Http/Controllers/OrderController.php:15-50 | the draft exists exactly when the validation rules pass and the dish is available; failed rules give the 422 refusal and nothing else does; a valid request for a sold-out dish gets the fixed 400 "sold out" refusal, which names no dish; the stored total is price times quantity plus the fee when one is sent, never negative, pending, with a generated code |
| Ordering.ItemSubtotalIgnored | app/Http/Controllers/OrderController.php:24 | the client's `item_subtotal` never changes what is stored |
| Ordering.Store | app/Http/Controllers/OrderController.php:13-56 | a refused draft changes nothing and is the answer; an accepted one is inserted with the next id unless its generated code is taken or its customer name or address is missing, either of which answers 500 and writes nothing |
| Ordering.NameOptionalButColumnRequired | app/Http/Controllers/OrderController.php:21-47 | a valid request without `customer_name` gives a draft, and that draft has a null where the column forbids one |
| Ordering.BulkLine | app/Http/Controllers/OrderController.php:90-112 | the row for item `i` carries the group id, the item's dish and quantity, and price times quantity plus the fee only on item 0 |
| Ordering.BulkCodes | app/Models/Order.php:26-30 | one generated code per line, each from the same date and that line's `uniqid()` |
| Ordering.LinesStoredAppend | app/Http/Controllers/OrderController.php:80-114 | appending the stored form of the next item keeps every written line the stored form of the item at its position |
| Ordering.NoneSoldOutExtend | app/Http/Controllers/OrderController.php:83-88 | passing the sold-out check on one more item extends "no item so far is sold out" |
| Ordering.StoreBulk | app/Http/Controllers/OrderController.php:59-133 | a failed validation answers 422 and writes nothing; any refusal leaves the orders untouched; a sold-out refusal names the first sold-out dish in item order; a 500 means the generated codes clashed; with valid input, fresh codes and nothing sold out the call succeeds and appends one line per item, in order, each the stored form of its item, returning their sum as the grand total |
| Ordering.FirstSoldOutUnique | app/Http/Controllers/OrderController.php:80-88 | only one position is the first sold-out item, so the refusal names a single dish |
| Ordering.WriteLines | app/Http/Controllers/OrderController.php:73-118 | the loop inside the transaction: it stops at the first sold-out item, whose dish the refusal names, or at the first code clash, and otherwise produces one insertable line per item with the running grand total equal to their sum |
| Ordering.CodeClashNotFresh | app/Models/Order.php:29 | an insert that clashes on the unique order code means the generated codes were not fresh |
| Ordering.BulkSurcharges | app/Http/Controllers/OrderController.php:94-99 | in a stored bulk group only line 0 carries an amount above price times quantity, and that amount is the group's fee |
| Ordering.BulkGrandTotal | app/Http/Controllers/OrderController.php:90-99 | the grand total of a bulk order is the sum of price times quantity plus exactly one fee |
| Ordering.GetOrderGroup | app/Http/Controllers/OrderController.php:144-174 | 404 exactly when no line carries the group id; otherwise exactly the group's lines, a fee that is never negative, and a grand total no greater than subtotal plus fee |
| Ordering.FeeBounds | app/Http/Controllers/OrderController.php:161-165 | the fee sums only positive surcharges, so it is never negative and the stored totals never exceed subtotal plus fee |
| Ordering.BulkGroupReadBack | app/Http/Controllers/OrderController.php:144-174 | reading back a freshly stored bulk group yields exactly its lines, the one fee, and a grand total equal to what `storeBulk` returned |
| Ordering.Show | app/Http/Controllers/OrderController.php:177-181 | found exactly when a line has that id, and then that line; otherwise 404 |
| Ordering.WithStatus | app/Http/Controllers/OrderController.php:190-192 | the saved row differs only in its status and, when the status changed, its update time |
| Ordering.UpdateStatus | app/Http/Controllers/OrderController.php:184-198 | a status outside the four is refused before the look-up; an unknown id answers 404; otherwise exactly that line changes; a refusal writes nothing |
| Ordering.Index | app/Http/Controllers/OrderController.php:209-227 | the loop puts every order, in query order, into the bucket of `order_group_id ?? 'single_'.id`; each bucket is exactly the orders with that key, in order, and the key list names every bucket once in order of first appearance |
| Ordering.IndexPartitions | app/Http/Controllers/OrderController.php:209-227 | every order lies in exactly one bucket, the one of its own key, and no bucket is empty |
| OrderCodes.FormatYmd | app/Models/Order.php:29 | `now()->format('Ymd')` is eight digits |
| OrderCodes.Last6 | app/Models/Order.php:29 | `substr(..., -6)` is the last six characters, or the whole string when shorter |
| OrderCodes.GeneratedCode | app/Models/Order.php:29 | the code starts `ORD-`, then the formatted date, then `-` |
| OrderCodes.GeneratedCodeShape | app/Models/Order.php:28-29 | for a real `uniqid()` the code is 19 characters: `ORD-`, eight date digits, `-`, and six upper-case hexadecimal characters |
| OrderCodes.NewOrder.Creating | app/Models/Order.php:26-31 | the hook fills in a generated code exactly when the current one is PHP-empty and otherwise leaves it alone |
| OrderCodes.CodeAfterCreating | app/Models/Order.php:26-31 | a non-empty code is kept; an empty one becomes a generated `ORD-` code |
| OrderCodes.CreatingIsIdempotent | app/Models/Order.php:27 | a second run of the hook, on any later date, keeps the code the first run left |
| Dashboard.DashboardStats | app/Http/Controllers/Admin/DashboardController.php:12-57 | `total_sales` is the sum of the rows `getMonthlySales` returns and is never negative when no total is; each counter is bounded by its table; `total_users` is every user whose role is not `admin` |
| Dashboard.CancelledOrdersStillCounted | app/Http/Controllers/Admin/DashboardController.php:25-28 | under a case-sensitive (binary) collation, the lower-case `cancelled` excludes nothing, so a cancelled order placed today still adds one to `total_orders` |
| Dashboard.InsertDay | app/Http/Controllers/Admin/DashboardController.php:68-69 | inserting a day into an ascending list of distinct days keeps it ascending and adds exactly that day |
| Dashboard.ConsIncreasing | app/Http/Controllers/Admin/DashboardController.php:69 | a day below every listed day can go in front of an ascending list |
| Dashboard.SaleDays | app/Http/Controllers/Admin/DashboardController.php:67-69 | the grouped dates are strictly ascending and are exactly the days with a sale |
| Dashboard.MonthlySales | app/Http/Controllers/Admin/DashboardController.php:59-76 | one row per day with a completed sale this month, strictly ascending, each with the sum of that day's sales; every such sale's day has a row and every row's day has such a sale |
| Dashboard.RowsCoverSaleDays | app/Http/Controllers/Admin/DashboardController.php:64-70 | one row per grouped day covers exactly the days of the month's sales |
| Dashboard.MonthlySalesAddUp | app/Http/Controllers/Admin/DashboardController.php:19-22 | the daily rows add up to the month's completed sales |
| Dashboard.PerDaySums | app/Http/Controllers/Admin/DashboardController.php:67 | the rows' totals sum the per-day sums, one to one |
| OrdersAdmin.FindUser | app/Http/Controllers/Admin/OrdersController.php:16 | the joined user is found exactly when a user has the order's `user_id` |
| OrdersAdmin.JoinRow | app/Http/Controllers/Admin/OrdersController.php:15-35 | a joined row keeps the order and its date; the dish columns are present exactly when the dish exists, the user columns exactly when the user exists |
| OrdersAdmin.Join | app/Http/Controllers/Admin/OrdersController.php:15-35 | one joined row per order, in order |
| OrdersAdmin.AdminIndex | app/Http/Controllers/Admin/OrdersController.php:37-62 | no bucket is empty; every row passing the search and date filters lies in the bucket of its raw group id, and every bucket holds only such rows under their own key |
| OrdersAdmin.BothBoundsInclusive | app/Http/Controllers/Admin/OrdersController.php:49-58 | with both dates given the filter is the conjunction of the two one-sided filters, both inclusive |
| OrdersAdmin.NullGroupsShareOneBucket | app/Http/Controllers/Admin/OrdersController.php:60-62 | two ungrouped orders share one bucket here, while the customer-side listing keeps them apart |
| OrdersAdmin.UpdateStatus | app/Http/Controllers/Admin/OrdersController.php:77-94 | refused exactly when the status is not one of the four; otherwise always a success, with "Order updated" and exactly that row's status and stamp changed, or "Order not found" and nothing changed |
| OrdersAdmin.UpdateTouchesOneRow | app/Http/Controllers/Admin/OrdersController.php:83-88 | ids are unique, so the update by id changes no other row |
| OrdersAdmin.Show | app/Http/Controllers/Admin/OrdersController.php:96-119 | found exactly when a joined row has that id, and then that row; otherwise 404 |
| ReservationAdmin.HttpStatus | app/Http/Controllers/Admin/ReservationController.php:65-164 | every refusal of the administrator's reservation endpoints maps to a 4xx or 5xx status |
| ReservationAdmin.UpdateStatus | app/Http/Controllers/Admin/ReservationController.php:65-110 | a status outside the four is refused before the look-up; an unknown id answers 500; a reservation whose slot has begun may only move to `completed`, otherwise 400; an allowed change alters exactly that row's status; a refusal writes nothing |
| ReservationAdmin.Show | app/Http/Controllers/Admin/ReservationController.php:115-133 | found exactly when a row has that id, and then that row; otherwise 404 (assuming the eager load of the table succeeds) |
| ReservationAdmin.Destroy | app/Http/Controllers/Admin/ReservationController.php:138-164 | an unknown id answers 500; a row that is neither `pending` nor `cancelled` answers 400 and stays; otherwise exactly that row is deleted |
| ReservationAdmin.DeleteRemovesOnlyThatRow | app/Http/Controllers/Admin/ReservationController.php:151 | ids are unique, so the rows left are exactly those with another id |
| ReservationAdmin.Statistics | app/Http/Controllers/Admin/ReservationController.php:169-202 | the total is the row count; the four status counters never exceed it; upcoming never exceeds pending plus confirmed, nor this month's count when the month began by today |
| ReservationAdmin.StatusCountsBounded | app/Http/Controllers/Admin/ReservationController.php:178-181 | the four exact-status counters add up to at most the row count |
| ReservationAdmin.UpcomingBounded | app/Http/Controllers/Admin/ReservationController.php:183-185 | upcoming reservations are at most the pending plus the confirmed ones |
| ReservationAdmin.GetAvailableTables | app/Http/Controllers/Admin/ReservationController.php:207-227 | refused exactly when the date is missing or before today or the time is not `H:i`; otherwise exactly the active tables that no non-cancelled reservation holds at that slot |
| ReservationAdmin.CompletedBlocksAdminButNotPublic | app/Http/Controllers/Admin/ReservationController.php:214-221 | a completed reservation keeps its table out of this list while the public map shows the table free |
| Transactions.Ucfirst | app/Http/Controllers/TransactionController.php:57 | keeps the length; the first character is upper-cased and the rest are kept |
| Transactions.ToOrderEntry | app/Http/Controllers/TransactionController.php:34-44 | an order's entry carries its own id, group id, status and amount |
| Transactions.ToReservationEntry | app/Http/Controllers/TransactionController.php:49-59 | a reservation's entry carries its own id, date and time, and its status with the first letter capitalised |
| Transactions.OrderEntries | app/Http/Controllers/TransactionController.php:30-44 | one entry per order of the caller: every entry comes from one of the caller's orders and every such order has its entry |
| Transactions.ReservationEntries | app/Http/Controllers/TransactionController.php:46-59 | one entry per reservation of the caller: every entry comes from one of the caller's reservations and every such reservation has its entry |
| Transactions.CancelOrder | app/Http/Controllers/TransactionController.php:77-126 | refused with 404 exactly when no order has that id, the caller as owner and status `Pending`; otherwise the first such order, and only it, becomes `Cancelled` |
| Transactions.CancelReservation | app/Http/Controllers/TransactionController.php:128-174 | refused with 404 exactly when no reservation has that id, the caller as owner and status `Pending`; otherwise that reservation, and only it, becomes `Cancelled` |
| Transactions.CreatedReservationShownPendingButNotCancellable | app/Http/Controllers/TransactionController.php:135-138 | a freshly stored reservation (`pending`) is listed as `Pending`, yet under a case-sensitive (binary) collation the cancellation guard refuses it |
| Transactions.CustomerCancelledNotDeletable | app/Http/Controllers/TransactionController.php:148 | a reservation the customer cancelled frees its table on the public map but the administrator cannot delete it |
| TransactionView.FilterOrders | resources/js/components/transactionModal.jsx:80-108 | keeps exactly the order entries that pass the status filter and the day-difference filter, and never adds any |
| TransactionView.FilterReservations | resources/js/components/transactionModal.jsx:110-138 | keeps exactly the reservation entries that pass the status filter and the day-difference filter, the difference taken from the reservation's date and time as evidently intended, and never adds any |
| TransactionView.FilterReservationsAsWritten | resources/js/components/transactionModal.jsx:110-138 | on the entry text the controller sends, which `new Date` cannot read, an entry is kept exactly when it passes the status filter and the date filter is not `today` |
| TransactionView.TodayHidesEveryReservation | resources/js/components/transactionModal.jsx:119-126 | as written, `today` hides every reservation, while `week` and `month` with status `all` keep them all |
| TransactionView.EarlierTodayShownAsToday | resources/js/components/transactionModal.jsx:119-126 | read as its date and time, a reservation earlier today passes `today` |
| TransactionView.NoFilterKeepsAll | resources/js/components/transactionModal.jsx:83-88 | with both filters at `all` both lists come back unchanged |
| TransactionView.DateFiltersNest | resources/js/components/transactionModal.jsx:93-102 | whatever passes `today` passes `week`, and whatever passes `week` passes `month` |
| TransactionView.LaterTodayNotShownAsToday | resources/js/components/transactionModal.jsx:119-126 | a reservation later the same day has a day difference of -1: hidden by `today`, shown by `week` and `month` |
| TransactionView.GroupForDisplay | resources/js/components/transactionModal.jsx:140-150 | every entry lands, in order, in the bucket of its group id (or its own id), and the keys list each bucket exactly once |
| TransactionView.DisplayBuckets | resources/js/components/transactionModal.jsx:143 | lines sharing a group id share a bucket; a line without one is alone in its bucket |
| TransactionView.EntryTotalsAreStoredTotals | app/Http/Controllers/TransactionController.php:41 | the entries' totals add up to the stored lines' totals |
| TransactionView.BulkGroupFeeCountedTwice | resources/js/components/transactionModal.jsx:157-161 | for the lines of one bulk order the total shown exceeds the server's grand total by the 20-peso fee |
| TransactionView.BulkGroupTotalMatchesServer | resources/js/components/transactionModal.jsx:157-161 | the corrected group total of a bulk order's lines is the server's grand total: price times quantity plus one fee |
| TransactionView.GroupTotalCells | resources/js/components/transactionModal.jsx:255-265 | one cell per line; only the first carries the (corrected) group total, the others read "same group" |
| TransactionView.GroupTotalShownOnce | resources/js/components/transactionModal.jsx:256 | a non-empty group shows its total exactly once |
| TransactionView.MarkOrderCancelled | resources/js/components/transactionModal.jsx:58-62 | the entry with that id reads `Cancelled`, every other entry is kept, and the length is unchanged |
| TransactionView.MarkReservationCancelled | resources/js/components/transactionModal.jsx:64-68 | the reservation entry with that id reads `Cancelled`, every other entry is kept, and the length is unchanged |
| TransactionView.History.Cancelled | resources/js/components/transactionModal.jsx:57-69 | only the list of the cancelled kind is updated, by that marking |
| TransactionView.LocalCancelMatchesServer | resources/js/components/transactionModal.jsx:58-62 | with unique ids, marking the shown list locally gives exactly what a fresh history would show after the server's cancellation |
| OrdersView.ToDateHidesThatDay | resources/js/admin/Orders.jsx:48-50 | as written, an order placed on the "to" day after its midnight fails the filter although the intended inclusive filter keeps it |
| OrdersView.IntendedDatesMatchServer | resources/js/admin/Orders.jsx:44-50 | the corrected filter keeps an order exactly when its text matches and its day lies in the server's inclusive range; the "from" bound as written already agrees |
| OrdersView.ApplyFilters | resources/js/admin/Orders.jsx:32-67 | with the corrected inclusive date bounds, a group is kept exactly when some of its orders pass, and then holds exactly the passing ones; the sales total is the completed sales of every group, filters or not |
| OrdersView.TotalSalesCountsEachCompletedOnce | resources/js/admin/Orders.jsx:59-62 | when the groups bucket a list of orders, the sales total counts every completed order exactly once |
| OrdersView.SumOfListed | resources/js/admin/Orders.jsx:220-223 | a group header adds up the same amounts as the stored lines it lists |
| OrdersView.BulkGroupHeaderTotal | resources/js/admin/Orders.jsx:220-223 | listed in full, a bulk order's lines show the server's grand total: price times quantity plus exactly one fee |
| OrdersView.Actions | resources/js/admin/Orders.jsx:299-336 | every offered action is a valid status different from the current one; there are none exactly when the status is neither `Pending` nor `Processing` |
| OrdersView.FinalStatusesOfferNothing | resources/js/admin/Orders.jsx:335-336 | `Completed` and `Cancelled` offer nothing, and every action leads to such a final status |
| OrdersView.MarkStatus | resources/js/admin/Orders.jsx:76-78 | the order with that id takes the new status, every other order is kept, and the length is unchanged |
| OrdersView.Page.StatusUpdated | resources/js/admin/Orders.jsx:69-87 | after an accepted change every group marks the order with that id and no group appears or disappears |
| OrdersView.CompletingAddsItsAmount | resources/js/admin/Orders.jsx:59-62 | with unique ids, completing a pending order raises its group's sales by exactly its amount |
| ReserveForm.GenerateTimeSlots | resources/js/components/reserveSeatModal.jsx:16-25 | ten slots, hour 6 to hour 15 in order, each valued as the zero-padded `HH:00` and captioned with the corrected AM/PM rule (noon reads PM) |
| ReserveForm.SlotsPassServerHourGuard | resources/js/components/reserveSeatModal.jsx:18-20 | every offered slot value parses as `H:i` back to its hour and lies within the server's opening-hours guard |
| ReserveForm.NoonLabelledAM | resources/js/components/reserveSeatModal.jsx:19 | the noon slot is captioned "12:00 AM" |
| ReserveForm.IntendedLabelMeridiem | resources/js/components/reserveSeatModal.jsx:19 | the corrected caption says PM exactly from noon on, and differs from the caption as written only at noon |
| ReserveForm.FormAgreesWithServerMap | resources/js/components/reserveSeatModal.jsx:399-401 | with the server's availability map, a table is shown available exactly when the server found it free |
| ReserveForm.Form.constructor | resources/js/components/reserveSeatModal.jsx:6-10 | no table selected, one guest, no slot chosen, an empty availability map |
| ReserveForm.Form.SlotChanged | resources/js/components/reserveSeatModal.jsx:142-149 | a slot counts as chosen exactly when both date and time are set; otherwise the availability map is cleared, and with both set it is kept until the lookup answers |
| ReserveForm.Form.ClickTable | resources/js/components/reserveSeatModal.jsx:403-412 | a selectable table becomes the selection with the guest count back at 1; any other click changes nothing |
| ReserveForm.Form.AvailabilityAnswered | resources/js/components/reserveSeatModal.jsx:117-128 | a successful lookup stores the server's map; any failure clears it |
| ReserveForm.FailedLookupShowsAllAvailable | resources/js/components/reserveSeatModal.jsx:127-128 | with a cleared map every table is shown available, and selectable once a slot is chosen |
| ReserveForm.GuestChoices | resources/js/components/reserveSeatModal.jsx:494-495 | choices numbered 1, 2, … in order: as many as the selected table's seats when positive, the single choice 1 when the count is 0 or no table is found, none at all exactly when the count is negative |
| ReserveForm.GuestChoicesFitTable | resources/js/components/reserveSeatModal.jsx:494-495 | for a stored table with seats every offered guest count lies between 1 and its seats |
| ReserveForm.CheckReserve | resources/js/components/reserveSeatModal.jsx:151-200 | refused first for a missing login, then a missing table; accepted exactly when logged in with table, date and time chosen, the day not before today and, on today, the time after now; then it carries those values |
| ReserveForm.FormChecksImplyServerTimeGuards | resources/js/components/reserveSeatModal.jsx:181-200 | whatever the form lets through also passes the server's past-date and past-time guards |
| OrderCart.Requantify | resources/js/components/orderModal.jsx:69-73 | the entries of that dish get the new quantity (or one more), every other entry is kept, and the length is unchanged |
| OrderCart.RequantifyOne | resources/js/components/orderModal.jsx:49-53 | in a cart holding each dish once, the re-count changes exactly the one entry of that dish |
| OrderCart.Cart.constructor | resources/js/components/orderModal.jsx:6-43 | no rice; an empty cart, or the dish the form was opened from once at its price |
| OrderCart.Cart.AddDish | resources/js/components/orderModal.jsx:45-63 | a dish already in the cart gets one more, in place; a new dish is appended with quantity 1; the cart still holds each dish once with quantities of at least 1 |
| OrderCart.Cart.RemoveDish | resources/js/components/orderModal.jsx:77-79 | the entries of that dish go and the rest stay in order; the invariant is kept |
| OrderCart.Cart.UpdateQuantity | resources/js/components/orderModal.jsx:65-75 | a quantity of 0 or less removes the dish; a positive one is set on that dish; the invariant is kept |
| OrderCart.Cart.LessRice | resources/js/components/orderModal.jsx:240 | one less rice, never below 0 |
| OrderCart.Cart.MoreRice | resources/js/components/orderModal.jsx:247 | one more rice |
| OrderCart.SubtotalAfterRequantify | resources/js/components/orderModal.jsx:81-85 | setting one entry's quantity moves the subtotal by its price times the difference |
| OrderCart.SumUpdate | resources/js/components/orderModal.jsx:82 | replacing one entry moves the dishes total by the difference of the two line costs |
| OrderCart.SubtotalAfterRemove | resources/js/components/orderModal.jsx:77-85 | removing a dish takes exactly its line cost out of the subtotal |
| OrderCart.RemoveKeepsOthers | resources/js/components/orderModal.jsx:78 | in a cart holding each dish once, removing a line's dish drops exactly that line |
| OrderCart.Entries | resources/js/components/orderModal.jsx:102-117 | the cart entries in order, followed by a rice line at 15 pesos exactly when rice was asked for and a rice dish exists |
| OrderCart.SubmitLines | resources/js/components/orderModal.jsx:91-135 | nothing is posted for an empty cart; otherwise one line per entry, rice last, all under the one group id, the 20-peso fee on the first line only |
| OrderCart.SubmittedLinesAddUpToTotal | resources/js/components/orderModal.jsx:81-135 | the posted lines carry the fee once, and their item subtotals plus fees equal the total the form shows when the rice it charged is posted |
| MenuItems.FilteredDishes | resources/js/admin/MenuItems.jsx:46-53 | keeps exactly the dishes whose lower-cased name contains the lower-cased term and whose availability fits the filter, and never adds any |
| MenuItems.NoFilterKeepsAll | resources/js/admin/MenuItems.jsx:46-53 | an empty search with the filter at `all` keeps every dish in order |
| MenuItems.AvailabilityFiltersSplit | resources/js/admin/MenuItems.jsx:48-50 | for one search, `available` and `unavailable` together show as many dishes as `all` |
| MenuItems.Summarize | resources/js/admin/MenuItems.jsx:384-396 | the available and unavailable counts add up to the total, the number of dishes, and the available count is what the `available` filter shows with no search |
| MenuItems.AvailableCount | resources/js/admin/MenuItems.jsx:389 | counting the available dishes gives the size of the `available` filter's list with no search |
| MenuItems.ResetForm | resources/js/admin/MenuItems.jsx:146-151 | empty name and price, available by default, no dish being edited, form hidden, no errors |
| MenuItems.StartEdit | resources/js/admin/MenuItems.jsx:154-163 | the fields hold the dish's name, price text and availability; that dish is the one edited; form shown, no errors |
| MenuItems.Submit | resources/js/admin/MenuItems.jsx:61-71 | an update of the edited dish while editing, otherwise a creation, with the three fields as the body |
| MenuItems.EditThenSaveTargetsTheDish | resources/js/admin/MenuItems.jsx:61-62 | saving an unchanged edit sends the dish's own values to that dish; after a reset the next save creates a dish |
| Signup.PhMobileBySuffix | resources/js/components/signup.jsx:68 | a number matches the mobile pattern exactly when its last ten characters are `9` and nine digits and what precedes them is nothing, `0` or `+63` |
| Signup.NameError | resources/js/components/signup.jsx:36-40 | no error exactly when the trimmed name has at least 2 characters |
| Signup.EmailError | resources/js/components/signup.jsx:42-46 | no error exactly when the e-mail as typed matches the `@`-and-dot pattern |
| Signup.PasswordError | resources/js/components/signup.jsx:48-54 | no error exactly when the password has at least 8 characters and a lower-case letter, an upper-case letter and a digit |
| Signup.ConfirmError | resources/js/components/signup.jsx:56-60 | no error exactly when the confirmation is non-empty and equal to the password |
| Signup.AddressError | resources/js/components/signup.jsx:62-64 | no error exactly when the trimmed address is non-empty |
| Signup.ContactError | resources/js/components/signup.jsx:66-70 | no error exactly when the number with its whitespace removed is a Philippine mobile number |
| Signup.ErrorObject | resources/js/components/signup.jsx:34-72 | an entry exactly for each failing field, holding that field's message |
| Signup.FieldByFieldIsErrorObject | resources/js/components/signup.jsx:34-72 | recording each field's check in turn builds exactly the error object |
| Signup.NoErrorsIffAcceptable | resources/js/components/signup.jsx:72-73 | no error is recorded exactly when every field rule holds |
| Signup.Page.constructor | resources/js/components/signup.jsx:5-16 | every field empty and no errors |
| Signup.Page.InputChanged | resources/js/components/signup.jsx:18-31 | the named field takes the value; that field's shown error becomes empty; every other field and error is unchanged |
| Signup.Page.ValidateForm | resources/js/components/signup.jsx:33-74 | the errors become exactly the error object of the form, and the answer is true exactly when it is empty |
| Signup.TrimmedEmailStillShaped | resources/js/components/signup.jsx:96 | an e-mail that passed the pattern as typed still matches once trimmed for posting |
| Signup.LeadingSpaceKeepsShape | resources/js/components/signup.jsx:96 | dropping leading whitespace keeps an e-mail match |
| Signup.TrailingSpaceKeepsShape | resources/js/components/signup.jsx:96 | dropping trailing whitespace keeps an e-mail match |
| Signup.PasswordStrength | resources/js/components/signup.jsx:135-148 | at most 5; 0 for an empty password; 5 exactly when all five checks pass |
| Signup.AcceptedPasswordStrength | resources/js/components/signup.jsx:135-157 | a password the form accepts scores at least 4 ("Good"), and "Strong" exactly when it also holds one of the listed symbols |
| UsersAdmin.Index | app/Http/Controllers/Admin/UserController.php:15-33 | exactly the non-administrators that match a present, non-empty search on name, e-mail or contact number (every non-administrator when there is none), never an administrator |
| UsersAdmin.Stats | app/Http/Controllers/Admin/UserController.php:84-89 | the total counts every user but the administrators; the recent users never exceed it |
| UsersAdmin.Destroy | app/Http/Controllers/Admin/UserController.php:52-79 | an unknown id answers 500; an administrator answers 403 and nothing changes; any other user is removed with their reservations and orders, and the answer carries their name |
| UsersAdmin.CascadeRemovesExactlyTheirRows | app/Http/Controllers/Admin/UserController.php:66 | after the cascade exactly the reservations and orders of other users remain |

## Left out

- HTTP plumbing is not modelled: routes, CSRF headers, JSON response shapes, alerts and `Log::` calls. Each refusal is a datatype value, and `HttpStatus` maps it to its status code.
- Pagination in `Admin\UserController::index` is not modelled, and neither is the `orderBy` sort. Listings keep the order of the rows they are given.
- Time zones are not modelled: `toISOString` in UTC, `setHours` in local time, and Carbon's parsing of stored date and time strings. Every date is a day number and every time a parsed `Time`.
- Floating point is not modelled: `parseFloat`, `number_format` and `toFixed`. Money is exact centavos, so the thousands separator that would break `parseFloat` on totals of 1000 pesos and more is not captured.
- SQL `LIKE` wildcards and case-insensitive collation are not modelled. A search term is matched as a plain substring, and status comparisons are exact.
- The order of `Object.entries` over the admin order groups is not modelled. `OrdersView.ApplyFilters` takes the group keys as a list.
- `TransactionView.GroupForDisplay`: its key list is in order of bucket creation, but the page renders `Object.entries`, which lists integer-like keys (the ids of ungrouped orders) first in ascending numeric order and then the string group ids in creation order. The model does not capture the order in which the history shows its groups.
- `OrdersView.MatchesText`: the page searches `Object.values(order)`. The model takes the non-null column texts as a list and does not model how JavaScript renders each value.
- The `Processing` status offered by the admin page is not in the orders table's enum. The model keeps the statuses as strings and does not reject it at the storage level.
- Text helpers cover only ASCII: whitespace for `trim` and `\s`, and case for `toLowerCase` and `ucfirst`. String lengths count characters, not UTF-16 code units.
- `Signup.PasswordError`: the lookahead pattern is modelled as "some lower-case letter, some upper-case letter, some digit". The detail that `.` does not cross a line break is left out; a typed password has no line breaks.
- `Signup.Page.ValidateForm`: its contract ties the errors to `FormErrors`. The statement that the form passes exactly when every field rule holds is the separate lemma `Signup.NoErrorsIffAcceptable`.
- Replacing the errors with the server's 422 answer, and the `fetch` calls in every component, are not modelled.
- `Ordering.Index` builds the groups the list is made of. The extra display fields each row carries (dish name, user name, formatted amounts) are not modelled.
- `Dashboard.DashboardStats`: `total_orders` and `total_reservations` are stated as bounds and as the lemma on the lower-case `cancelled`, not as exact counts. The exact counts are the functions' own bodies.
- `ReservationAdmin.Statistics`: the status counters and `upcoming` are stated as bounds, not as exact counts, for the same reason.
- The delivery-fee filter in `getOrderGroup` passes a closure as a comparison value, so its result depends on library and PHP comparison rules that are not part of this model. `Ordering.GetOrderGroup` models the intended sum of positive surcharges and states bounds on it.
- Database transactions, the race on the unique index, and the parallel `Promise.all` posts are sequential operations on the in-memory store. A rollback leaves the store unchanged.
- A null order status shown as `Pending` in the transaction history cannot occur, because the orders table's `status` is non-null with default `Pending`. The model has no null status.
- The administrator's reservation listing, `Admin\ReservationController::index`, is a filtered, sorted and paginated query with no rule of its own. It is not part of this model.
- `TransactionView.FilterReservations` and `TransactionView.LaterTodayNotShownAsToday` read the entry as the reservation's date and time. The text the controller sends is two full timestamps; the model takes it that the browser's `Date` parser cannot read it, and does not model that parser. `TransactionView.FilterReservationsAsWritten` is the as-written behaviour.
- `ReservationAdmin.Show` assumes the eager load of the reservation's table succeeds. The load selects a `table_number` column that the tables migration does not create, so against that schema the source answers 404 for a reservation whose table exists. The model answers with the row.
- `Dashboard.CancelledOrdersStillCounted` holds only under a case-sensitive (binary) collation. Under a case-insensitive collation, `!= 'cancelled'` would exclude a `Cancelled` order.
- `Transactions.CreatedReservationShownPendingButNotCancellable` holds only under a case-sensitive (binary) collation. Under a case-insensitive collation, `where('status', 'Pending')` would match the stored `pending`.
- Laravel's `TrimStrings` middleware is not modelled. The order endpoints check `required` on the trimmed text (`Ordering.Filled`) but store the text as received, while the middleware would already have trimmed it.
- Authentication is not modelled: the session, login and password reset. A caller is a `User` value, or no value where the endpoint checks the session.

## Findings

| source | as written | input that shows it | evidently intended | confidence | as-written member | corrected member |
|---|---|---|---|---|---|---|
| resources/js/components/transactionModal.jsx:157-161 | the group total adds the 20-peso delivery fee to line totals that already include it | one 50-peso dish, quantity 1, ordered through `storeBulk`: the server returns 70.00, the history shows 90.00 | the sum of the line totals | not executed | TransactionView.BulkGroupFeeCountedTwice | TransactionView.BulkGroupTotalMatchesServer |
| resources/js/components/reserveSeatModal.jsx:19 | hours up to 12 are labelled AM | the 12:00 slot is captioned "12:00 AM" | "12:00 PM" at noon | not executed | ReserveForm.NoonLabelledAM | ReserveForm.IntendedLabelMeridiem |
| app/Http/Controllers/TransactionController.php:54 | a reservation entry's date joins two full timestamps (`Y-m-d H:i:s` twice), which the history page's `new Date` does not read, so the day difference is `NaN` | any reservation with the date filter at `today`: it is hidden even when it falls today | the reservation's date and time as one instant | not executed | TransactionView.TodayHidesEveryReservation | TransactionView.EarlierTodayShownAsToday |
| resources/js/admin/Orders.jsx:48-50 | `created_at` is compared with the midnight that starts the "to" day | to-date 2025-08-20, an order placed 2025-08-20 10:00 is hidden | the "to" day included, as the server's own filter has it | not executed | OrdersView.ToDateHidesThatDay | OrdersView.IntendedDatesMatchServer |
