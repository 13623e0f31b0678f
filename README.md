# EcoSpin Laundry order book, in Dafny

EcoSpin Laundry takes cleaning orders (carpets, duvets, laundry baskets) for manual M-Pesa payment. The Express server in `backend/server.js` keeps the orders in an in-memory `Map` keyed by an `ECOSPIN-NNNN` identifier, plus an `orderCounter` that numbers them. Its handlers do the following:
- create an order;
- confirm its payment;
- look it up;
- list every order newest first with a summary;
- change an order's status;
- delete an order;
- report a health summary;
- export the orders as CSV.

Around that core sit four other pieces: the admin dashboard (`backend/admin/admin.js`), the customer order form (`public/js/script.js`), the phone-number helpers (`public/js/main.js`), and a one-shot copy of the saved data into relational tables (`backend/migrate-to-db.js`).

The model has ten modules:

- `Base`: `Option` and `Result`.
- `Text`: the JavaScript string operations the code relies on:
  - `String(n)` and `padStart`;
  - `join` and `split` on one character;
  - `trim`, and ASCII upper-casing.
- `Orders`: the order record and the decision each handler makes, as pure functions of the order map it sees:
  - the required-field check and the record built by create-order;
  - the identifier and its inverse;
  - confirm-payment, the status update, lookup and delete.
- `Listing`: the newest-first sort, the summary counts and revenue sums, and how they move when one order changes.
- `Csv`: the CSV export, and what a reader recovers from it.
- `Server`: the class `OrderBook` with fields `orders`, `keys` and `orderCounter`.
  - `keys` is the Map's insertion order, because `orders.values()` follows it.
  - Each handler is a method whose `ensures` ties its result and new state to the `Orders` and `Listing` functions.
  - The invariant `Valid` says that `keys` lists exactly the stored ids, once each.
  - A ghost history of the counter values handed out proves that the identifiers of one run are distinct.
- `Admin`:
  - the dashboard's status classes and labels;
  - the tab filters, the 20-row limit of the completed tab and its footer;
  - the row buttons and the M-Pesa code check;
  - the update body;
  - the class `AdminDashboard`, with the fields `orders`, `summary` and `currentTab`.
- `Storefront`: the service catalogue, the dropdown and price field, and the create-order body the form submits.
- `Phone`: phone validation and the normaliser.
- `Migration`:
  - the row mapping;
  - the class `Database`: an `orders` table keyed by `id`, and a `counters` table;
  - the `MigrateData` loop, proved against the pure function `InsertAll`.

Timestamps are natural numbers passed in by the caller (`now`). An e-mail the server would send is returned as a `Notice` value, and it never feeds back into the state. A price is the already-parsed number; `None` means it was absent.

## Model

| member | source | states |
|---|---|---|
| `Text.NatToDecimal` | backend/server.js:389 | `String(n)` is a non-empty digit string with no leading zero except for 0 itself |
| `Text.DecimalRoundTrip` | backend/server.js:389 | reading the decimal form of `n` back gives `n` |
| `Text.LeadingZerosIgnored` | backend/server.js:389 | zeros put in front by padding do not change the value of a digit string |
| `Text.PadStart` | backend/server.js:389 | `padStart(width, fill)` has length max(len, width), ends with the original string and has only fill characters before it |
| `Text.IntToDecimal` | backend/server.js:676 | `String(price)` is all digits exactly when the price is not negative, and its digits read back as the price; a negative price is `-` followed by the digits of its magnitude |
| `Text.SplitJoin` | backend/server.js:671-684 | splitting a join at its separator gives back the parts, when no part holds the separator |
| `Text.SplitAtFirstSeparator` | backend/server.js:670 | splitting text made of a separator-free head, the separator and a tail gives the head followed by the split of the tail |
| `Text.TrimStart` | backend/admin/admin.js:471 | removes exactly the leading JavaScript whitespace |
| `Text.TrimEnd` | backend/admin/admin.js:471 | removes exactly the trailing JavaScript whitespace |
| `Text.Trim` | backend/admin/admin.js:471 | the result is a slice of the input with only whitespace cut from either side, and it neither begins nor ends with whitespace |
| `Text.UpperAscii` | backend/admin/admin.js:472 | same length, each character is the upper-case of the input character at that position, and no lower-case ASCII letter is left |
| `Text.UpperAsciiChar` | backend/admin/admin.js:472 | a lower-case ASCII letter moves 32 code points down to its capital; every other character is kept |
| `Orders.HttpStatus` | backend/server.js:463-475 | every handler error is a 4xx answer, and it is 404 exactly for an unknown order |
| `Orders.CounterOnLoad` | backend/server.js:107-120 | the counter after loading is 1 when the value is missing or zero, and the stored value otherwise |
| `Orders.DecimalLength` | backend/server.js:389 | the decimal form has at most k digits exactly when n < 10^k |
| `Orders.OrderId` | backend/server.js:389 | the id starts with `ECOSPIN-`; it is 12 characters for counters up to 9999 and longer after that |
| `Orders.OrderIdRoundTrip` | backend/server.js:389 | the counter can be read back from the id it produced |
| `Orders.OrderIdInjective` | backend/server.js:389-390 | different counter values give different ids |
| `Orders.NewOrder` | backend/server.js:393-416 | the new record carries the input's fields and the id, status `pending_payment`, method `manual_mpesa`, no code or payment time, empty admin notes, instructions for the price and the id, and no pickup |
| `Orders.MissingRequired` | backend/server.js:380-386 | the falsy-field guard: an empty service, name, phone or address, or a missing or zero price; `Create` and `FormDataPassesRequiredCheck` state its consequences |
| `Orders.Create` | backend/server.js:378-419 | fails with MissingFields exactly when service, price, name, phone or address is falsy; otherwise it is the record under the id rendered from the counter |
| `Orders.Lookup` | backend/server.js:510-522 | returns the stored order when the id is present, and NotFound otherwise |
| `Orders.Confirm` | backend/server.js:456-483 | fails with NotFound for an unknown id and AlreadyPaid for a `paid` order. Otherwise it sets `paid`, `paidAt` and `updatedAt`, replaces the code only when one is given, and keeps every other field |
| `Orders.ChangeStatus` | backend/server.js:547-579 | fails with NotFound for an unknown id and InvalidStatus outside the seven statuses. Otherwise it sets the status and `updatedAt`, overwrites the notes only with non-empty notes, sets `paidAt` only on entering `paid`, and keeps every other field |
| `Orders.NotifiesOnUpdate` | backend/server.js:587-591 | the status e-mail is sent exactly when the admin asked for it and the status changed; `UpdateStatus` returns the notice on that condition |
| `Orders.Remove` | backend/server.js:609-631 | drops exactly the given id and keeps the other orders; fails with NotFound for an absent id |
| `Orders.ConfirmTwiceRejected` | backend/server.js:470-475 | confirming an order that was just confirmed fails with AlreadyPaid |
| `Orders.ConfirmAcceptsEveryOtherStatus` | backend/server.js:470-481 | every allowed status except `paid`, `delivered` included, can be confirmed |
| `Orders.ChangeToPaidBlocksConfirm` | backend/server.js:569-576 | after a status update to `paid`, a confirmation fails with AlreadyPaid |
| `Orders.RepeatedPaidKeepsPaidAt` | backend/server.js:574-576 | setting `paid` on a `paid` order keeps its payment time |
| `Orders.DeleteThenLookup` | backend/server.js:613-615 | after a delete, looking the id up fails with NotFound |
| `Orders.CreateThenLookup` | backend/server.js:419 | after a create, looking up the new id returns the new record |
| `Listing.InsertNewestFirst` | backend/server.js:527 | one insertion step of the sort: one longer, and the same orders plus the inserted one |
| `Listing.InsertKeepsNewestFirst` | backend/server.js:527 | inserting into a newest-first list keeps it newest first |
| `Listing.SortNewestFirst` | backend/server.js:526-527 | the sorted list has the same length and the same orders |
| `Listing.SortIsNewestFirst` | backend/server.js:526-527 | the sorted list is ordered by `createdAt`, newest first, and is a permutation of its input |
| `Listing.CountWhere` | backend/server.js:531-534 | a filter count never exceeds the number of orders |
| `Listing.SumPricesWhere` | backend/server.js:535-536 | the price sum over the orders whose status is in a group; `SumUnion`, `ReplaceOne` and `ConfirmMovesRevenue` state how it behaves |
| `Listing.CountAllSelected` | backend/server.js:531-534 | a group that holds every order's status counts all the orders |
| `Listing.Counts` | backend/server.js:530-534 | the total and the four group counts shared by the list and health summaries; `CountsWithinTotal` bounds them |
| `Listing.Summarize` | backend/server.js:529-537 | the list summary: the counts and the two revenue sums; `SummaryIgnoresOrder` and `RevenueOfPaidAndDelivered` state its properties |
| `Listing.AllStatusesAreAllowed` | backend/server.js:559 | the seven counted statuses are exactly the allow-list |
| `Listing.CountUnion` | backend/server.js:531-534 | the count for two disjoint status groups is the sum of their counts |
| `Listing.SumUnion` | backend/server.js:535 | the same holds for price sums |
| `Listing.RevenueOfPaidAndDelivered` | backend/server.js:535 | totalRevenue is the price sum of the `paid` orders plus that of the `delivered` orders |
| `Listing.CountsWithinTotal` | backend/server.js:530-534 | pending + paid + in_progress + completed + ready_for_delivery counts the orders with an allowed status, so the four groups never exceed the total |
| `Listing.CountOfInsert` | backend/server.js:527 | an insertion step adds exactly the inserted order's share to every count and sum |
| `Listing.CountOfSorted` | backend/server.js:526-527 | sorting changes no count and no price sum |
| `Listing.SummaryIgnoresOrder` | backend/server.js:526-537 | the summary of the sorted list equals the summary of the unsorted orders, and its counts equal the health summary |
| `Listing.ReplaceOne` | backend/server.js:483 | replacing one order changes a count or a sum by the difference between the old and the new order alone |
| `Listing.ConfirmMovesRevenue` | backend/server.js:478-483 | confirming a pending order moves it from pending to paid, and moves its price from pendingRevenue to totalRevenue |
| `Listing.ConfirmDeliveredKeepsRevenue` | backend/server.js:470-483 | confirming a delivered order lowers the completed count and leaves totalRevenue unchanged |
| `Csv.Quote` | backend/server.js:673-680 | a text cell is the value with one double quote before and one after |
| `Csv.UnquoteQuote` | backend/server.js:673 | removing the quotes the export adds gives back the text |
| `Csv.Rows` | backend/server.js:671-684 | one row per order, in the order given |
| `Csv.Fields` | backend/server.js:671-683 | the cells of one order, as many as the header has columns; `RowReadsBack` recovers the order's values from them |
| `Csv.Row` | backend/server.js:671-684 | one order's cells joined by commas; `RowSplitsIntoFields` splits it back |
| `Csv.Document` | backend/server.js:670-688 | the header line, a line break, and the rows joined by line breaks; `DocumentLines` splits it back |
| `Csv.JoinAvoids` | backend/server.js:684 | a character that is in no part and is not the separator is not in the join |
| `Csv.FieldsArePlain` | backend/server.js:671-683 | the cells of an order with plain text and plain timestamps hold no comma and no line break |
| `Csv.RowReadsBack` | backend/server.js:671-684 | splitting an exportable order's row at its commas yields the id, name, phone, service, price, status, address, notes, admin notes and the three timestamps |
| `Csv.RowSplitsIntoFields` | backend/server.js:671-684 | a row of an exportable order splits on commas into exactly its cells |
| `Csv.RowsHaveNoLineBreak` | backend/server.js:684 | no row of exportable orders holds a line break |
| `Csv.HeaderHasNoLineBreak` | backend/server.js:670 | the header line holds no line break before its final one |
| `Csv.DocumentLines` | backend/server.js:670-688 | the export splits into the header line followed by one row per order, and with no orders into the header line and one empty line |
| `Server.Values` | backend/server.js:526 | `Array.from(orders.values())` lists the stored orders in key order |
| `Server.RemoveKey` | backend/server.js:615 | after `delete`, the key order holds every other key and keeps keys distinct; deleting an absent key changes nothing |
| `Server.RemoveKeyAt` | backend/server.js:615 | deleting the key at position p leaves the keys before it and after it in their order, as `Map.prototype.delete` does |
| `Server.EntriesMap` | backend/server.js:88-95 | the map `loadOrders` builds holds a key exactly when some saved entry has it; `SnapshotRoundTrip` states that it restores a saved map |
| `Server.EntryKeys` | backend/server.js:88-95 | replaying the saved entries produces distinct keys, exactly those of the rebuilt map |
| `Server.SnapshotEntries` | backend/server.js:125 | `Object.fromEntries(orders)` lists each key with its order, in key order |
| `Server.SnapshotReloadsPrefix` | backend/server.js:88-95 | replaying the entries of distinct keys rebuilds the map on those keys, in the same order |
| `Server.SnapshotRoundTrip` | backend/server.js:122-139 | saving and loading again restores the same map, the same key order and the same counter |
| `Server.OrderBook.Load` | backend/server.js:82-120 | startup replays the saved entries and applies the counter default; the state is valid |
| `Server.OrderBook.CreateOrder` | backend/server.js:376-453 | the result is `Create` with the old counter. On failure nothing changes. On success the counter goes up by one, the record is stored under its id (replacing any record already there), and the admin notice is returned |
| `Server.OrderBook.Store` | backend/server.js:389-419 | the counter goes up by one and the old value is recorded as issued; the order is stored under its id; a new id is appended to the insertion order, a taken one keeps its place; the book stays well formed |
| `Server.OrderBook.ConfirmPayment` | backend/server.js:456-506 | the result is `Confirm`; only a success stores the new record and returns the confirmation notice |
| `Server.OrderBook.GetOrder` | backend/server.js:510-522 | the result is `Lookup` on the current map |
| `Server.OrderBook.ListOrders` | backend/server.js:525-544 | returns the stored orders sorted newest first, with the summary of the list and of the unsorted orders (the two are equal) |
| `Server.OrderBook.UpdateStatus` | backend/server.js:547-606 | the result is `ChangeStatus`; only a success stores the record; a notice goes out exactly when notify is set and the status changed |
| `Server.OrderBook.DeleteOrder` | backend/server.js:609-640 | fails with NotFound exactly when the id is absent; otherwise removes it from both the map and the key order |
| `Server.OrderBook.Health` | backend/server.js:643-651 | the health counts are those of the stored orders, and the total is the number of stored orders |
| `Server.OrderBook.ExportCsv` | backend/server.js:666-689 | the document is the export of the stored orders sorted newest first |
| `Server.OrderBook.Snapshot` | backend/server.js:692-703 | the backup holds the counter and entries that rebuild the same state |
| `Server.OrderBook.KeysCoverOrders` | backend/server.js:646 | the key order has one entry per stored order |
| `Server.DistinctCardinality` | backend/server.js:646 | a list of distinct keys that covers a map has as many entries as the map |
| `Server.IssuedIdsDistinct` | backend/server.js:389-390 | the ids handed out in one run are pairwise different |
| `Server.CreateOverwritesTakenId` | backend/server.js:419 | when the new id is already taken, create replaces that order and the number of orders stays the same |
| `Admin.StatusClass` | backend/admin/admin.js:303-314 | each of the seven statuses gets its own class, and any other string gets `default` |
| `Admin.Spaced` | backend/admin/admin.js:318 | every `_` becomes a space and nothing else changes |
| `Admin.CapitalizeWords` | backend/admin/admin.js:318 | the upper-casing pass keeps the length; `FormatStatus` states which characters it changes |
| `Admin.FormatStatus` | backend/admin/admin.js:317-319 | the label has the same length and no `_`; every underscore is a space; each word start is the upper-case of the status character there; every other character is the status character |
| `Admin.UpperKeepsWordChars` | backend/admin/admin.js:318 | upper-casing keeps a character a word character, and applying it twice is the same as once |
| `Admin.FormatStatusIdempotent` | backend/admin/admin.js:317-319 | formatting a label again changes nothing |
| `Admin.ReadyForDeliveryLabel` | backend/admin/admin.js:317-319 | `ready_for_delivery` is shown as `Ready For Delivery` |
| `Admin.TabStatuses` | backend/admin/admin.js:150-171 | `pending` selects pending payment, `paid` paid, `in_progress` the four working statuses including ready for delivery, `completed` delivered; any other tab shows everything |
| `Admin.Filter` | backend/admin/admin.js:152-168 | the filtered list keeps exactly the orders whose status is in the group, and its length is the count; `FilterAppend` and `FilterOne` fix the order of what is kept |
| `Admin.FilterAppend` | backend/admin/admin.js:152-168 | filtering a concatenation is the concatenation of the filtered parts, so the kept orders keep their input order |
| `Admin.FilterOne` | backend/admin/admin.js:152-168 | one order is kept exactly when its status is selected |
| `Admin.FilterKeepsNewestFirst` | backend/admin/admin.js:152-168 | a newest-first list stays newest first after filtering |
| `Admin.TabOrders` | backend/admin/admin.js:150-171 | a named tab lists exactly the orders whose status is in its group, as many as the group count; any other tab lists every order |
| `Admin.TabsPartitionStatuses` | backend/admin/admin.js:80-90 | each of the seven statuses belongs to exactly one tab, and no other string to any |
| `Admin.TabCountsSum` | backend/admin/admin.js:79-90 | the four tab counts add up to the number of orders with an allowed status |
| `Admin.TabCountsCoverAll` | backend/admin/admin.js:79-90 | when every status is one of the seven, the four tab counts add up to the number of orders |
| `Admin.TabCountsAgainstSummary` | backend/admin/admin.js:86-87 | the in-progress tab counts the server's in_progress group plus the `ready_for_delivery` orders; the other tab counts equal the summary's |
| `Admin.RenderTab` | backend/admin/admin.js:150-228 | an empty tab shows its empty state (unknown tabs use the pending one). Otherwise the rows are a prefix of the tab's orders; only the completed tab is cut to 20; the footer shows exactly when rows were cut |
| `Admin.AdminDashboard.View` | backend/admin/admin.js:150-171 | what `renderOrdersByTab` shows for the loaded orders and the current tab; `LoadOrderData` and `SwitchTab` state how it changes |
| `Admin.CompletedTabShowsNewest` | backend/admin/admin.js:150-228 | on the server's newest-first list, a tab's rows are newest first and no order cut from the completed tab is newer than a row shown |
| `Admin.ActionButtons` | backend/admin/admin.js:271-300 | Manage comes first on every row; Confirm and Delete appear exactly on `pending_payment` orders |
| `Admin.ConfirmCode` | backend/admin/admin.js:469-483 | the trimmed, upper-cased code is accepted exactly when it has at least 8 characters |
| `Admin.AcceptedCodeIsStored` | backend/admin/admin.js:469-495 | a code the dashboard accepts is stored by the server's confirmation of an unpaid order |
| `Admin.ConfirmButtonOnlyWhereAccepted` | backend/admin/admin.js:285-291 | the Confirm button appears only on orders the server will confirm |
| `Admin.UpdateBody` | backend/admin/admin.js:405-413 | the body always carries status, notes and notify; each date is present exactly when its input is non-empty |
| `Admin.UpdateBodyDatesIgnored` | backend/admin/admin.js:405-416 | the server accepts such a body for an allowed status, never changes the dates, and keeps the notes when they are sent empty |
| `Admin.AdminDashboard.constructor` | backend/admin/admin.js:11-17 | no orders, no summary, and the pending tab |
| `Admin.AdminDashboard.LoadOrderData` | backend/admin/admin.js:27-65 | a successful response replaces the orders and summary, the view becomes that list's current tab, and the alert is raised exactly when orders are pending; a failure changes nothing and shows the error |
| `Admin.AdminDashboard.SwitchTab` | backend/admin/admin.js:68-76 | only the current tab changes, and the view is the new tab of the same orders |
| `Admin.AdminDashboard.TabCounts` | backend/admin/admin.js:79-90 | the four filter counts, which add up to the number of orders with an allowed status |
| `Storefront.Catalogue` | public/js/script.js:40-58 | exactly the four service types have options, at least one each |
| `Storefront.CataloguePricesPositive` | public/js/script.js:40-58 | every catalogue price is positive |
| `Storefront.ServiceTypeName` | public/js/script.js:193-201 | the four display names, and any other type unchanged |
| `Storefront.ParseIndex` | public/js/script.js:108 | a dropdown value is read as an index exactly when it is a non-empty digit string |
| `Storefront.UpdatePrice` | public/js/script.js:103-117 | an empty choice or unknown type empties the price; an existing option sets its price; an index past the end keeps the price |
| `Storefront.PickPrice` | public/js/script.js:107-112 | the price of the indexed option, or the field unchanged |
| `Storefront.OptionEntries` | public/js/script.js:87-92 | one entry per option, valued by its index and labelled with name and price |
| `Storefront.UpdateServiceOptions` | public/js/script.js:76-99 | the placeholder first and the price emptied. A known type lists its options and enables the dropdown; any other type disables it |
| `Storefront.OptionLabel` | public/js/script.js:90 | the text of an option: its name, ` - KSH ` and its price in decimal; `UpdateServiceOptions` gives each entry this text |
| `Storefront.ChosenEntrySetsPrice` | public/js/script.js:82-117 | choosing any listed option sets that option's price, and choosing the placeholder empties it |
| `Storefront.EntryPicksOption` | public/js/script.js:90-110 | the value written for option k selects option k again |
| `Storefront.FormData` | public/js/script.js:138-152 | the body exists exactly when the type and index name an option; it carries the type's display name with the option name, and the option's price |
| `Storefront.FormDataPassesRequiredCheck` | public/js/script.js:145-152 | such a body with name, phone and address filled passes the server's required-field check |
| `Storefront.FirstDuvetOption` | public/js/script.js:145-147 | duvet option 0 is sent as `Duvet Cleaning - Size 3 by 4` at 249 |
| `Phone.StripNonDigits` | public/js/main.js:97 | only digits remain, every digit of the input appears, and a digit string is unchanged |
| `Phone.StripOne` | public/js/main.js:97 | one character is kept exactly when it is a digit |
| `Phone.StripAppend` | public/js/main.js:97 | the digits of a concatenation are the digits of each part in turn, so the digits keep their order |
| `Phone.ValidPhone` | public/js/main.js:87-89 | twelve ASCII digits starting with 254; `NormalizedValid` states which inputs normalise to such a number |
| `Phone.Normalize` | public/js/main.js:96-106 | all digits. A leading 0 becomes 254 and nine digits starting with 7 get 254 in front; otherwise the stripped digits are kept |
| `Phone.NormalizeIdempotent` | public/js/main.js:96-106 | normalising twice is the same as once |
| `Phone.NormalizedValid` | public/js/main.js:87-106 | the normalised number passes validation exactly when the digits are 0 plus nine digits, 7 plus eight digits, or 254 plus nine digits |
| `Phone.LocalNumbersBecomeValid` | public/js/main.js:87-104 | 0 followed by nine digits and 7 followed by eight digits normalise to valid numbers |
| `Migration.TextOr` | backend/migrate-to-db.js:77-81 | an absent or empty text gives the fallback, and other text is kept |
| `Migration.ToRow` | backend/migrate-to-db.js:71-87 | the row copies the order. Notes and admin notes default to `''` and the method to `manual_mpesa`; an empty code is null; `updated_at` falls back to `created_at`; pickup defaults to false; absent dates are null |
| `Migration.Saved` | backend/server.js:122-130 | the stored record `saveOrders` writes for an order, every field present; `RowOfSavedOrder` states what the migration makes of it |
| `Migration.RowOfSavedOrder` | backend/migrate-to-db.js:71-87 | a row migrated from an order the server saved carries that order's values |
| `Migration.CreatedOrderMigrates` | backend/migrate-to-db.js:71-87 | a freshly created order migrates with method `manual_mpesa`, no code, its notes and `updated_at` equal to its creation time |
| `Migration.InsertAll` | backend/migrate-to-db.js:61-93 | the count never exceeds the number of rows; the table grows by exactly the count and keeps its old rows in front |
| `Migration.HasId` | backend/migrate-to-db.js:64-88 | some row of the table already carries the id, which makes the insert throw |
| `Migration.Insertable` | backend/migrate-to-db.js:64-88 | an insert succeeds when the schema accepts the row and its id is free |
| `Migration.InsertAllStep` | backend/migrate-to-db.js:61-93 | one more loop iteration extends the table and count by that row's insert |
| `Migration.CleanMigrationCopiesAll` | backend/migrate-to-db.js:61-93 | into an empty table, accepted rows with distinct ids all go in, in order |
| `Migration.InsertAllKeepsIdsDistinct` | backend/migrate-to-db.js:61-93 | the loop never puts two rows with the same id in the table |
| `Migration.RowsOf` | backend/migrate-to-db.js:62-88 | one row per saved entry, in order |
| `Migration.Database.CountOrders` | backend/migrate-to-db.js:44-45 | the number of order rows |
| `Migration.Database.UpsertCounter` | backend/migrate-to-db.js:54-57 | the counter row holds the new value whatever was there before |
| `Migration.Database.InsertOrder` | backend/migrate-to-db.js:64-88 | the insert succeeds exactly when the schema accepts the row and its id is free; only a success adds the row |
| `Migration.MigrateData` | backend/migrate-to-db.js:13-95 | a populated table is left untouched, counters included. Otherwise the counter is upserted with its default and the rows are inserted by `InsertAll`, with the reported count |
| `Migration.MigratedCountBounded` | backend/migrate-to-db.js:61-95 | the reported count is the number of rows added, and at most the number of saved orders |

## Left out

- E-mail: the nodemailer transport, `sendEmail` and the templates are not modelled. The handlers return the notice they would send as a value, because sending is a network call whose failure never affects the order state.
- File and JSON I/O: reading, parsing and writing the files is not modelled; `OrderBook.Load` takes the parsed entries and the parsed counter. A missing or unreadable file is an empty entry list, or a `None` counter.
- Date values: conversion between `Date` objects and ISO strings is a parameter (`iso`, `toIso`) or a natural-number timestamp. `new Date()` is called twice per handler; both calls are modelled as one `now`.
- Timers, shutdown, routing: the auto-save timer, the SIGINT handler, Express routing, CORS, static files and the error middleware are not modelled; they are plumbing around the handlers.
- Price input: `parseInt(price)` and the truthiness of a price sent as a string are not modelled; the price arrives parsed.
- Counter file values: a counter file with a negative or non-integer value is not modelled (`CounterOnLoad` takes a natural number).
- Listing.SortNewestFirst: stability is not stated. The function is an insertion sort that keeps equal timestamps in their input order, as the engine's stable sort does, but only the ordering and the permutation are proved.
- Object keys: a status such as `constructor`, which hits an inherited object property in `getStatusClass`, is not modelled.
- Text.UpperAscii: only ASCII letters are upper-cased; `toUpperCase` on other scripts is not modelled in the M-Pesa code check. `formatStatus` only ever upper-cases characters `\w` matches, which are ASCII.
- Admin.ConfirmCode: the length check counts Unicode scalar values, while `code.length` counts UTF-16 code units. A code with characters outside the Basic Multilingual Plane (an emoji, say) counts as shorter here than in the browser, so a few such codes that the dashboard sends are refused by the model. Dafny strings are sequences of scalar values, and M-Pesa codes are ASCII.
- Storefront.ParseIndex: only digit strings are read; `parseInt` of text with leading digits and trailing junk is not modelled. The dropdown only ever holds `""` or the index it was given.
- Browser UI: the DOM, modals, notifications, `fetch`, the auto-refresh timer and the `IntersectionObserver` are not modelled. `AdminDashboard.LoadOrderData` takes the response already parsed, and the view is the `Panel` value of `RenderTab`.
- Database: connection failures, SQL, the backups and the verification count are not modelled. A failed insert is any row the abstract `accepts` predicate refuses, or a taken id.
- `backend/server1.js` is not part of this model: it only wires route modules that are not shown here.
- `backend/middleware/basicAuth.js` is not part of this model: it is a base64 and environment-variable check around requests.
- The STK-push call in `public/js/main.js` is not part of this model: its server handler is not among the files modelled.
- Request bodies: the model does not cover a non-string `adminNotes` or `mpesaCode` value; both are modelled as strings, with `""` for absent.
