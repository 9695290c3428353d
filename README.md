# DryGood Rentals: rental billing and lifecycle, in Dafny

DryGood Rentals is a clothing-rental shop. Its admin pages keep rental
records, and each record moves from `Active` to `returned`. The pages also
manage the attire inventory. A customer catalogue and a home-page carousel
show the inventory to shoppers. This project models the logic behind those
pages and proves what it promises.

**Billing** (`Billing`, `MarkReturn`, `RentalForm`)
- The base package covers three days.
- Each further agreed day costs 200.
- Each day past the expected return date costs 250.
- An open record's total is computed live from "today".
- A returned record's total is frozen when the record is returned, and its overdue fee is read back out of that frozen total.
- Returning a record takes two writes to the record store, in order. The second write is issued only when the first succeeds.

**Projections over the record list** (`RecordList`, `Analysis`)
- The filtered list for a tab and a selection.
- The due-date buckets.
- The summary counters and the revenue.
- The year options.
- The twelve monthly chart buckets.

**Projections over the inventory** (`StockReport`, `InventoryView`, `Catalogue`, `Carousel`)
- The stock report per category, with size tallies and stock alerts.
- The admin inventory table.
- The customer catalogue with its price ranges.
- The carousel's page arithmetic.

**The two entry forms** (`RentalForm`, `AddItem`)
- Validation of the rental form, with its date-order guard.
- The add-item dialog's required-field check and the payload it sends.

## How things are represented

**Dates**
- A date is a calendar triple `Calendar.Date`.
- All day arithmetic goes through `Calendar.DayNumber`, the number of days since 1970-01-01.
- The code normalises every timestamp to midnight before dividing by the length of a day. A difference of day numbers is exactly that quotient, so `Math.ceil` and `Math.floor` of it are the difference itself.
- "Today" is a day number passed in as a parameter.

**Money**
- Money is an `int`.
- A missing or falsy price or total is 0.

**Text and statuses**
- Statuses are raw strings. They are compared after ASCII lower-casing, through `Billing.StatusOf`.
- A missing text field is `""`.
- A missing date or id is `None`.

**Shared pieces** (`Common`)
- `Filter` is the order-preserving `Array.prototype.filter`. Its lemmas (`FilterIsSubseq`, `FilterMultiplicity`, `FilterCompose`, …) serve every list projection.
- `Distinct` is `[...new Set(xs)]`: first appearances, in order.
- `SortDesc` sorts descending.

**Imperative parts**
- Code that changes state step by step is a class or a loop method, each proved against a specification function:
  - `MarkReturn.ReturnButton` with its `RecordStore`;
  - `RentalForm.RentalFormState`;
  - `RentalForm.ValidateFields`;
  - `StockReport.TallySizes` and `StockReport.SummarizeAlerts`;
  - `Analysis.MonthlyRentals` and `Analysis.MonthlyRevenue`, which use a 12-slot array;
  - `Carousel.AttireCarousel`;
  - `AddItem.BuildPayload` and `AddItem.AddItemDialog`.
- The record store and the upload endpoint are inputs: each request's reply is passed in.

**Where the code departs from what its surroundings suggest**
- A returned record's overdue charge is read back as `total - (price + extra)`, without clamping at 0 (`src/admin/adPages/adRecord.jsx:129`). A stored total below price + extra therefore yields a negative charge, while the days are clamped at 0. See `Billing.OverdueFees` and `Billing.FrozenChargeNotClamped`.
- On the "Active" tab, a record with no expected return date passes every due-date bucket (`src/admin/adPages/adRecord.jsx:393-417`). It is not excluded. See `RecordList.DueBucketPassThrough`.

## Model

| member | source | states |
|---|---|---|
| `Calendar.NextDateIsNextDay` | src/admin/adPages/adRecord.jsx:101-104 | consecutive calendar days, across month ends, year ends and leap days, have day numbers one apart, so day-number differences count days |
| `Calendar.AddDaysCountsDays` | src/admin/adComponents/addRecord.jsx:53-56 | the date n days later has a day number exactly n higher |
| `Billing.StatusOf` | src/admin/adPages/adRecord.jsx:84 | a status is the returned state exactly when it lower-cases to "returned", and active exactly when it lower-cases to "active" |
| `Billing.ExtraDays` | src/admin/adPages/adRecord.jsx:92-119 | all zeros without both dates; otherwise the billed days are the span, or 1 for a span of at most one day, the extra days are those beyond the first three (never negative), and the extra charge is 200 per extra day |
| `Billing.ExtraFreeWithinBase` | src/admin/adPages/adRecord.jsx:105-112 | a rental of at most three days costs nothing extra |
| `Billing.ExtraBeyondBase` | src/admin/adPages/adRecord.jsx:105-112 | a rental of 3 + k days is billed as 3 + k days, k of them extra, at 200k |
| `Billing.ExtraMonotoneInSpan` | src/admin/adPages/adRecord.jsx:105-112 | a longer agreed span never costs less extra |
| `Billing.ReturnedNeverOverdue` | src/admin/adPages/adRecord.jsx:83-84 | a returned record is never overdue, on any day |
| `Billing.OverdueFromDayAfterDue` | src/admin/adPages/adRecord.jsx:85-89 | an open record with an expected date is not overdue on its due date and is overdue on every later day |
| `Billing.OverdueIffCharged` | src/admin/adPages/adRecord.jsx:83-147 | for an open record, the overdue flag is up exactly when at least one overdue day, or at least 250, is being charged |
| `Billing.OverdueFees` | src/admin/adPages/adRecord.jsx:121-148 | the overdue days are never negative; an open record without an expected date, or on or before its due date, owes nothing; later, its overdue days are exactly the days since the due date, charged at 250 each; a returned record with a zero stored total owes nothing, and otherwise its charge is the stored total minus price and extra charge, unclamped, and its days are that charge divided by 250 and rounded up, at least 0 |
| `Billing.FrozenChargeNotClamped` | src/admin/adPages/adRecord.jsx:122-132 | a returned record whose non-zero stored total is below price plus extra charge reads back as 0 overdue days and a negative charge |
| `Billing.LiveFeesCountDaysPastDue` | src/admin/adPages/adRecord.jsx:135-147 | an open record k days past its due date is charged (k, 250k), and (0, 0) on any day up to its due date |
| `Billing.LiveFeesMonotone` | src/admin/adPages/adRecord.jsx:141-145 | an open record's overdue days and charge are non-negative and never decrease as today advances |
| `Billing.FrozenFeeRoundTrip` | src/admin/adPages/adRecord.jsx:121-133 | a returned record whose stored total is price + extra charge + 250k reads back as k overdue days and a charge of 250k |
| `Billing.FrozenTotalIgnoresToday` | src/admin/adPages/adRecord.jsx:153-154 | a returned record's total is its stored total on every day |
| `Billing.LiveTotalMonotone` | src/admin/adPages/adRecord.jsx:155-160 | an open record's total is at least its price and never decreases as today advances |
| `Billing.DisplayMatchesFrozenTotal` | src/admin/adPages/adRecord.jsx:163-168 | for a returned record with a non-zero stored total, the recomputed display amount equals that total |
| `Billing.DisplayMatchesLiveTotal` | src/admin/adPages/adRecord.jsx:163-168 | for an open record, the display amount equals the list total |
| `RecordList.FilteredRecordsSelects` | src/admin/adPages/adRecord.jsx:369-426 | the visible list is an order-preserving subsequence; a record is in it exactly when it passes status, search, year, month and due-date filters; multiplicities are kept |
| `RecordList.DueBuckets` | src/admin/adPages/adRecord.jsx:391-417 | on the Active tab, "1-day-before", "due-today" and "overdue" hold exactly when the due date is tomorrow, today or past |
| `RecordList.DueBucketPassThrough` | src/admin/adPages/adRecord.jsx:392-397 | the bucket never excludes a record without an expected date, and is ignored outside the Active tab |
| `RecordList.PastDueBucketIsOverdue` | src/admin/adPages/adRecord.jsx:410-411 | an open record in the overdue bucket is flagged overdue |
| `RecordList.NoFiltersShowsWholeTab` | src/admin/adPages/adRecord.jsx:374-389 | with no search text and no year, month or bucket, the visible list is exactly the tab's records |
| `RecordList.MoreFiltersNarrow` | src/admin/adPages/adRecord.jsx:419-425 | setting more filters only removes records and keeps order |
| `RecordList.CountersOrdered` | src/admin/adPages/adRecord.jsx:170-177 | overdue count ≤ active count ≤ total records |
| `RecordList.RevenueMonotone` | src/admin/adPages/adRecord.jsx:179-182 | the revenue sum never falls as today advances |
| `RecordList.AvailableYearMember` | src/admin/adPages/adRecord.jsx:437-444 | a year is offered exactly when some record was rented in it (year 0 excepted) |
| `RecordList.AvailableYearsSpec` | src/admin/adPages/adRecord.jsx:437-446 | the options start with "All", list each rental year once, and run strictly from newest to oldest |
| `MarkReturn.FinalAmountWithoutDates` | src/admin/adComponents/markReturn.jsx:13-15 | without both dates the final amount is the price alone |
| `MarkReturn.FinalAmountIsLiveTotal` | src/admin/adComponents/markReturn.jsx:17-37 | the amount frozen on return equals the record page's live total for the same open record and day |
| `MarkReturn.FinalAmountDropsFeeWithoutRentalDate` | src/admin/adComponents/markReturn.jsx:13-15 | the one disagreement: an open record with an expected date but no rental date is frozen without the overdue charge the record page shows |
| `MarkReturn.FinalAmountMonotone` | src/admin/adComponents/markReturn.jsx:31-37 | the final amount is at least the price and never decreases with the return day |
| `MarkReturn.ReturnFreezesBill` | src/admin/adComponents/markReturn.jsx:44-74 | after both writes, the record is returned, shows the return-day amount on every later day, and reads back the same overdue days and charge |
| `MarkReturn.PartialReturnIsHarmless` | src/admin/adComponents/markReturn.jsx:59-89 | if only the amount write lands, the record stays open and its live total ignores the written amount |
| `MarkReturn.StoredRecordAfterReturn` | src/admin/adComponents/markReturn.jsx:64-74 | after both writes the stored record is the returned record carrying the final amount |
| `MarkReturn.RecordStore.constructor` | src/admin/adComponents/markReturn.jsx:46-47 | a store starts with its records and an empty request log |
| `MarkReturn.RecordStore.PutTotal` | src/admin/adComponents/markReturn.jsx:46-62 | the amount request is logged; the stored total changes only when the reply succeeds |
| `MarkReturn.RecordStore.PutStatus` | src/admin/adComponents/markReturn.jsx:64-78 | the status request carries the attire id and is logged; the stored status changes only when the reply succeeds |
| `MarkReturn.ReturnButton.constructor` | src/admin/adComponents/markReturn.jsx:3-6 | the dialog starts closed, with no message |
| `MarkReturn.ReturnButton.ReturnClick` | src/admin/adComponents/markReturn.jsx:8-10 | the button only opens the confirmation dialog |
| `MarkReturn.ReturnButton.Cancel` | src/admin/adComponents/markReturn.jsx:96-98 | cancelling closes the dialog and sends nothing |
| `MarkReturn.ReturnButton.Confirm` | src/admin/adComponents/markReturn.jsx:40-94 | confirming the open dialog closes it; the amount write is sent first; the status write ("returned" with the attire id) only if it succeeded; the store's records, the message, and the success report, which requires both writes to succeed |
| `RentalForm.ExtraDaysBetween` | src/admin/adComponents/addRecord.jsx:88-100 | the form's extra days are never negative and cost 200 each |
| `RentalForm.ProvisionalTotalIncomplete` | src/admin/adComponents/addRecord.jsx:75-76 | the provisional total is 0 until both dates and a price are set |
| `RentalForm.ProvisionalTotalMatchesRecordPage` | src/admin/adComponents/addRecord.jsx:78-85 | with both dates and a price, the provisional total is the price plus the record page's extra-day charge for the record |
| `RentalForm.FormExtraMatchesRecordPage` | src/admin/adComponents/addRecord.jsx:88-100 | the form's extra-day breakdown equals the record page's |
| `RentalForm.ReplaceFirst` | src/admin/adComponents/addRecord.jsx:155 | the first occurrence of the pattern character, and only it, is replaced; every other character is kept, and text without the character is unchanged |
| `RentalForm.FirstMissing` | src/admin/adComponents/addRecord.jsx:153-158 | the position of the first empty required field: every earlier field is filled and that one is not |
| `RentalForm.EmailCheckMatchesPattern` | src/admin/adComponents/addRecord.jsx:165 | splitting at the first '@' accepts exactly the strings of the pattern: a clean local part, '@', clean text with an interior dot |
| `RentalForm.ValidateFields` | src/admin/adComponents/addRecord.jsx:143-176 | succeeds exactly when all required fields are filled, the phone is 11 digits, the email has the required shape and an ID image is present; otherwise the message names the first failing check, with required fields checked in order |
| `RentalForm.PhoneInput` | src/admin/adComponents/addRecord.jsx:367-370 | an edit longer than 11 characters is ignored; any other is taken |
| `RentalForm.AvailableItemsSelects` | src/admin/adComponents/addRecord.jsx:40-43 | the picker offers exactly the items whose status is "Available", in order |
| `RentalForm.SuggestionsSelect` | src/admin/adComponents/addRecord.jsx:277-284 | the suggestions are exactly the items whose name contains the query, ignoring case, or whose id text contains it, in order |
| `RentalForm.RentalFormState.constructor` | src/admin/adComponents/addRecord.jsx:52-63 | the form opens with today as rental date and a week later as return date, and satisfies the form invariant |
| `RentalForm.RentalFormState.LoadItems` | src/admin/adComponents/addRecord.jsx:35-50 | the fetched items are narrowed to the available ones |
| `RentalForm.RentalFormState.HandleDateChange` | src/admin/adComponents/addRecord.jsx:102-123 | a return date before the rental date is refused with an error and leaves the form unchanged; otherwise the date is stored and the total recomputed; the return date never precedes the rental date |
| `RentalForm.RentalFormState.SelectAttire` | src/admin/adComponents/addRecord.jsx:289-301 | picking an attire sets its id, name and price and recomputes the total from the form's dates |
| `RentalForm.RentalFormState.ChooseIdImage` | src/admin/adComponents/addRecord.jsx:129-141 | no file changes nothing; a file over 5 MB is refused with its message; otherwise it becomes the ID image and its preview |
| `RentalForm.RentalFormState.PhoneChange` | src/admin/adComponents/addRecord.jsx:367-370 | the stored phone never exceeds 11 characters |
| `RentalForm.RentalFormState.HandleSubmit` | src/admin/adComponents/addRecord.jsx:143-180 | the form is handed on exactly when validation passes; otherwise the error is the first failing check's own message (the first empty required field, then the phone, the email, the ID image) and nothing else changes |
| `Items.DistinctValuesSpec` | src/admin/adComponents/generateReport.jsx:37-39 | the category list holds every non-empty category once and nothing else |
| `StockReport.TallySizes` | src/admin/adComponents/generateReport.jsx:49-58 | the size map filled one item at a time yields each distinct size in order of first appearance with its number of occurrences |
| `StockReport.SizeKey` | src/admin/adComponents/generateReport.jsx:51 | a missing size is tallied as "Unknown" and any other size as itself, so no key is empty |
| `StockReport.CategorySizeEntry` | src/admin/adComponents/generateReport.jsx:43-58 | every size key of a category's available items has a line in the report, whose count is the number of those items filed under it |
| `StockReport.MissingSizeTalliedAsUnknown` | src/admin/adComponents/generateReport.jsx:50-52 | when an available item of the category has no size, the report has an "Unknown" line counting the items without a size or with size "Unknown" |
| `StockReport.SizeTallySpec` | src/admin/adComponents/generateReport.jsx:49-60 | each size appears once, every count is at least 1, exactly the sizes present appear, and the counts add up to the number of items |
| `StockReport.CategoryStockOf` | src/admin/adComponents/generateReport.jsx:42-68 | one category's line, computed with the loop, is the category's report |
| `StockReport.CategoryReportSpec` | src/admin/adComponents/generateReport.jsx:41-60 | a category's total is the number of its items whose status is "available" ignoring case, equals the sum of its size counts, and each size entry is non-empty and comes from such an item |
| `StockReport.BuildReport` | src/admin/adComponents/generateReport.jsx:41-69 | one report line per category, in category order |
| `StockReport.AlertThresholds` | src/admin/adComponents/generateReport.jsx:62-65 | No Stock exactly at 0, Low Stock exactly at 1–3, Overstock exactly above 10, no alert exactly at 4–10 |
| `StockReport.SummarizeAlerts` | src/admin/adComponents/generateReport.jsx:71-85 | the three counters are the numbers of categories with each alert |
| `StockReport.AlertSummaryTotals` | src/admin/adComponents/generateReport.jsx:71-85 | the three counters add up to the number of categories with an alert |
| `StockReport.AlertPartition` | src/admin/adComponents/generateReport.jsx:111-125 | alerted and healthy categories split the report in order, their sizes add up to the report's, and there are alerts exactly when the alerted list is non-empty |
| `InventoryView.FilteredItemsSelects` | src/admin/adComponents/showInventory.jsx:45-62 | the table keeps order and shows exactly the items matching the search on lowered id or name, and each drop-down ("All" or equal) |
| `InventoryView.NoFilterShowsAll` | src/admin/adComponents/showInventory.jsx:45-62 | an empty search with "All" everywhere shows the whole inventory |
| `InventoryView.Options` | src/admin/adComponents/showInventory.jsx:30-43 | each option list starts with "All" |
| `InventoryView.OptionsSpec` | src/admin/adComponents/showInventory.jsx:30-43 | after "All", each list holds every non-empty value once and nothing else |
| `InventoryView.StatusCountersBounded` | src/admin/adComponents/showInventory.jsx:64-69 | Available + Rented + Maintenance counts never exceed the item count |
| `Catalogue.FilteredDataSelects` | src/customer/csPages/csProductPage.jsx:45-67 | the chain of filters is one order-preserving filter: an item is shown exactly when it passes the search and every selector that is set |
| `Catalogue.PriceRangesCover` | src/customer/csPages/csProductPage.jsx:56-65 | every price falls in one of the four ranges, and 1000 falls in both middle ones |
| `Catalogue.SelectorListsSpec` | src/customer/csPages/csProductPage.jsx:69-76 | the size and category lists hold every non-empty value once and nothing else |
| `Analysis.UniqueYearsSpec` | src/admin/adComponents/analysis.jsx:57-70 | the year options are strictly descending and are exactly the rental years of dated records |
| `Analysis.YearFilterSelects` | src/admin/adComponents/analysis.jsx:79-91 | the chosen-year list keeps order and holds exactly the dated records of that year, or all dated records for "all" |
| `Analysis.MonthIndex` | src/admin/adComponents/analysis.jsx:100-103 | a record's bucket is its rental month minus one when that month is 1–12, and none (-1) exactly otherwise |
| `Analysis.MonthCountIsCalendarMonth` | src/admin/adComponents/analysis.jsx:98-105 | slot m of the rental chart counts the records rented in calendar month m + 1, so slot 0 is January |
| `Analysis.MonthlyRentals` | src/admin/adComponents/analysis.jsx:98-105 | twelve counters, each the number of records rented in that month, adding up to the records that have a month |
| `Analysis.MonthlyRevenue` | src/admin/adComponents/analysis.jsx:112-119 | twelve sums, each the stored totals of that month's records, adding up to those records' total |
| `Analysis.MonthCountsAddUp` | src/admin/adComponents/analysis.jsx:99-104 | each record adds to at most one bucket, so the twelve counts add up to the records with a month |
| `Analysis.MonthRevenuesAddUp` | src/admin/adComponents/analysis.jsx:113-118 | the twelve revenue buckets add up to the totals of the records with a month |
| `Analysis.AllBucketed` | src/admin/adComponents/analysis.jsx:93-96 | when every record has a month, bucket counts add up to the record count and bucket revenues to the revenue card |
| `Analysis.ChartsMatchCards` | src/admin/adComponents/analysis.jsx:93-119 | for a chosen year, the rental chart adds up to the number of records and the revenue chart to the revenue card |
| `Carousel.TotalPages` | src/customer/csPages/csHomepage.jsx:76-79 | at least one page; with images, just enough pages of four to hold them all |
| `Carousel.FullItemWidthIs312` | src/customer/csPages/csHomepage.jsx:67-70 | a slot is 312 pixels wide |
| `Carousel.TranslateXBounds` | src/customer/csPages/csHomepage.jsx:81-92 | no shift for four images or fewer; otherwise the shift lies between -(n-4)·312 and 0 |
| `Carousel.TranslateXEnds` | src/customer/csPages/csHomepage.jsx:86-92 | the first page starts at the first image and the last page ends at the last image |
| `Carousel.TranslateXBeforeLast` | src/customer/csPages/csHomepage.jsx:86-88 | a page p before the last is shifted by whole pages, -(4p)·312 = -1248p pixels |
| `Carousel.AttireCarousel.constructor` | src/customer/csPages/csHomepage.jsx:73-74 | the carousel starts on page 0 |
| `Carousel.AttireCarousel.Tick` | src/customer/csPages/csHomepage.jsx:99-107 | a tick, which only happens with more than one page, advances the page modulo the page count, wrapping from the last to the first, and keeps the page in range |
| `Carousel.AttireCarousel.GoToPage` | src/customer/csPages/csHomepage.jsx:95-97 | a page dot moves to its page |
| `Carousel.AttireImagesSelects` | src/customer/csPages/csHomepage.jsx:198-200 | the images come from exactly the items that have one, in inventory order, one per item; an address is shown exactly when it is the upload address of some item's image |
| `Common.TrimEmptyIffBlank` | src/admin/adComponents/addItemButton.jsx:89 | trimming leaves nothing exactly when the text is all white space |
| `AddItem.MissingSpec` | src/admin/adComponents/addItemButton.jsx:74-90 | the check fails exactly when there is no image or one of the nine required texts is blank; the status is never checked |
| `AddItem.EmptyFormIsMissing` | src/admin/adComponents/addItemButton.jsx:87-90 | a fresh or reset form fails the check |
| `AddItem.BuildPayload` | src/admin/adComponents/addItemButton.jsx:112-120 | the loop over the form's keys appends exactly the entries of the payload specification, in key order |
| `AddItem.PayloadSpec` | src/admin/adComponents/addItemButton.jsx:112-120 | the payload always holds the image file; a text field is present, with its own text, exactly when it is non-empty |
| `AddItem.AddItemDialog.constructor` | src/admin/adComponents/addItemButton.jsx:6-24 | the form starts with status "Available", no image, dateAdded today and every text empty |
| `AddItem.AddItemDialog.ResetForm` | src/admin/adComponents/addItemButton.jsx:54-69 | the reset restores the initial form and clears the preview |
| `AddItem.AddItemDialog.HandleSubmit` | src/admin/adComponents/addItemButton.jsx:71-140 | a form with a missing field sends nothing and shows the error; otherwise the payload is sent, and on success the form is reset and closed; on failure the server's message, the fallback message or the network error is shown |

## Left out

- `MarkReturn.WithStatus`: the store records the status write's attire id in the request log, but the stored record keeps its own attire id. What the server does with the sent attire id is not part of this model.

**I/O and state plumbing**
- Network I/O is not modelled. This covers fetching records and inventory, the delete endpoint and JSON parsing. Replies are parameters, and the record store is a map with a request log.
- Fetching the record list and the record page's delete confirmation are not modelled. They only move data between the network and React state.
- Timers are not modelled: notification timeouts, the carousel's `setInterval` and the delayed `onReturnSuccess`. A timer tick is a method call.
- React rendering, CSS class pickers, notifications, receipt HTML and `window.open`/`print` are not modelled.
- `window.location.reload` after adding an item is not modelled.

**Images**
- Reading image files (`FileReader`) is not modelled. `RentalForm.RentalFormState.ChooseIdImage` sets the preview at once, to the file name, where the browser sets a data URL later.
- Cropping (`react-easy-crop` and `getCroppedImg`) is not modelled. The image sent is the chosen file, named by its file name. cropImage.js is not part of this model.

**Dates**
- JavaScript `Date` parsing, time zones and daylight saving are not modelled. Dates are calendar triples, and spans are differences of day numbers.
- `toISOString` default dates and locale formatting are not modelled. The rental form's default dates are today and today + 7 as calendar dates. The add-item form's `dateAdded` is today's date text, passed in.
- A stored date string that does not parse is not represented. Only a record's month field outside 1..12 stands in for it in the monthly buckets.
- `Analysis.UniqueYearsSpec`: an unparsable date would contribute NaN to the years. The model has no NaN.

**Text and numbers**
- A missing item name is read as "". In the catalogue search (`src/customer/csPages/csProductPage.jsx:49`) and the rental form's suggestions (`src/admin/adComponents/addRecord.jsx:280-283`), the code calls `toLowerCase` on the name and would throw on a missing one; that exception is not modelled. The add-item form requires a name, so such items arise only from data entered elsewhere.
- Case folding and white space are ASCII only. `toLowerCase`, `\s` and `trim()` also treat non-ASCII letters and spaces, and the model does not.
- Currency and revenue-tick formatting (`toFixed`, `toLocaleString`) are not modelled.
- Prices and totals are integers. Type coercion is not modelled, e.g. string totals concatenated by `+=`, or `parseFloat` of a price.
- `StockReport.TallySizes`: the sizes are listed in first-appearance order. JavaScript `Object.entries` lists integer-like keys (e.g. size "8") first, in ascending order, so the order of such sizes can differ. Counts and totals are unaffected.

**Not written as separate steps**
- `RentalForm.RentalFormState.HandleSubmit`: the multipart payload copies every form key unchanged, so it is not modelled separately. The image is the only key treated specially, and cropping is left out.
- The carousel's template literals are unquoted in csHomepage.jsx, so the file does not parse as written. `Carousel.UploadUrl` models the evident intent: base address, "/uploads/", then the image name.

**Out of scope**
- Routing, login, the protected-route token gate, the delete and update wrappers, and the header are not modelled. They hold no logic beyond navigation and copying keys.
- Concurrency between admin sessions is not modelled. The two return writes are sequential.
