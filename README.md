# Bookstore core in Dafny

A model of the rules under a small Next.js bookstore. The store sells books,
and users can also rent them; an administrator manages the catalog and the
rentals. This project models:

- **The cart and orders.** The cart is the user's one PENDING order. Adding a
  book creates the order or merges the book into an existing line. A line's
  price is a snapshot of the book's price when the line was made, and the
  order total is always Σ price × quantity. Checkout turns a non-empty PENDING
  order of the caller into PAID.
- **Rentals.** A rental's end date follows its period: 14, 30 or 90 days, with
  14 for any other period. A guard keeps at most one un-returned rental per
  user and book.
- **The reminder batch.** Un-returned, un-reminded rentals that end within
  three days ("upcoming") or have already ended ("overdue") are flagged in one
  batch update.
- **The admin dashboard counters.**
- **The route guard (middleware).** It decides redirects from the path prefix,
  the presence of a session token and its role.
- **The public catalog.** Filters by category, author and year, sorts by
  title, and builds the filter form's option lists. The filter form itself
  builds the query string.
- **Book creation by an administrator.** Each required field must be truthy.
  `imageUrl` and `isAvailable` get defaults.
- **The client pages.** The cart page, the rentals page, the admin catalog page
  and the profile page keep local copies of server lists. After a successful
  request they update those copies by `map`, `filter` or prepend. After a
  failed request they leave them as they were.

The database is an in-memory store, `Store.Database`: one sequence per table
and a fresh-id counter. Each state-changing route handler appears twice
(the read-only ones are only the pure function):

- A pure function `…Step` over the tables. Its contract states the reply and
  the new tables, and the lemmas beside it state the properties.
- An imperative method on the store that follows the handler step by step.
  Its contract ties the store's new state to the `…Step` function.

Other inputs are parameters:

- **The caller.** The session's user id and role, `None` without a session.
- **The current instant `now`.** Milliseconds as an `int`; `addDays(t, n)` is
  `t + n·86 400 000`.
- **The first instant of the month** (for the dashboard counters).
- **For the client pages:** the server's answer (`ok`) and the answer of the
  confirmation dialog (`confirmed`).

Money is integer, as in the seed data.

Modules:

- `Domain`: entities, replies, totals.
- `Store`: the database class.
- `Seqs`, `Sorting`: list helpers, sorting by title and by year.
- The route handlers: `Cart`, `Orders`, `Rentals`, `Reminders`, `Stats`,
  `AdminBooks`.
- The route guard: `Middleware`.
- The catalog: `Catalog`, `BookFilterForm`.
- The client pages: `CartPage`, `ProfileRentalsPage`, `AdminRentalsPage`,
  `AdminBooksPage`, `ProfilePage`.

## Model

| member | source | states |
|---|---|---|
| Domain.HttpStatus | src/app/api/cart/route.ts:61-84 | every error reply the handlers give is a 4xx status |
| Domain.TotalConcat | src/app/api/cart/route.ts:147-150 | the Σ price × quantity of two line lists joined is the sum of the two totals |
| Domain.Total | src/app/api/cart/route.ts:147-150 | the `reduce` starts from 0, so no lines total 0; TotalConcat, TotalUpdate and TotalSingle give the rest |
| Domain.TotalNonNegative | src/app/api/cart/route.ts:147-150 | with no negative price or quantity, the total is not negative |
| Domain.TotalUpdate | src/app/api/cart/route.ts:122-129 | replacing one line changes the total by the new line's amount minus the old one's |
| Domain.TotalSingle | src/app/api/cart/route.ts:103 | a one-line order's total is price × quantity |
| Domain.FindAvailableBook | src/app/api/cart/route.ts:75-84 | finds a book with that id that is available, or none exists |
| Store.WithReminderSent | src/app/api/admin/rental-reminders/route.ts:52-63 | rentals whose id is in the set get reminderSent = true and nothing else changes; the others are untouched |
| Store.Database.constructor | prisma/seed.ts:9-166 | the seeded database: the given users and catalog (distinct book ids below the counter), no orders and no rentals, satisfying the id invariant |
| Store.Database.CreateOrder | src/app/api/cart/route.ts:99-115 | appends one PENDING order owned by the user with one line; two fresh ids; the other tables are unchanged |
| Store.Database.UpdateItemQuantity | src/app/api/cart/route.ts:124-129 | only that line's quantity changes |
| Store.Database.CreateItem | src/app/api/cart/route.ts:132-139 | appends one line with a fresh id to that order, and nothing else changes |
| Store.Database.SetTotal | src/app/api/cart/route.ts:152-155 | only that order's total changes |
| Store.Database.SetStatus | src/app/api/orders/route.ts:94-97 | only that order's status changes |
| Store.Database.CreateRental | src/app/api/rentals/route.ts:104-112 | appends one rental with a fresh id, not returned and not reminded |
| Store.Database.MarkReminded | src/app/api/admin/rental-reminders/route.ts:53-62 | the rental table becomes WithReminderSent of the old one; nothing else changes |
| Store.Database.CreateBook | src/app/api/admin/books/route.ts:50-62 | appends the row with a fresh id |
| Cart.FindPending | src/app/api/cart/route.ts:87-95 | gives the first PENDING order of the user, or there is none |
| Cart.FindLine | src/app/api/cart/route.ts:118-120 | gives the first line for the book, or there is none |
| Cart.MergeLineShape | src/app/api/cart/route.ts:118-139 | an existing line grows by the quantity and keeps its id, book and price; otherwise exactly one line at the book's price is appended; other lines are unchanged |
| Cart.MergeLineTotal | src/app/api/cart/route.ts:122-155 | the merged total is the old total plus quantity × the price of the line that received it |
| Cart.MergeLine | src/app/api/cart/route.ts:118-139 | adds at most one line, and every line of another book is left as it was |
| Cart.SumLines | src/app/api/cart/route.ts:147-150 | the `reduce` loop computes Σ price × quantity |
| Cart.GetCart | src/app/api/cart/route.ts:7-54 | 401 without a session; with no PENDING order the reply is the empty cart (no id, total 0, no lines); otherwise a PENDING order of the caller |
| Cart.GetCartIsThePendingOrder | src/app/api/cart/route.ts:16-46 | under the one-pending invariant the cart shown is the caller's PENDING order |
| Cart.AddToCartStep | src/app/api/cart/route.ts:57-166 | 401 without a session; 400 for a missing book id or quantity or a quantity below 1; 404 when there is no available book with that id; every error leaves the tables unchanged |
| Cart.AddToCartCreatesOrder | src/app/api/cart/route.ts:97-115 | with no PENDING order, success appends one PENDING order of the caller with one line at the book's price and a total of price × quantity |
| Cart.AddToCartMergesLine | src/app/api/cart/route.ts:118-129 | a book already in the pending order grows that line's quantity, no line is added, and the total rises by price × quantity; the order keeps its id, owner, PENDING status and creation time |
| Cart.AddToCartAppendsLine | src/app/api/cart/route.ts:131-155 | a book with no line in the caller's pending order: that order gets one new line with a fresh id at the book's current price, the total rises by price × quantity, one id is allocated, the other orders are unchanged; the order keeps its id, owner, PENDING status and creation time |
| Cart.AddToCartKeepsSnapshots | src/app/api/cart/route.ts:124-139 | no order is removed, and every existing line of every order keeps its id, book and snapshot price |
| Cart.AddToCartPreservesInvariants | src/app/api/cart/route.ts:87-155 | at most one PENDING order per user, and every stored total equals Σ price × quantity, before and after |
| Cart.AddTwiceScenario | src/app/api/cart/route.ts:57-166 | adding 1 and then 2 of one book gives one order with one line of quantity 3 and total 300 |
| Cart.AddToCart | src/app/api/cart/route.ts:57-166 | the handler's store updates give exactly AddToCartStep's tables and reply |
| Cart.AddToPendingOrder | src/app/api/cart/route.ts:116-156 | updating or creating the line and recomputing the total gives MergeLine's lines and their Σ |
| Orders.History | src/app/api/orders/route.ts:15-19 | exactly the caller's non-PENDING orders |
| Orders.ListOrders | src/app/api/orders/route.ts:7-37 | 401 without a session; otherwise exactly the caller's non-PENDING orders, a permutation of them, newest first |
| Orders.FindOwnPending | src/app/api/orders/route.ts:68-77 | the order with that id, owned by the caller and PENDING, or none exists |
| Orders.CheckoutStep | src/app/api/orders/route.ts:50-107 | 401 without a session; 400 without an order id; 404 when no PENDING order of the caller has that id; success sets only that order's status to PAID; when every PENDING order of the caller with that id has lines and one exists, the reply is success |
| Orders.UniqueIdsIndex | src/app/api/orders/route.ts:68-73 | with distinct ids, an id names a single order |
| Orders.CheckoutRejectsEmptyOrder | src/app/api/orders/route.ts:86-91 | an order without lines is refused with 400 and stays PENDING |
| Orders.CheckoutPaysOwnPendingOrder | src/app/api/orders/route.ts:68-97 | with distinct order ids, checking out a PENDING order of the caller that has lines answers that order as PAID and changes exactly its status |
| Orders.CheckoutOnlyPays | src/app/api/orders/route.ts:94-97 | success changes only the status, to PAID; lines, total, owner and every other order are unchanged |
| Orders.SecondCheckoutFails | src/app/api/orders/route.ts:68-84 | checking out the same order again answers 404 and changes nothing |
| Orders.CheckoutPreservesInvariants | src/app/api/orders/route.ts:94-97 | checkout keeps both the one-pending and the consistent-totals invariants |
| Orders.Checkout | src/app/api/orders/route.ts:50-107 | the handler's store update gives exactly CheckoutStep's table and reply |
| Rentals.PeriodDays | src/app/api/rentals/route.ts:10-19 | 30 for ONE_MONTH, 90 for THREE_MONTHS, and 14 for TWO_WEEKS and any other value |
| Rentals.EndDate | src/app/api/rentals/route.ts:7-20 | the end is now + 14, 30 or 90 days, and always strictly after now |
| Rentals.FindActive | src/app/api/rentals/route.ts:87-93 | an un-returned rental of this user and book, or none exists |
| Rentals.RentStep | src/app/api/rentals/route.ts:59-122 | 401; 400 for a missing book id or period; 404 for no available book; success only when the pair has no active rental, appending one rental with the caller, the book, the computed end and reminderSent false; an available book, a non-empty period and no active rental of the pair always succeed with the next id |
| Rentals.RentRejectsDuplicate | src/app/api/rentals/route.ts:95-100 | a second active rental of the same book answers 400 |
| Rentals.RentPreservesOneActive | src/app/api/rentals/route.ts:87-112 | at most one un-returned rental per user and book, before and after |
| Rentals.RentOneMonthScenario | src/app/api/rentals/route.ts:13-14 | a ONE_MONTH rental ends 30 days after now, and repeating the request answers 400 |
| Rentals.RentalsOf | src/app/api/rentals/route.ts:30-33 | exactly the caller's rentals |
| Rentals.ListRentals | src/app/api/rentals/route.ts:22-57 | 401 without a session; otherwise a permutation of the caller's rentals, newest first |
| Rentals.Rent | src/app/api/rentals/route.ts:59-122 | the handler's store update gives exactly RentStep's table and reply |
| Reminders.Upcoming | src/app/api/admin/rental-reminders/route.ts:18-31 | exactly the un-returned, un-reminded rentals with now < end ≤ now + 3 days |
| Reminders.Overdue | src/app/api/admin/rental-reminders/route.ts:33-45 | exactly the un-returned, un-reminded rentals with end < now |
| Reminders.Ids | src/app/api/admin/rental-reminders/route.ts:47-50 | the ids of the rentals, position by position |
| Reminders.SendRemindersStep | src/app/api/admin/rental-reminders/route.ts:7-78 | 403 for a non-admin, with the rentals unchanged; otherwise success whose counts are the number of upcoming rentals, of overdue rentals and of ids in the batch, with total = upcoming + overdue; the table keeps its length |
| Reminders.UpcomingOverdueDisjoint | src/app/api/admin/rental-reminders/route.ts:22-25 | no rental is in both selections; an end equal to now is in neither; an end of exactly now + 3 days is upcoming |
| Reminders.TotalCountsSelected | src/app/api/admin/rental-reminders/route.ts:65-70 | upcoming + overdue is the number of rentals that are upcoming or overdue |
| Reminders.SelectedIsListed | src/app/api/admin/rental-reminders/route.ts:47-50 | every selected rental's id is in the batch |
| Reminders.BatchIds | src/app/api/admin/rental-reminders/route.ts:47-50 | the ids of the upcoming rentals followed by those of the overdue ones, one per selected rental |
| Reminders.ListedIsSelected | src/app/api/admin/rental-reminders/route.ts:53-58 | with distinct ids, only selected rentals have their id in the batch |
| Reminders.RunMarksExactlySelected | src/app/api/admin/rental-reminders/route.ts:47-63 | each selected rental ends with reminderSent = true and is otherwise unchanged; every other rental is unchanged |
| Reminders.RerunReportsZero | src/app/api/admin/rental-reminders/route.ts:21-36 | a second run at the same instant reports 0, 0, 0 and changes nothing |
| Reminders.NoneSelected | src/app/api/admin/rental-reminders/route.ts:18-45 | when no rental qualifies, both selections are empty |
| Reminders.SendReminders | src/app/api/admin/rental-reminders/route.ts:7-78 | the handler's batch update gives exactly SendRemindersStep's table and reply |
| Stats.ActiveRentals | src/app/api/admin/stats/route.ts:19-23 | at most the number of rentals |
| Stats.OrdersSince | src/app/api/admin/stats/route.ts:25-33 | at most the number of orders |
| Stats.StatsStep | src/app/api/admin/stats/route.ts:7-40 | 403 for a non-admin; otherwise totalBooks counts every book, totalUsers every user, activeRentals is the number of un-returned rentals and ordersThisMonth the number of PAID orders created since the start of the month |
| Stats.ActivePlusReturned | src/app/api/admin/stats/route.ts:19-23 | active rentals plus returned rentals make up the whole table |
| Stats.CheckoutCountsOnce | src/app/api/admin/stats/route.ts:25-33 | ordersThisMonth goes up by one exactly when a checkout succeeds on an order created since the month began, and is otherwise unchanged |
| Stats.AddToCartKeepsOrderCount | src/app/api/admin/stats/route.ts:25-33 | adding to the cart never changes ordersThisMonth (only PAID orders count) |
| Stats.RentCountsOnce | src/app/api/admin/stats/route.ts:19-23 | a successful rent adds one active rental; a failed one adds none |
| Stats.RemindersKeepActiveCount | src/app/api/admin/stats/route.ts:19-23 | flagging reminders never changes the active-rental count |
| AdminBooks.FirstMissing | src/app/api/admin/books/route.ts:41-48 | none iff every field is present; otherwise the first field, in list order, that is not |
| AdminBooks.FindMissingField | src/app/api/admin/books/route.ts:40-48 | the `for` loop with early return finds FirstMissing over the seven required fields |
| AdminBooks.CheckedFieldsAreAll | src/app/api/admin/books/route.ts:40 | no missing field iff all seven fields are truthy |
| AdminBooks.NewBook | src/app/api/admin/books/route.ts:50-62 | the required fields are copied unchanged; imageUrl is kept only when truthy, else null; isAvailable is false only for an explicit false |
| AdminBooks.CreateStatus | src/app/api/admin/books/route.ts:64 | 201 exactly for a created book |
| AdminBooks.CreateBookStep | src/app/api/admin/books/route.ts:30-73 | 403 for a non-admin; 400 naming the first missing field in the handler's order whenever one is missing, with the catalog unchanged; with every field present, one book with a fresh id is appended |
| AdminBooks.CreatePreservesIds | src/app/api/admin/books/route.ts:50-62 | ids stay distinct and below the counter, and the old rows are kept |
| AdminBooks.MissingFieldScenario | src/app/api/admin/books/route.ts:42 | a body without a title names the title; a price of 0 is rejected as missing once the earlier fields are present |
| AdminBooks.ListAllBooks | src/app/api/admin/books/route.ts:6-28 | 403 for a non-admin; otherwise a permutation of the whole catalog, sorted by title |
| AdminBooks.CreateBook | src/app/api/admin/books/route.ts:30-73 | the handler's insert gives exactly CreateBookStep's table and reply |
| Middleware.Decide | src/middleware.ts:5-29 | redirect to "/" iff (auth page and signed in) or (admin page and not admin); to "/auth/login" iff not caught by those, anonymous and on /profile or /cart; otherwise pass |
| Middleware.AdminPagesNeedAdmin | src/middleware.ts:16-18 | an /admin path passes iff the token's role is ADMIN |
| Middleware.ProtectedPagesNeedSession | src/middleware.ts:20-26 | an anonymous visitor on /profile… or /cart… goes to /auth/login |
| Middleware.RedirectTargetsAreFinal | src/middleware.ts:12-28 | following a redirect with the same token always passes |
| Catalog.TrimStart | src/app/books/page.tsx:18 | a suffix of the input whose dropped prefix is all white space and which does not start with white space, as `parseInt` skips it |
| Catalog.DigitRun | src/app/books/page.tsx:18 | the longest all-digit prefix |
| Catalog.ParseMagnitude | src/app/books/page.tsx:18 | a non-negative result, and NaN exactly when no digit of the base (16 after `0x`/`0X`, else 10) follows |
| Catalog.ParseInt | src/app/books/page.tsx:18 | NaN exactly when no digit follows the optional sign after the leading white space; a minus sign gives a value at most 0, otherwise at least 0 |
| Catalog.NatToStringValue | src/app/books/page.tsx:40-45 | the decimal spelling of a year reads back as its value |
| Catalog.DigitRunAll | src/app/books/page.tsx:18 | in a digits-only string the run is the whole string |
| Catalog.MagnitudeOfDecimal | src/app/books/page.tsx:18 | a decimal digit string parses to its value |
| Catalog.ParseDigits | src/app/books/page.tsx:18 | `parseInt` of a decimal digit string is its value |
| Catalog.ParseNegativeDigits | src/app/books/page.tsx:18 | `parseInt` of a minus sign and a decimal digit string is minus its value |
| Catalog.ParseIntOfToString | src/app/books/page.tsx:18 | `parseInt(String(y)) == y` for every integer year |
| Catalog.ListCatalog | src/app/books/page.tsx:14-26 | a permutation of the available books that match every truthy parameter, sorted by title |
| Catalog.Matches | src/app/books/page.tsx:14-19 | only available books match; with no truthy parameter every available book matches; a year that parses to NaN matches nothing |
| Catalog.EmptyFiltersListAvailable | src/app/books/page.tsx:14-19 | with no truthy parameter the list is exactly the available books |
| Catalog.FilterByOptions | src/app/books/page.tsx:16-18 | non-empty category, author and a year's spelling each constrain the list by exact match |
| Catalog.Available | src/app/books/page.tsx:29 | exactly the available books |
| Catalog.Categories | src/app/books/page.tsx:28-32 | each category of an available book, once |
| Catalog.Authors | src/app/books/page.tsx:34-38 | each author of an available book, once |
| Catalog.DedupSorted | src/app/books/page.tsx:43-44 | the same values, strictly descending |
| Catalog.Years | src/app/books/page.tsx:40-45 | each year of an available book, once, strictly descending |
| BookFilterForm.Lookup | src/app/components/BookFilter.tsx:16-18 | a value iff some parameter has the key, and the value is that of the first parameter with the key |
| BookFilterForm.FilterParams | src/app/components/BookFilter.tsx:20-25 | at most three parameters, each non-empty, keys in the order category, author, year; each field's pair occurs iff the field is non-empty |
| BookFilterForm.FilterParamsRoundTrip | src/app/components/BookFilter.tsx:16-25 | reading the built parameters back gives each non-empty field, and nothing for an empty one |
| BookFilterForm.ApplyThenList | src/app/books/page.tsx:14-26 | after applying the form, the catalog lists exactly the available books that agree with every non-empty field |
| BookFilterForm.OrEmpty | src/app/components/BookFilter.tsx:16-18 | the parameter's value, or "" when absent |
| BookFilterForm.EmptyFormTarget | src/app/components/BookFilter.tsx:27 | with every field empty the form goes to "/books?" |
| BookFilterForm.BookFilter.constructor | src/app/components/BookFilter.tsx:16-18 | the fields start from the URL parameters, "" when absent |
| BookFilterForm.BookFilter.BuildParams | src/app/components/BookFilter.tsx:21-25 | the three conditional `set` calls give FilterParams of the fields |
| BookFilterForm.BookFilter.ApplyFilters | src/app/components/BookFilter.tsx:20-28 | pushes "/books?" and the query string; the fields are kept |
| BookFilterForm.BookFilter.ResetFilters | src/app/components/BookFilter.tsx:30-35 | all three fields become "" and "/books" is pushed |
| CartPage.WithQuantity | src/app/cart/page.tsx:71-75 | only lines with that id get the new quantity; the length and the other lines are kept |
| CartPage.WithoutItem | src/app/cart/page.tsx:105-107 | exactly the lines with another id |
| CartPage.ItemsWithId | src/app/cart/page.tsx:105-107 | exactly the lines with that id |
| CartPage.RemovalKeepsOrder | src/app/cart/page.tsx:105-107 | the kept lines stay in their order |
| CartPage.TotalSplit | src/app/cart/page.tsx:109-112 | the total of the kept lines plus the total of the removed lines is the old total |
| CartPage.RemoveLineTotal | src/app/cart/page.tsx:105-112 | with distinct line ids, removing a line lowers the total by exactly its price × quantity |
| CartPage.OnlyLine | src/app/cart/page.tsx:105-107 | with distinct line ids, the removal takes away exactly one line |
| CartPage.UpdateLineTotal | src/app/cart/page.tsx:71-80 | with distinct line ids, the new total replaces that line's amount by price × the new quantity |
| CartPage.CartPageState.constructor | src/app/cart/page.tsx:35-49 | the loaded cart, or the error flag when loading failed |
| CartPage.CartPageState.UpdateQuantity | src/app/cart/page.tsx:54-92 | below 1 nothing is sent; on success the mapped lines and their Σ replace the cart; on failure the cart is unchanged |
| CartPage.CartPageState.RemoveItem | src/app/cart/page.tsx:94-124 | on success the filtered lines and their Σ replace the cart; on failure the cart is unchanged |
| CartPage.CartPageState.Checkout | src/app/cart/page.tsx:126-151 | nothing is sent for a missing or empty cart; otherwise the order id is posted, and on success the page goes to /profile/orders |
| ProfileRentalsPage.ActiveOf | src/app/profile/rentals/page.tsx:40 | exactly the un-returned rentals |
| ProfileRentalsPage.PastOf | src/app/profile/rentals/page.tsx:41 | exactly the returned rentals |
| ProfileRentalsPage.PartitionCovers | src/app/profile/rentals/page.tsx:40-44 | the two lists are disjoint, together are a permutation of all rentals, and each keeps the original order |
| ProfileRentalsPage.FindRental | src/app/profile/rentals/page.tsx:83 | the first rental of the list with that id, or there is none |
| ProfileRentalsPage.WithoutRental | src/app/profile/rentals/page.tsx:79-81 | exactly the rentals with another id |
| ProfileRentalsPage.RentalsPageState.constructor | src/app/profile/rentals/page.tsx:31-51 | the loaded rentals split into active and past, or empty lists and the error flag |
| ProfileRentalsPage.RentalsPageState.ReturnBook | src/app/profile/rentals/page.tsx:69-92 | on success the rental leaves the active list and a returned copy from the loaded list is put in front of the past list; on failure both lists are unchanged |
| ProfileRentalsPage.FindByUniqueId | src/app/profile/rentals/page.tsx:83 | with distinct ids the rental found is the one with that id |
| ProfileRentalsPage.ReturnMatchesReload | src/app/profile/rentals/page.tsx:79-87 | right after loading, a return leaves the same active list and the same past rentals that reloading would show |
| AdminRentalsPage.StatusText | src/app/admin/rentals/page.tsx:107-118 | "returned" iff returned; "overdue" iff un-returned and past its end; "active" otherwise |
| AdminRentalsPage.StatusClass | src/app/admin/rentals/page.tsx:120-131 | green iff returned, red iff overdue, blue iff active |
| AdminRentalsPage.ClassFollowsText | src/app/admin/rentals/page.tsx:107-131 | the colour is determined by the text, and two rentals share a colour iff they share a text |
| AdminRentalsPage.ReminderSelectionMatchesStatus | src/app/admin/rentals/page.tsx:107-118 | a rental the batch counts as overdue is shown overdue; one it counts as upcoming is shown active |
| AdminRentalsPage.NewRentalIsActive | src/app/admin/rentals/page.tsx:107-118 | a rental just created shows as active, and as overdue once its end is past |
| AdminRentalsPage.RentalPeriodText | src/app/admin/rentals/page.tsx:94-105 | the three periods in words; the text equals the input iff the period is unknown |
| AdminRentalsPage.PeriodTextMatchesDays | src/app/admin/rentals/page.tsx:94-105 | each period's words agree with the day offset the rental route uses for it |
| AdminBooksPage.WithAvailability | src/app/admin/books/page.tsx:50-54 | only books with that id change, in isAvailable only; the length is kept |
| AdminBooksPage.WithoutBook | src/app/admin/books/page.tsx:75 | exactly the books with another id |
| AdminBooksPage.ToggleTwiceRestores | src/app/admin/books/page.tsx:34-59 | toggling twice from the shown value gives back the list |
| AdminBooksPage.DeleteKeepsOthers | src/app/admin/books/page.tsx:75 | the others keep their order, and exactly the books with that id are removed |
| AdminBooksPage.AdminBooksPageState.constructor | src/app/admin/books/page.tsx:14-32 | the loaded list, or an empty list and the error flag |
| AdminBooksPage.AdminBooksPageState.ToggleAvailability | src/app/admin/books/page.tsx:34-59 | sends the negated status; on success the list is mapped; on failure it is unchanged |
| AdminBooksPage.AdminBooksPageState.DeleteBook | src/app/admin/books/page.tsx:61-80 | nothing is sent unless confirmed; on success the book is filtered out; on failure the list is unchanged |
| ProfilePage.ShownRentals | src/app/profile/page.tsx:54 | the first at most three un-returned rentals: a subsequence of the list, of length min(3, number un-returned) |
| ProfilePage.ShownOrders | src/app/profile/page.tsx:62 | the first at most three orders, in order |
| ProfilePage.ShownOrdersAreNewest | src/app/profile/page.tsx:57-62 | the orders shown are at least as recent as every order not shown |
| ProfilePage.OrderStatusText | src/app/profile/page.tsx:89-100 | the three statuses in words; the text equals the input iff the status is unknown |
| ProfilePage.StatusLabelsDistinct | src/app/profile/page.tsx:89-100 | distinct statuses get distinct words, and none is shown raw |
| ProfilePage.ProfilePageState.constructor | src/app/profile/page.tsx:40-43 | empty lists, loading, no error |
| ProfilePage.ProfilePageState.Load | src/app/profile/page.tsx:45-74 | nothing happens without a session; a failed rentals request skips the orders request; the shown lists come from ShownRentals and ShownOrders |
| Seqs.Filter | src/app/profile/rentals/page.tsx:40-41 | the elements that satisfy the predicate, and only those |
| Seqs.FilterIsSubsequence | src/app/cart/page.tsx:105-107 | `filter` keeps the original order |
| Seqs.FilterPartition | src/app/profile/rentals/page.tsx:40-41 | filtering by a predicate and by its negation splits the list |
| Sorting.SortAscByStr | src/app/books/page.tsx:21-26 | a permutation sorted ascending by the string key |
| Sorting.SortDescBy | src/app/books/page.tsx:44 | a permutation sorted descending by the integer key |

## Left out

- Prisma and the database, the next-auth session and token, and bcrypt
  hashing are outside code. The store is in memory. The session is the
  `caller` parameter, and the middleware token is an optional role.
- Concurrent requests are not modelled. Each handler is one atomic step, so
  the race between the item update and the total update in the cart handler
  is not modelled.
- Errors in a request body of the wrong JSON type are not modelled, and
  neither are the 500 replies. A missing field is `None`.
- Floating-point money: prices are integers.
- `date-fns` is not modelled. Time is an integer number of milliseconds.
  `now` and the start of the month are parameters, and the `isPast` of the
  admin rentals page is taken at the instant the page is drawn.
- Percent-encoding of search parameters is not modelled.
- The PATCH and DELETE cart-item routes, the book PATCH and DELETE routes and
  the rental-return route are not part of this model. The client pages see
  only their success or failure, as `ok`.
- Rentals.RentStep: the rental-period enum the database enforces is not
  modelled. Any non-empty period the handler lets through is stored.
- Catalog.ParseInt: the database stores `year`, `price` and `rentalPrice` in
  32-bit `Int` columns; the model's integers are unbounded, so the rejection
  of an out-of-range value by the database is not modelled.
- Catalog.Matches: the source passes `NaN` to the database when the `year`
  parameter does not parse; the model treats it as matching no book.
- Catalog.IsSpace: only the ASCII white space characters, NBSP, BOM and the
  two line/paragraph separators are skipped. The other Unicode space
  separators are not.
- Sorting.SortAscByStr: strings sort by character code, not by the
  database's collation.
- Catalog.Categories: the option lists are specified by their contents. The
  order the database returns for `distinct` without `orderBy` is not
  modelled.
- The duplicate copies of `getRentalPeriodText` in the profile and
  profile-rentals pages are modelled once, as
  `AdminRentalsPage.RentalPeriodText`.
- The admin rentals page's own reminder button and loading flags are not
  modelled. Neither are the transient flags of the other pages
  (`isProcessing`, `isLoading` except on the profile page) or
  `router.refresh`.
- React rendering is not modelled.
- The middleware's `matcher` configuration is not modelled. `Decide` is
  stated for every path.
- The `alert` a page shows when a request fails is not modelled, in any of
  the failure paths: the cart page's quantity change, removal and checkout, the admin
  catalog page's availability toggle and delete, and the rental return on the
  profile rentals page. The model states only that the local lists are left
  as they were.
- Orders.CheckoutStep: the success reply is modelled as the whole updated
  order, lines included; the source's `order.update` without `include`
  answers the order row without its lines. No modelled caller reads the body.
- No notification is sent by the reminder batch in the source either, so
  none is modelled.
