# Invoice totals and list-page logic of an Electron + React back-office app

This project models, in Dafny, the logic inside a small back-office desktop application built with
Electron, React and Tailwind. Most of that application is presentational. What it computes is:

- the **invoice form's totals engine**. Each line amount is `(quantity || 0) * (rate || 0)`. From
  the line amounts the form derives the subtotal, a percentage or fixed discount, the taxable amount,
  the tax and the grand total, and it writes each line amount back into its row. It also manages the
  item list: one default row to start with, "Add Item", and a delete button shown only while more
  than one row exists. The form's e-mail check is modelled too;
- the **product form's helpers**: the URL-slug normaliser, the SKU builder, duplicate-free tag and
  keyword lists, image removal by index, and the profit/margin/markup panel;
- the **list pages**: sales orders, invoices, payments, customers, vendors, customer groups, users,
  financial, tax and inventory reports, and stock movements. Each page has a case-insensitive
  substring search, "all"-or-exact dropdowns and summary cards (sums and counts). Some pages also
  create records whose identifiers are sequential and zero-padded (`CUST-005`). The sales page has a
  two-field sort state machine and a comparator;
- **stock classification** (out of stock, low stock, in stock) and the catalogue's low-stock list;
- the **category tree**: the expand/collapse set and the recursive flattening into table rows; and
  the **integrations page**: the enable toggle and grouping by category.

Modules follow the source files, one module per file (`invoice_create.dfy` is
`src/pages/InvoiceCreate.tsx`, and so on). There are three helper modules:

- `Wrappers`: `Option`, an empty field read as zero;
- `Text`: ASCII case mapping, substring search, trim, decimal numerals;
- `Listing`: `filter`, sums, the dropdown test, sequential identifiers.

Modelling conventions:

- Money is `real`, so arithmetic is exact.
- An empty numeric form field is `None`, and `OrZero` reads it as `0`, as `|| 0` does.
- A clock reading is a parameter `now: nat` (milliseconds). `isoOf` stands for `toISOString`.
- React state is a class field. A state setter is a method with a `modifies` clause. The method is
  proved against a pure function, and the function's properties are proved as lemmas.
- The invoice items are an `array` that `Recompute` overwrites in place. Growing or shrinking the
  list allocates a new array, as `useFieldArray` replaces its list.
- The hard-coded sample arrays of each page are constants. Lemmas state what the page shows for
  them.

## Model

| member | source | states |
|---|---|---|
| InvoiceCreate.LineAmount | src/pages/InvoiceCreate.tsx:89 | the line amount `(quantity or 0) * (rate or 0)` of a row, an empty field counting as 0; what it means for the totals and the stored amounts is stated by `WithAmountsCorrect` and `EmptyFieldsCountAsZero` |
| InvoiceCreate.Subtotal | src/pages/InvoiceCreate.tsx:88-91 | the `reduce` from 0 over the rows' line amounts; its meaning (one step per appended row, independent of stored amounts and of row order, lowered by exactly a removed row) is stated by the `Subtotal*` lemmas below |
| InvoiceCreate.DiscountOf | src/pages/InvoiceCreate.tsx:93-95 | the discount: `subtotal * (value or 0) / 100` for a percentage, `value or 0` for a fixed amount; stated as equations by `TotalsEquations` and bounded by `PercentageDiscountBounded` |
| InvoiceCreate.ComputeTotals | src/pages/InvoiceCreate.tsx:88-99 | the five numbers one pass of the effect stores; their relations are stated by `TotalsEquations` and `SameSubtotalSameTotals`, and `Recompute` is proved to store exactly these |
| InvoiceCreate.WithAmounts | src/pages/InvoiceCreate.tsx:107-110 | the rows after the `forEach`, one per input row; each row's content is stated by `WithAmountsCorrect` |
| InvoiceCreate.InvoiceNumber | src/pages/InvoiceCreate.tsx:66 | `INV-` followed by the last six characters of the clock's numeral; `InvoiceNumberFormat` states it is at most six digits reading back as the clock value modulo 10^6 |
| InvoiceCreate.MatchesEmailPattern | src/pages/InvoiceCreate.tsx:309 | acceptance by the automaton for `/^\S+@\S+$/i`; `EmailPatternIff` proves it accepts exactly the strings without white space having an `@` with a character on each side |
| InvoiceCreate.InvoiceDraft.Recompute | src/pages/InvoiceCreate.tsx:87-111 | the subtotal, discount, tax and total become the totals of the items' quantities and rates; every stored amount is overwritten with (quantity or 0) x (rate or 0); afterwards the draft is recomputed; a pass over an already recomputed draft changes nothing |
| InvoiceCreate.InvoiceDraft.SumLineAmounts | src/pages/InvoiceCreate.tsx:88-91 | the loop's sum equals the subtotal of the rows, which reads quantities and rates and never the stored amounts |
| InvoiceCreate.InvoiceDraft.StoreLineAmounts | src/pages/InvoiceCreate.tsx:107-110 | the in-place loop leaves the array equal to the old rows with their amounts recomputed and nothing else changed |
| InvoiceCreate.InvoiceDraft.constructor | src/pages/InvoiceCreate.tsx:65-73 | a new draft has exactly one row (quantity 1, rate 0, amount 0), tax rate 10, a percentage discount of 0 and totals 0; the invoice number and the two dates come from the clock, the due date 30 days after the issue date |
| InvoiceCreate.InvoiceDraft.AppendItem | src/pages/InvoiceCreate.tsx:441 | "Add Item" appends the default row at the end and leaves the other rows unchanged |
| InvoiceCreate.InvoiceDraft.RemoveItem | src/pages/InvoiceCreate.tsx:424-433 | a row is removed iff there was more than one row; then exactly that row is gone and the rest keep their order, so the list never becomes empty |
| InvoiceCreate.InvoiceDraft.EditItem | src/pages/InvoiceCreate.tsx:383-410 | editing a row changes only that row's description, quantity and rate; its stored amount stays stale until the next pass |
| InvoiceCreate.InvoiceDraft.SetAdjustments | src/pages/InvoiceCreate.tsx:490-518 | the tax rate, discount type and discount value become the typed values |
| InvoiceCreate.EditAndRecompute | src/pages/InvoiceCreate.tsx:87-111 | two units of 50.00 at a 10 % discount and 10 % tax give a subtotal of 100, a discount of 10 and a total of 99 |
| InvoiceCreate.AppendAndRecompute | src/pages/InvoiceCreate.tsx:441 | appending a row and recomputing keeps the subtotal and total of a recomputed draft |
| InvoiceCreate.SubtotalAppend | src/pages/InvoiceCreate.tsx:88-91 | the empty list has subtotal 0, and appending a row adds exactly its line amount |
| InvoiceCreate.SubtotalIgnoresStoredAmounts | src/pages/InvoiceCreate.tsx:88-91 | lists with the same descriptions, quantities and rates have the same subtotal, whatever the stored amounts |
| InvoiceCreate.WithAmountsCorrect | src/pages/InvoiceCreate.tsx:107-110 | after a pass each stored amount is (quantity or 0) x (rate or 0), and the inputs are untouched |
| InvoiceCreate.WithAmountsStored | src/pages/InvoiceCreate.tsx:107-110 | after a pass every row's stored amount is its own line amount |
| InvoiceCreate.RecomputeIdempotent | src/pages/InvoiceCreate.tsx:87-111 | a second pass changes neither the amounts nor the totals |
| InvoiceCreate.SubtotalOrderInvariant | src/pages/InvoiceCreate.tsx:88-91 | any reordering of the rows gives the same subtotal |
| InvoiceCreate.SubtotalRemove | src/pages/InvoiceCreate.tsx:429 | removing a row lowers the subtotal by exactly that row's line amount |
| InvoiceCreate.AppendDefaultKeepsTotals | src/pages/InvoiceCreate.tsx:441 | an appended default row changes none of the totals |
| InvoiceCreate.SameSubtotalSameTotals | src/pages/InvoiceCreate.tsx:93-99 | discount, taxable amount, tax and total depend on the rows only through the subtotal |
| InvoiceCreate.TotalsEquations | src/pages/InvoiceCreate.tsx:88-99 | the subtotal is the sum of the line amounts; a percentage discount is the subtotal times the value over 100 and a fixed one is the value itself, an empty value counting as 0; taxable plus discount is the subtotal; the total is the taxable amount times (1 + rate/100), nothing clamped |
| InvoiceCreate.PercentageDiscountBounded | src/pages/InvoiceCreate.tsx:93-97 | with non-negative quantities and rates and a percentage in [0, 100], the discount is between 0 and the subtotal and the taxable amount is non-negative |
| InvoiceCreate.PercentOfBounded | src/pages/InvoiceCreate.tsx:94 | a percentage in [0, 100] of a non-negative amount lies between 0 and the amount |
| InvoiceCreate.SubtotalNonnegative | src/pages/InvoiceCreate.tsx:88-91 | non-negative quantities and rates give a non-negative subtotal |
| InvoiceCreate.InitialTotalsZero | src/pages/InvoiceCreate.tsx:65-73 | the initial values (one default row, tax 10, percentage discount 0) total 0 throughout |
| InvoiceCreate.InitialRowRecomputed | src/pages/InvoiceCreate.tsx:69 | the default row already stores its line amount, and its totals are all 0 |
| InvoiceCreate.PercentageScenario | src/pages/InvoiceCreate.tsx:93-99 | 2 x 50.00 with a 10 % discount and 10 % tax: subtotal 100, discount 10, taxable 90, tax 9, total 99, whatever amount the row stores |
| InvoiceCreate.FixedScenario | src/pages/InvoiceCreate.tsx:93-99 | a fixed discount of 25 on 200.00 without tax leaves 175 |
| InvoiceCreate.MultiItemScenario | src/pages/InvoiceCreate.tsx:88-91 | rows 1 x 10, 2 x 5 and 3 x 2 give a subtotal of 26 in every order |
| InvoiceCreate.EmptyFieldsCountAsZero | src/pages/InvoiceCreate.tsx:89 | an empty quantity or rate makes the line amount 0 |
| InvoiceCreate.NegativeTotalNotClamped | src/pages/InvoiceCreate.tsx:95-99 | a fixed discount above the subtotal is not clamped: 10.00 less 25 with 10 % tax gives taxable -15 and total -16.50 |
| InvoiceCreate.InvoiceNumberFormat | src/pages/InvoiceCreate.tsx:66 | the invoice number is `INV-` and then at most six digits, which read back as the clock value modulo 1 000 000 |
| InvoiceCreate.DatePart | src/pages/InvoiceCreate.tsx:67-68 | the date is the longest prefix of the ISO timestamp without a `T`: it contains none and, when shorter than the timestamp, is followed by one |
| InvoiceCreate.EmailRunStates | src/pages/InvoiceCreate.tsx:309 | the automaton of the pattern reaches each state exactly on the inputs the state stands for; white space kills every state |
| InvoiceCreate.EmailPatternIff | src/pages/InvoiceCreate.tsx:309 | the pattern accepts a string iff it has no white space and has an `@` with at least one character on each side |
| InvoiceCreate.EmailError | src/pages/InvoiceCreate.tsx:306-311 | no message iff the address has no white space and an inner `@`; the empty field gets "Email is required" |
| ProductCreate.ReplaceRuns | src/pages/ProductCreate.tsx:119 | the result has only `[a-z0-9-]`, no `--`, is no longer than the input, and starts with no `-` after a replaced run |
| ProductCreate.StripEdgeDashes | src/pages/ProductCreate.tsx:119 | removing an edge dash from a string of slug characters without `--` gives a slug |
| ProductCreate.Slug | src/pages/ProductCreate.tsx:119 | every slug has only `[a-z0-9-]`, does not start or end with `-`, has no `--` and is no longer than the name |
| ProductCreate.ReplaceRunsKeepsSlugChars | src/pages/ProductCreate.tsx:119 | replacing runs keeps every letter and digit, in order |
| ProductCreate.StripEdgeDashesKeepsSlugChars | src/pages/ProductCreate.tsx:119 | stripping the edge dashes removes no letter or digit |
| ProductCreate.SlugKeepsLettersAndDigits | src/pages/ProductCreate.tsx:119 | the slug's letters and digits are exactly those of the lower-cased name, in order |
| ProductCreate.ReplaceRunsOfSlugShape | src/pages/ProductCreate.tsx:119 | a string that already has slug shape passes the run replacement unchanged |
| ProductCreate.SlugIdempotent | src/pages/ProductCreate.tsx:119 | the slug of a slug is the slug itself |
| ProductCreate.SlugOfSlug | src/pages/ProductCreate.tsx:116-121 | regenerating from a generated slug gives the same slug |
| ProductCreate.SlugOfPunctuation | src/pages/ProductCreate.tsx:119 | any name whose lower-cased form has no letter or digit gives the empty slug, `"!!!"` among them |
| ProductCreate.SkuPrefix | src/pages/ProductCreate.tsx:111 | the name part has at most six characters from `[A-Z0-9]` and is a prefix of the upper-cased name with everything else removed, all of it when that is shorter |
| ProductCreate.SkuSplits | src/pages/ProductCreate.tsx:111 | an SKU splits at its only `-` into the name part and the clock digits |
| ProductCreate.SkuClockDigits | src/pages/ProductCreate.tsx:111 | the clock part has at most four digits, which read back as the clock value modulo 10 000 |
| ProductCreate.AddUnique | src/pages/ProductCreate.tsx:127-129 | the entry is in the result; an entry already present leaves the list as it was, a new one is appended |
| ProductCreate.AddEntryCorrect | src/pages/ProductCreate.tsx:124-132 | the list grows by the trimmed input iff that is non-blank and new; a non-blank input is cleared, a blank one kept; trimmed, non-blank, duplicate-free lists stay so |
| ProductCreate.AppendKeepsEntryList | src/pages/ProductCreate.tsx:128 | a trimmed, non-blank, new entry keeps the list trimmed, non-blank and duplicate-free |
| ProductCreate.RemoveAllCorrect | src/pages/ProductCreate.tsx:134-137 | the removed entry is gone, every other entry keeps its number of occurrences, in a duplicate-free list only its position goes, and a missing entry changes nothing |
| ProductCreate.RemoveAllAt | src/pages/ProductCreate.tsx:136 | in a duplicate-free list, removing the entry at position i removes exactly that position |
| ProductCreate.RemoveAllKeepsShape | src/pages/ProductCreate.tsx:136 | removing keeps a list trimmed, non-blank and duplicate-free |
| ProductCreate.DropIndex | src/pages/ProductCreate.tsx:159-161 | filtering by index drops exactly the element at that index, the rest in order; an index out of range changes nothing |
| ProductCreate.ProfitAnalysis | src/pages/ProductCreate.tsx:432 | the panel is shown iff both prices are set and positive |
| ProductCreate.ProfitAnalysisProperties | src/pages/ProductCreate.tsx:437-451 | the profit is selling minus cost; the margin is below 100 % and has the profit's sign; the markup has the profit's sign and exceeds the margin when the profit is positive; margin and markup give the profit back |
| ProductCreate.Ratio | src/pages/ProductCreate.tsx:445-451 | a ratio to a positive base gives the amount back, has the amount's sign, and is below 1 when the amount is below the base |
| ProductCreate.RatioToSmallerBase | src/pages/ProductCreate.tsx:445-451 | a positive amount is a larger share of the smaller base, so the markup exceeds the margin |
| ProductCreate.ProfitAnalysisExample | src/pages/ProductCreate.tsx:432-451 | cost 45 and price 90 give profit 45, margin 50 %, markup 100 %; an unset or zero cost hides the panel |
| ProductCreate.ProductForm.constructor | src/pages/ProductCreate.tsx:71-84 | the form starts with no name, SKU, slug, tags, keywords, typed inputs or images |
| ProductCreate.ProductForm.GenerateSku | src/pages/ProductCreate.tsx:108-114 | with a name the SKU becomes the SKU of the name and the clock value; with an empty name it stays as it was |
| ProductCreate.ProductForm.GenerateSlug | src/pages/ProductCreate.tsx:116-122 | with a name the slug field becomes the name's slug; with an empty name it stays as it was; a slug field stays a slug |
| ProductCreate.ProductForm.AddTag | src/pages/ProductCreate.tsx:124-132 | the tag list and the tag input become what adding the typed input gives; the list stays trimmed, non-blank and duplicate-free |
| ProductCreate.ProductForm.RemoveTag | src/pages/ProductCreate.tsx:134-137 | the tag list loses exactly the entries equal to the tag and keeps its shape |
| ProductCreate.ProductForm.AddKeyword | src/pages/ProductCreate.tsx:139-147 | as AddTag, on the search keywords and their input |
| ProductCreate.ProductForm.RemoveKeyword | src/pages/ProductCreate.tsx:149-152 | as RemoveTag, on the search keywords |
| ProductCreate.ProductForm.AddImages | src/pages/ProductCreate.tsx:154-157 | the chosen files are appended after the current images |
| ProductCreate.ProductForm.RemoveImage | src/pages/ProductCreate.tsx:159-161 | only the image at that index is removed, the others keep their order |
| SalesOrders.NextSortCases | src/pages/SalesOrders.tsx:76-83 | clicking the current column flips the direction; another column is selected ascending |
| SalesOrders.NextSort | src/pages/SalesOrders.tsx:76-83 | the sort state after a header click: the same column flips the direction, another column becomes the sort column ascending; stated by `NextSortCases` and `NextSortTwice` |
| SalesOrders.NextSortTwice | src/pages/SalesOrders.tsx:76-78 | clicking the same column twice restores the sort state |
| SalesOrders.LexCompareAntisymmetric | src/pages/SalesOrders.tsx:98-99 | swapping the arguments negates the sign of the comparison |
| SalesOrders.LexCompareZero | src/pages/SalesOrders.tsx:98-99 | the comparison is zero only for equal strings |
| SalesOrders.LexCompareTransitive | src/pages/SalesOrders.tsx:98-99 | the order that the comparison induces is transitive |
| SalesOrders.Key | src/pages/SalesOrders.tsx:93-94 | `order[field]`: the string key fields as text, `total` and `items` as numbers |
| SalesOrders.Compare | src/pages/SalesOrders.tsx:92-107 | the comparator: `localeCompare` on strings, the difference on numbers, the arguments swapped when descending, 0 otherwise; antisymmetry and transitivity are stated by `CompareAntisymmetric` and `CompareTransitive` |
| SalesOrders.CompareAntisymmetric | src/pages/SalesOrders.tsx:92-107 | for every column and direction, swapping two orders negates the sign of the comparator |
| SalesOrders.CompareTransitive | src/pages/SalesOrders.tsx:92-107 | for every column and direction the comparator's "not above" relation is transitive |
| SalesOrders.Insert | src/pages/SalesOrders.tsx:92-107 | inserting one order into a list keeps its elements and adds exactly that order |
| SalesOrders.SortOrders | src/pages/SalesOrders.tsx:92-107 | the sorted list is a permutation of the input |
| SalesOrders.ConsSorted | src/pages/SalesOrders.tsx:92-107 | an order that is at or below every element of a sorted list can go in front of it |
| SalesOrders.SortedTail | src/pages/SalesOrders.tsx:92-107 | the tail of a sorted list is sorted and its head is at or below every later element |
| SalesOrders.InsertSorted | src/pages/SalesOrders.tsx:92-107 | inserting into a sorted list leaves it sorted |
| SalesOrders.SortOrdersCorrect | src/pages/SalesOrders.tsx:92-107 | the sorted rows are a permutation of the filtered rows, in comparator order |
| SalesOrders.SortByTotal | src/pages/SalesOrders.tsx:102-104 | sorted by total, ascending is non-decreasing and descending is non-increasing |
| SalesOrders.SortByCustomerName | src/pages/SalesOrders.tsx:96-100 | sorted by customer name, ascending and descending follow lexicographic order |
| SalesOrders.VisibleCorrect | src/pages/SalesOrders.tsx:85-107 | every shown row is an order whose customer name or id contains the term and whose status is selected or "all"; every such order is shown as often as it occurs, in comparator order |
| SalesOrders.MatchesSearch | src/pages/SalesOrders.tsx:87-88 | the customer name or the order id contains the search term, ignoring case |
| SalesOrders.Visible | src/pages/SalesOrders.tsx:85-107 | the table rows: the filtered orders, then sorted by the comparator; `VisibleCorrect` states membership, multiplicities and order |
| SalesOrders.EmptySearchShowsAll | src/pages/SalesOrders.tsx:86-91 | an empty search with status "all" shows every order |
| SalesOrders.RevenueExcludesCancelled | src/pages/SalesOrders.tsx:126 | revenue plus the cancelled totals is the sum of all totals; with non-negative totals revenue is at most that sum |
| SalesOrders.TotalRevenue | src/pages/SalesOrders.tsx:126 | the sum of the totals of the orders that are not cancelled; `RevenueExcludesCancelled` relates it to the sum over all orders |
| SalesOrders.PendingOrders | src/pages/SalesOrders.tsx:128 | the number of pending orders; `PendingAtMostAll` bounds it by the number of orders |
| SalesOrders.PendingAtMostAll | src/pages/SalesOrders.tsx:127-128 | pending and non-pending orders add up to all orders, so the pending card never exceeds the order count |
| SalesOrders.StatusBadge | src/pages/SalesOrders.tsx:109-124 | the outline variant is chosen exactly for a status other than the five known ones, and then the badge shows the status itself |
| SalesOrders.MockNotCancelled | src/pages/SalesOrders.tsx:20-67 | the first four sample orders are not cancelled |
| SalesOrders.MockStatuses | src/pages/SalesOrders.tsx:20-67 | only the last sample order is cancelled |
| SalesOrders.MockRevenue | src/pages/SalesOrders.tsx:126 | the sample revenue is 4651.25 |
| SalesOrders.MockKeptTotal | src/pages/SalesOrders.tsx:20-67 | the four sample orders that are not cancelled total 4651.25 |
| SalesOrders.MockPending | src/pages/SalesOrders.tsx:128 | one sample order is pending |
| SalesOrders.SalesOrdersPage.constructor | src/pages/SalesOrders.tsx:70-74 | the page opens on the sample orders, no search, status "all", sorted by order date descending |
| SalesOrders.SalesOrdersPage.HandleSort | src/pages/SalesOrders.tsx:76-83 | the sort state becomes the next state of the click: a flipped direction on the same column, ascending on another |
| Categories.ToggleMembership | src/pages/Categories.tsx:85-93 | toggling changes the membership of exactly that id |
| Categories.ToggleTwice | src/pages/Categories.tsx:85-93 | toggling twice restores the set |
| Categories.Rows | src/pages/Categories.tsx:95-155 | a category's rows start with its own row at its level |
| Categories.RowsList | src/pages/Categories.tsx:151-153 | a list of categories renders at least one row per category |
| Categories.CollapsedIsOneRow | src/pages/Categories.tsx:96-153 | a collapsed category, or one without children, is exactly one row |
| Categories.RowsLevels | src/pages/Categories.tsx:103-153 | every row is at the start level or deeper and indented 24 pixels per level; a row after the first is one level deeper or more |
| Categories.RowsListLevels | src/pages/Categories.tsx:103-153 | the same for the rows of a list of categories |
| Categories.RowsListTopLevel | src/pages/Categories.tsx:95-155 | the rows at the list's own level are one per category, in order |
| Categories.NoneAtLevel | src/pages/Categories.tsx:151-153 | rows that are all deeper than a level contain none at that level |
| Categories.RowsMonotone | src/pages/Categories.tsx:96-153 | expanding more categories never shows fewer rows |
| Categories.RowsListMonotone | src/pages/Categories.tsx:96-153 | the same for a list of categories |
| Categories.FilterCategoriesCorrect | src/pages/Categories.tsx:158-160 | the search keeps exactly the top-level categories whose name contains the term, ignoring case, in order; children are never matched on their own |
| Categories.FilterCategories | src/pages/Categories.tsx:158-160 | the top-level categories whose name contains the term, ignoring case; `FilterCategoriesCorrect` states membership, order and the empty term |
| Categories.Round | src/pages/Categories.tsx:207 | the rounded value is the nearest integer, halves rounded up |
| Categories.AverageProducts | src/pages/Categories.tsx:162-207 | no average without categories; otherwise it is within one half of the total divided by the number of top-level categories |
| Categories.MockSummaries | src/pages/Categories.tsx:41-79 | five top-level categories hold 142 products, and the average card shows 28 |
| Categories.MockParentsSumChildren | src/pages/Categories.tsx:41-79 | each sample parent's product count is the sum of its children's |
| Categories.LeavesOneRowEach | src/pages/Categories.tsx:97-153 | childless categories render one row each |
| Categories.MockInitialRows | src/pages/Categories.tsx:83-155 | with both sample parents open on first render the table shows 11 rows, 5 top-level and 6 children |
| Categories.CategoriesPage.constructor | src/pages/Categories.tsx:82-83 | the page starts with no search and categories 1 and 2 expanded |
| Categories.CategoriesPage.ToggleCategory | src/pages/Categories.tsx:85-93 | the expanded set becomes its toggle at that id |
| PurchaseOrders.FilterMovementsCorrect | src/pages/PurchaseOrders.tsx:127-133 | a movement is shown iff its product name or reason contains the term, ignoring case, and its type is selected or "all"; order is kept |
| PurchaseOrders.MatchesSearch | src/pages/PurchaseOrders.tsx:128-129 | the product name or the reason contains the search term, ignoring case |
| PurchaseOrders.FilterMovements | src/pages/PurchaseOrders.tsx:127-133 | the movements matching the search and the type dropdown; stated by `FilterMovementsCorrect` |
| PurchaseOrders.QuantityDisplay | src/pages/PurchaseOrders.tsx:365-366 | the sign for the movement type followed by the absolute quantity; its parts are stated by `QuantityDisplayParts` |
| PurchaseOrders.QuantityDisplayParts | src/pages/PurchaseOrders.tsx:365-366 | the quantity cell is `+` for stock in, `-` for stock out and no sign for an adjustment, then the numeral of the absolute quantity |
| PurchaseOrders.MockMovements | src/pages/PurchaseOrders.tsx:49-86 | every sample movement balances: the new stock is the old stock plus the quantity for in and adjustment, minus it for out; the quantity cells read "+50", "-5" and "2" |
| PurchaseOrders.BadgeAgreesWithCard | src/pages/PurchaseOrders.tsx:272-289 | the stock colour, the stock badge and the product card's status always agree |
| PurchaseOrders.StockColor | src/pages/PurchaseOrders.tsx:272-276 | the colour of the stock number: red at 0, yellow at or below the threshold, green otherwise; `BadgeAgreesWithCard` proves it equals the product card's colour |
| PurchaseOrders.BadgeOf | src/pages/PurchaseOrders.tsx:283-289 | the stock badge of a product row; `BadgeAgreesWithCard` states its three cases and its agreement with the product card |
| PurchaseOrders.OutOfStockWithinLowStock | src/pages/PurchaseOrders.tsx:135-136 | with non-negative thresholds every out-of-stock product is a low-stock product, occurrence by occurrence, so the card counts are ordered |
| PurchaseOrders.TotalStockValueProperties | src/pages/PurchaseOrders.tsx:137 | the stock value is non-negative when stocks and costs are, and is the same for any order of the products |
| PurchaseOrders.MockOverview | src/pages/PurchaseOrders.tsx:135-137 | the sample catalogue has two low-stock products, one out of stock, and stock worth 17470 |
| PurchaseOrders.MockStockValue | src/pages/PurchaseOrders.tsx:137 | the sample stock is worth 17470 |
| ProductCard.StatusOfCases | src/components/ProductCard.tsx:33-59 | exactly one status holds: stock 0 is out of stock whatever the threshold, other stock at or below the threshold is low, the rest is in stock |
| ProductCard.StatusOf | src/components/ProductCard.tsx:33-59 | `getStockStatus`: out of stock at 0, low stock at or below the threshold, otherwise in stock, each with its colours and label; stated by `StatusOfCases` and `StatusLabels` |
| ProductCard.StatusLabels | src/components/ProductCard.tsx:36-57 | each status carries its own label, and different statuses have different labels |
| ProductCard.LowStockListAgreesWithCard | src/components/ProductCard.tsx:43 | with a non-negative threshold a product is in the low-stock list iff its card does not say "In Stock" |
| DummyData.LowStockCorrect | src/constants/dummyData.ts:246-248 | every listed product is at or below its threshold, every such product is listed as often as it occurs, in the original order |
| DummyData.MockLowStock | src/constants/dummyData.ts:112-248 | the sample low-stock list is exactly products 3 and 4 |
| DummyData.MockOutOfStockStatus | src/constants/dummyData.ts:155-164 | the only sample product marked out of stock has stock 0 |
| Invoices.FilterInvoicesCorrect | src/pages/Invoices.tsx:117-126 | an invoice is listed iff its number, customer name or e-mail contains the term, ignoring case, and its status is selected or "all"; order is kept |
| Invoices.MatchesSearch | src/pages/Invoices.tsx:118-121 | the invoice number, customer name or customer e-mail contains the search term, ignoring case |
| Invoices.FilterInvoices | src/pages/Invoices.tsx:117-126 | the invoices matching the search and the status dropdown; stated by `FilterInvoicesCorrect` |
| Invoices.EmptySearchShowsAll | src/pages/Invoices.tsx:117-126 | an empty search with status "all" lists every invoice |
| Invoices.OutstandingIsUnpaidSum | src/pages/Invoices.tsx:128-199 | the outstanding amount is the sum over the invoices that are not paid, cancelled ones included; with non-negative amounts the paid amount is at most the total |
| Invoices.Outstanding | src/pages/Invoices.tsx:128-199 | the outstanding card: total minus paid; `OutstandingIsUnpaidSum` proves it is the sum over the unpaid invoices |
| Invoices.CountsPartition | src/pages/Invoices.tsx:174-202 | every invoice is counted once as paid, cancelled or pending |
| Invoices.StatusLabelCorrect | src/pages/Invoices.tsx:296 | the label is the status with a capital first letter, it lower-cases back, and different statuses have different labels |
| Invoices.StatusLabel | src/pages/Invoices.tsx:296 | the badge text: the status with its first letter capitalised; stated by `StatusLabelCorrect` |
| Invoices.StatusColor | src/pages/Invoices.tsx:96-102 | the `statusColors` entry of a status: green exactly for paid, red exactly for overdue |
| Invoices.StatusColorsDistinct | src/pages/Invoices.tsx:96-102 | the five statuses get five different colours, in both directions |
| Invoices.MockSummary | src/pages/Invoices.tsx:49-94 | the sample cards: total 4651.25, paid 1250, outstanding 3401.25, one overdue invoice |
| Invoices.MockTotal | src/pages/Invoices.tsx:128 | the sample total is 4651.25 |
| Invoices.MockPaid | src/pages/Invoices.tsx:129-131 | the sample paid amount is 1250 |
| Invoices.MockCounts | src/pages/Invoices.tsx:132-202 | the sample has no cancelled invoice, one overdue and three pending |
| Invoices.OverdueLabel | src/pages/Invoices.tsx:296 | the status "overdue" is shown as "Overdue" |
| Payments.FilterPaymentsCorrect | src/pages/Payments.tsx:70-75 | a payment is listed iff its customer name or id contains the term, ignoring case, and its status is selected or "all"; order is kept |
| Payments.MatchesSearch | src/pages/Payments.tsx:71-72 | the customer name or the payment id contains the search term, ignoring case |
| Payments.FilterPayments | src/pages/Payments.tsx:70-75 | the payments matching the search and the status dropdown; stated by `FilterPaymentsCorrect` |
| Payments.StatusBadge | src/pages/Payments.tsx:77-88 | completed gets the default variant, pending the secondary and failed the destructive, each with its capitalised label; an unknown status gets the outline variant and shows itself |
| Payments.CountsPartition | src/pages/Payments.tsx:96-97 | completed, pending and failed payments together are all of them, so completed plus pending is at most the count |
| Payments.TotalIncludesEveryStatus | src/pages/Payments.tsx:95 | the total is the completed, pending and failed sums added together |
| Payments.MockSummary | src/pages/Payments.tsx:23-60 | the sample total is 4651.25, with two completed payments and one pending |
| Integrations.Toggle | src/pages/Integrations.tsx:72-78 | toggling keeps the length of the list |
| Integrations.ToggleCorrect | src/pages/Integrations.tsx:72-78 | toggling inverts `enabled` exactly on the integrations with that id and changes no other field; an unknown id changes nothing |
| Integrations.ToggleTwice | src/pages/Integrations.tsx:72-78 | toggling the same id twice restores the list |
| Integrations.ToggleCommutes | src/pages/Integrations.tsx:72-78 | toggles of two ids give the same list in either order |
| Integrations.CategoriesFacts | src/pages/Integrations.tsx:107-127 | each category is listed once, and exactly the categories of the integrations are listed |
| Integrations.GroupByCategory | src/pages/Integrations.tsx:107-113 | the one-pass grouping returns the categories in first-appearance order, a group for exactly those categories, and each group holding its category's integrations in list order |
| Integrations.GroupStep | src/pages/Integrations.tsx:108-111 | one step of the pass creates a missing group and pushes the integration onto its own group only |
| Integrations.CategoriesAppend | src/pages/Integrations.tsx:108-110 | a further integration appends its category unless it is already listed |
| Integrations.GroupsAppend | src/pages/Integrations.tsx:111 | a further integration is appended to its category's group and to no other |
| Integrations.InCategoryEmpty | src/pages/Integrations.tsx:107-113 | a category no integration has has an empty group |
| Integrations.InCategoryAppend | src/pages/Integrations.tsx:111 | the group of a category grows only by integrations of that category |
| Integrations.GroupSizesCons | src/pages/Integrations.tsx:107-113 | one integration more in front adds one to the group sizes when its category is a key |
| Integrations.GroupSizesCover | src/pages/Integrations.tsx:107-113 | the group sizes over distinct keys covering every category add up to the number of integrations |
| Integrations.GroupingPartition | src/pages/Integrations.tsx:107-113 | grouping partitions the list: each integration is in its own category's group, as often as it occurs, and the group sizes sum to the total |
| Integrations.GroupKeepsOrder | src/pages/Integrations.tsx:111 | within a group the integrations keep their list order |
| Integrations.CategoriesOfPrefix | src/pages/Integrations.tsx:107-113 | reading more of the list only appends categories |
| Integrations.GroupOrder | src/pages/Integrations.tsx:107-127 | the groups appear in first-appearance order: a later group's integrations all come after the first integration of an earlier one |
| Integrations.CategoryColor | src/pages/Integrations.tsx:96-105 | the gray class is returned exactly for a category other than the five known ones |
| Integrations.StatusBadge | src/pages/Integrations.tsx:91-94 | the default variant exactly for "Connected"; the text is the status |
| Integrations.CountBadge | src/pages/Integrations.tsx:132 | the badge starts with the count's numeral and ends in `s` iff the count is not one |
| Integrations.MockGroups | src/pages/Integrations.tsx:15-70 | the sample list forms the five groups Payment, Accounting, Automation, Marketing, Communication, in this order |
| Integrations.MockCategories | src/pages/Integrations.tsx:15-70 | the sample categories in first-appearance order are the five listed above |
| Integrations.SixCategories | src/pages/Integrations.tsx:107-113 | six integrations whose categories are a, a, b, c, d, e, all different, give the categories a, b, c, d, e |
| Integrations.FirstThreeCategories | src/pages/Integrations.tsx:107-113 | the first three of such a list give the categories a, b |
| Integrations.CategoriesStep | src/pages/Integrations.tsx:108-110 | reading one integration more adds its category unless it is already listed |
| Integrations.MockPaymentGroup | src/pages/Integrations.tsx:15-70 | the sample Payment group is Stripe then PayPal |
| Integrations.IntegrationsPage.constructor | src/pages/Integrations.tsx:15-70 | the page starts with the six sample integrations |
| Integrations.IntegrationsPage.HandleToggle | src/pages/Integrations.tsx:72-78 | the list state becomes its toggled copy |
| Customers.FilterCustomersCorrect | src/pages/Customers.tsx:63-72 | a customer is listed iff the search, the status and the group accept it, "all" switching a dropdown off; order is kept |
| Customers.MatchesSearch | src/pages/Customers.tsx:64-66 | the name or e-mail contains the term ignoring case, or the phone contains it exactly |
| Customers.FilterCustomers | src/pages/Customers.tsx:63-72 | the customers matching the search and the status and group dropdowns; stated by `FilterCustomersCorrect` |
| Customers.PhoneMatchIsCaseSensitive | src/pages/Customers.tsx:64-66 | the phone is matched against the term as typed: a customer whose only text is the phone "X" does not match the term "x", although "X" matches "x" ignoring case |
| Customers.CardCounts | src/pages/Customers.tsx:111-140 | the active customers are at most all customers, the rest are inactive, and Premium plus VIP is at most all customers |
| Customers.PremiumAndVip | src/pages/Customers.tsx:126-140 | no customer is counted both as Premium and as VIP |
| Customers.StatusBadge | src/pages/Customers.tsx:74-80 | the default variant exactly for active customers; the label lower-cases to the status name |
| Customers.Create | src/pages/Customers.tsx:82-89 | one customer is appended at the end under "CUST-" and the zero-padded count plus one; the others are unchanged |
| Customers.CreateKeepsIdsSequential | src/pages/Customers.tsx:84-87 | creating keeps the identifiers sequential, so the new identifier is different from every existing one |
| Customers.MockIds | src/pages/Customers.tsx:21-84 | the sample customers carry the identifiers 1 to 4, and the next is "CUST-005" |
| Customers.CustomersPage.constructor | src/pages/Customers.tsx:57 | the page starts with the sample customers |
| Customers.CustomersPage.HandleCreate | src/pages/Customers.tsx:82-89 | the list state becomes the old list with the new customer appended |
| Vendors.FilterVendorsCorrect | src/pages/Vendors.tsx:54-62 | a vendor is listed iff its name, contact person or e-mail contains the term, ignoring case, and its status is selected or "all"; order is kept |
| Vendors.MatchesSearch | src/pages/Vendors.tsx:55-57 | the vendor name, contact person or e-mail contains the search term, ignoring case |
| Vendors.FilterVendors | src/pages/Vendors.tsx:54-62 | the vendors matching the search and the status dropdown; stated by `FilterVendorsCorrect` |
| Vendors.CardsAddUp | src/pages/Vendors.tsx:101-121 | active and inactive vendors add up to all vendors |
| Vendors.Create | src/pages/Vendors.tsx:72-79 | one vendor is appended at the end under "VEND-" and the zero-padded count plus one; the others are unchanged |
| Vendors.CreateKeepsIdsSequential | src/pages/Vendors.tsx:74-77 | creating keeps the identifiers sequential, so the new identifier is new |
| Vendors.MockVendorsFacts | src/pages/Vendors.tsx:21-121 | the sample vendors carry identifiers 1 to 3, the next is "VEND-004", two are active and one inactive |
| Vendors.MockIds | src/pages/Vendors.tsx:21-74 | the sample identifiers are sequential and the next is "VEND-004" |
| Vendors.MockCounts | src/pages/Vendors.tsx:110-120 | two sample vendors are active and one is inactive |
| Vendors.VendorsPage.constructor | src/pages/Vendors.tsx:49 | the page starts with the sample vendors |
| Vendors.VendorsPage.HandleCreate | src/pages/Vendors.tsx:72-79 | the list state becomes the old list with the new vendor appended |
| CustomerGroups.FilterGroupsCorrect | src/pages/CustomerGroups.tsx:43-46 | a group is listed iff its name or description contains the term, ignoring case; order is kept; an empty term lists every group |
| CustomerGroups.MatchesSearch | src/pages/CustomerGroups.tsx:44-45 | the group name or the description contains the search term, ignoring case |
| CustomerGroups.FilterGroups | src/pages/CustomerGroups.tsx:43-46 | the groups matching the search; stated by `FilterGroupsCorrect` |
| CustomerGroups.Create | src/pages/CustomerGroups.tsx:48-56 | one group is appended at the end under "GRP-" and the zero-padded count plus one, dated with the clock's calendar date; the others are unchanged |
| CustomerGroups.CreatedDateOverridesSubmitted | src/pages/CustomerGroups.tsx:49-53 | the creation date comes from the clock alone: a date in the submitted data is overridden |
| CustomerGroups.CreateKeepsIdsSequential | src/pages/CustomerGroups.tsx:50-54 | creating keeps the identifiers sequential, so the new identifier is new |
| CustomerGroups.MockIds | src/pages/CustomerGroups.tsx:17-50 | the sample groups carry identifiers 1 to 3, and the next is "GRP-004" |
| CustomerGroups.CustomerGroupsPage.constructor | src/pages/CustomerGroups.tsx:39 | the page starts with the sample groups |
| CustomerGroups.CustomerGroupsPage.HandleCreate | src/pages/CustomerGroups.tsx:48-56 | the list state becomes the old list with the new group appended |
| UserManagement.FilterUsersCorrect | src/pages/UserManagement.tsx:47-52 | a user is listed iff the name or e-mail contains the term, ignoring case, and the role and the status are selected or "all"; order is kept |
| UserManagement.MatchesSearch | src/pages/UserManagement.tsx:48-49 | the name or the e-mail contains the search term, ignoring case |
| UserManagement.FilterUsers | src/pages/UserManagement.tsx:47-53 | the users matching the search and the role and status dropdowns; stated by `FilterUsersCorrect` |
| UserManagement.NarrowingRole | src/pages/UserManagement.tsx:50 | choosing one role instead of "all" keeps a subsequence of the rows listed for "all" |
| UserManagement.StatusBadge | src/pages/UserManagement.tsx:69-72 | the default variant exactly for "Active"; the text is the status |
| UserManagement.RoleColor | src/pages/UserManagement.tsx:74-85 | the gray class is returned exactly for an unknown role; Admin is red |
| UserManagement.RoleColorsDistinct | src/pages/UserManagement.tsx:75-79 | the three known roles get three different colours |
| FinancialReports.FilterReportsCorrect | src/pages/FinancialReports.tsx:46-51 | a report is listed iff its name contains the term, ignoring case, and its type and status are selected or "all"; order is kept |
| FinancialReports.FilterReports | src/pages/FinancialReports.tsx:46-51 | the reports matching the search and the dropdowns; stated by `FilterReportsCorrect` and `EmptySearch` |
| FinancialReports.EmptySearch | src/pages/FinancialReports.tsx:47 | with an empty term only the dropdowns decide |
| FinancialReports.StatusBadge | src/pages/FinancialReports.tsx:59-62 | "Completed" is default, "In Progress" secondary, anything else destructive; the text is the status |
| FinancialReports.MockFilters | src/pages/FinancialReports.tsx:19-49 | the status "Failed" lists no sample report, "Completed" lists reports 1 and 3 |
| FinancialReports.MockFailed | src/pages/FinancialReports.tsx:19-49 | the status "Failed" lists no sample report |
| FinancialReports.MockCompleted | src/pages/FinancialReports.tsx:19-49 | the status "Completed" lists sample reports 1 and 3 |
| TaxReports.FilterReportsCorrect | src/pages/TaxReports.tsx:46-51 | a report is listed iff its name contains the term, ignoring case, and its tax type and status are selected or "all"; order is kept |
| TaxReports.FilterReports | src/pages/TaxReports.tsx:46-51 | the reports matching the search and the dropdowns; stated by `FilterReportsCorrect` and `EmptySearch` |
| TaxReports.EmptySearch | src/pages/TaxReports.tsx:47 | with an empty term only the dropdowns decide |
| TaxReports.StatusBadge | src/pages/TaxReports.tsx:59-62 | "Filed" is default, "In Progress" secondary, anything else destructive; the text is the status |
| TaxReports.MockFilters | src/pages/TaxReports.tsx:19-49 | the tax type "VAT" lists only the first sample report and the status "Overdue" lists none |
| InventoryReports.FilterReportsCorrect | src/pages/InventoryReports.tsx:42-47 | a report is listed iff its name contains the term, ignoring case, and its warehouse and type are selected or "all"; order is kept |
| InventoryReports.FilterReports | src/pages/InventoryReports.tsx:42-47 | the reports matching the search and the warehouse and type dropdowns; stated by `FilterReportsCorrect` and `EmptySearch` |
| InventoryReports.EmptySearch | src/pages/InventoryReports.tsx:42-47 | with an empty term only the dropdowns decide; with both at "all" every report is listed, in order |
| InventoryReports.MockFilters | src/pages/InventoryReports.tsx:18-44 | "Main Warehouse" lists sample reports 1 and 3, "Distribution Center" none, no filter all three in order |
| InventoryReports.MockNamesMatchEmpty | src/pages/InventoryReports.tsx:18-43 | every sample report name matches the empty search |
| InventoryReports.MockMainWarehouse | src/pages/InventoryReports.tsx:18-44 | "Main Warehouse" lists sample reports 1 and 3 |
| InventoryReports.MockDistributionCenter | src/pages/InventoryReports.tsx:18-44 | "Distribution Center" lists no sample report |
| Listing.NextIdReadsBack | src/pages/Customers.tsx:84 | the part of a generated identifier after the prefix reads back as the record count plus one |
| Listing.NextId | src/pages/Customers.tsx:84 | the prefix followed by only digits, exactly as many as count + 1 has or three when it has fewer; read back as count + 1 by `NextIdReadsBack` and injective by `NextIdInjective` |
| Listing.NextIdInjective | src/pages/Vendors.tsx:74 | different record counts never give the same identifier |
| Listing.AppendNextId | src/pages/CustomerGroups.tsx:50-54 | appending a record with the next identifier keeps the identifiers sequential, and that identifier is new |
| Listing.FilterMembers | src/pages/Invoices.tsx:117 | a filter keeps exactly the elements that satisfy its condition |
| Listing.FilterConcat | src/pages/Payments.tsx:70 | filtering a concatenation filters each part, so the kept elements stay in input order |
| Listing.SumPermutation | src/pages/Invoices.tsx:128 | a `reduce` sum does not depend on the order of its terms |
| Text.ContainsIff | src/pages/Vendors.tsx:55 | `includes` holds iff the term occurs at some position of the text |
| Text.MatchesIgnoringCaseAt | src/pages/Vendors.tsx:55 | a case-insensitive match places the term, letter case aside, at some position of the field |
| Text.MatchesEmptyTerm | src/pages/CustomerGroups.tsx:44 | the empty term matches every field |
| Text.Trim | src/pages/ProductCreate.tsx:125 | the result is a slice of the input with only white space before it and after it, has no white space at either end, and is empty iff the input is all white space |
| Text.DecimalRoundTrip | src/pages/Customers.tsx:84 | the numeral of a number reads back as that number |
| Text.TakeLastValue | src/pages/InvoiceCreate.tsx:66 | the last k digits of a numeral denote the number modulo 10 to the k |
| Text.CapitalizeLowersBack | src/pages/Invoices.tsx:296 | a word without capitals lower-cases back to itself once capitalised |
| Text.Capitalize | src/pages/Invoices.tsx:296 | the first character upper-cased and the rest kept; `CapitalizeLowersBack` states it lower-cases back |

## Left out

- Rendering: the JSX, the UI component library, CSS classes beyond the colour lookups above, dialogs,
  toasts, the theme and the invoice preview. They are presentational.
- The scheduling of the form library: `register`, `watch`, `setValue`, `useFieldArray` and when
  the totals effect runs. `InvoiceCreate.InvoiceDraft.Recompute` is called explicitly after an edit.
  The field identifiers `useFieldArray` hands out are not modelled.
- Form validation beyond the e-mail check: the `required`, `min: 0.01` and `min: 0` rules of the
  invoice rows, and every rule of the product form. They run in the form library, not in the page.
- Floating point: money is exact `real`, so `toFixed`, `Intl.NumberFormat`, `toLocaleString` and
  the date formatting are not modelled.
- Text: `toLowerCase` and `toUpperCase` are ASCII only, and `localeCompare` is plain lexicographic
  order on characters. Collation and Unicode case mapping are not modelled.
- SalesOrders.SortOrders: JavaScript's `sort` is stable. The model sorts with a stable insertion
  sort, but stability is not proved.
- Integrations.GroupByCategory: object keys are taken in insertion order. JavaScript lists
  integer-like keys first, but no category name is integer-like.
- The colour lookups index a plain object, so a key such as `"constructor"` would reach the
  object's prototype. The model treats every name outside the table as unknown.
- Integrations.GroupByCategory: the `reduce` accumulator is a plain object too, so a category named
  `"constructor"` or `"toString"` would find an inherited function and the `push` would throw. The
  model starts every category with an empty group; no category of the page's fixed data is such a
  name.
- Customers.Create, Vendors.Create and CustomerGroups.Create: the submitted data is spread after
  the generated identifier, so data that carried an `id` of its own would override it. The create
  dialogs never send one, and the model's submitted data has no `id` field.
- The Vendors page's status badge and the icon lookups of the Invoices and stock-movement pages are
  presentational.
- I/O: the simulated API calls with `setTimeout`, file uploads and object URLs, submit handlers
  that only log, and the Electron IPC bridge.
- The clock is a parameter. `Date.now()` is `now`, and `toISOString` is the opaque function
  `isoOf`, so the calendar arithmetic behind the dates is not modelled.
- InvoiceCreate.InvoiceDraft.constructor: the invoice defaults read the clock three times, with
  `Date.now()` for the number, `new Date()` for the issue date and `Date.now()` again for the due
  date. The model takes one reading `now` for all three, so it does not capture a number and dates
  that come from different instants.
- Routing, the sidebar, the header, the page context, the dashboard, the company settings page,
  every modal component and the static tables under `src/pages1` hold no logic worth modelling.
  src/pages/Dashboard.tsx is not part of this model.
- The customer dialog's `address` and the other free-text fields are only copied through. The
  model keeps the fields the pages search, filter or show in cards.
