# Yodi admin dashboard: a Dafny model

This project models the rules underneath the Yodi e-commerce admin dashboard, a Next.js application
over a MongoDB store. The rules cover products, orders and customer accounts.

- **Collections.** Each collection is an in-memory sequence of records: `Product`, `Order`, `User`.
  Each schema is a validity predicate, plus a table-wide invariant where the database keeps an index:
  the unique `email` of users and the sparse unique `sku` of products.
- **List endpoints.** `GET /api/products`, `/api/orders` and `/api/users` share one list engine (`ListQuery`):
  - resolve `page` and `limit`;
  - filter by a case-insensitive text match, and by an exact category or status;
  - sort by a fixed key with a stable insertion sort;
  - skip `(page - 1) * limit` records and keep at most `limit`;
  - report `ceil(total / limit)` pages.
- **Statistics.** `GET /api/orders/stats` is a group-by over the orders (`OrderStats`). It groups by status, by calendar
  month inside a window, and by shipping zone. Each group has a count and a summed total. Three normalisations
  follow:
  - the status groups are folded into an object;
  - the month keys become `YYYY-MM` labels;
  - a missing zone becomes "Non spécifiée".
- **Registration.** Sign-up has two routes:
  - `Register.Post` refuses a duplicate email, then a duplicate phone, then asks the SMS provider for a one-time code;
  - `RegisterVerify` checks the code, then stores the submitted fields with the hashed password.
- **Client side.** The pages' state is modelled as classes whose methods replace their fields: the orders dashboard,
  the products list, the new-product form and the sign-in form. Their display rules are functions:
  - the order stepper, the discounted line prices and the order number;
  - the table cells, the pagination buttons and the stock colours;
  - the route gate of `middleware.ts`.

Everything the application gets from outside becomes a parameter:
- the session (`Http.Session`);
- the SMS provider's answer (`string -> OtpReply`);
- `bcrypt.hash` (`string -> string`);
- the ids and timestamps the database assigns;
- the token the middleware finds;
- the instant six months before a statistics request.

Timestamps are `Time.Instant` values (year, month, offset within the month), ordered by `Rank`.

## Model

| member | source | states |
|---|---|---|
| ListQuery.TotalPages | app/api/products/route.ts:53 | `Math.ceil(total / limit)`: the least number of pages of `limit` that hold `total`, and 0 exactly when there are no records |
| ListQuery.Filter | app/api/products/route.ts:39-42 | the selected records are records of the collection that satisfy the filter, and there are no more of them than records |
| ListQuery.FilterComplete | app/api/products/route.ts:39-42 | every record that satisfies the filter is selected |
| ListQuery.FilterAll | app/api/users/route.ts:33-43 | a filter every record meets selects the whole collection |
| ListQuery.FilterExt | app/api/products/route.ts:25-42 | two filters that agree on every record select the same records |
| ListQuery.FilterConcat | app/dashboard/products/new/page.tsx:82-84 | filtering distributes over concatenation, so it keeps the relative order of what it selects |
| ListQuery.SortBySpec | app/api/orders/route.ts:43-44 | the sort returns a permutation of its input (the same multiset) that is non-decreasing by the key |
| ListQuery.InsertSorted | app/api/orders/route.ts:43-44 | inserting into a sorted sequence keeps it sorted |
| ListQuery.InsertPerm | app/api/orders/route.ts:43-44 | inserting adds exactly one record to the multiset |
| ListQuery.Window | app/api/orders/route.ts:45-46 | `.skip(s).limit(l)`: at most `l` records, the ones at positions `s`, `s+1`, ... in order; empty when `s` reaches the length, and `min(l, n - s)` records otherwise |
| ListQuery.WindowSorted | app/api/orders/route.ts:43-46 | a window of a sorted sequence is sorted |
| ListQuery.RunPagination | app/api/products/route.ts:39-55 | `total` counts every match whatever the page; `page` and `limit` are echoed; `totalPages` is the ceiling of `total / limit` |
| ListQuery.RunItems | app/api/products/route.ts:42-45 | the page holds at most `limit` records, sorted by the key, each a matching record of the collection |
| ListQuery.RunPastTheEnd | app/api/products/route.ts:22-45 | the page is empty exactly when `skip >= total`, so every page after the last is empty |
| ListQuery.FirstPageStartsAtFirst | app/api/products/route.ts:22 | page 1 skips nothing: with any match it begins with the first record in key order |
| ListQuery.MatchAllCountsEverything | app/api/users/route.ts:33-43 | a filter every record meets makes `total` the size of the collection |
| ListQuery.SecondPageOfTwentyFive | app/api/products/route.ts:22-55 | with 25 matches, page 2 of 10 holds records 11 to 20 in key order and the block is `{25, 2, 10, 3}` |
| ProductsApi.BuildFilter | app/api/products/route.ts:25-36 | the built filter matches exactly the products the query selects; it has a text clause iff the search is non-empty and a category clause iff the category is neither "" nor "all" |
| ProductsApi.Get | app/api/products/route.ts:11-55 | 401 without a session; otherwise the request runs through the list engine sorted by `updatedAt` descending, with the pagination block, the `limit` bound, the order, the matching and the past-the-end emptiness spelled out |
| ProductsApi.NoCriteriaCountsAll | app/api/products/route.ts:25-39 | an empty search with category "" or "all" counts every product |
| ProductsApi.DefaultsArePageOneOfTen | app/api/products/route.ts:17-22 | absent `page` and `limit` mean page 1 of 10, which skips nothing |
| ProductsApi.ProductStore.Post | app/api/products/route.ts:65-81 | 401 without a session; 201 with the created product when the schema accepts the body and its sku is free; otherwise 500. The store keeps its invariant, only a 201 adds a product, and it adds exactly that one |
| OrdersApi.BuildFilter | app/api/orders/route.ts:26-37 | the built filter matches exactly the orders the query selects; it has a text clause iff the search is non-empty and a status clause iff the status is neither "" nor "all" |
| OrdersApi.Normalize | app/api/orders/route.ts:51-54 | the output status is never missing or empty; a missing or empty status becomes "pending", any other is kept, and every other field is unchanged |
| OrdersApi.NormalizeAll | app/api/orders/route.ts:51-54 | the same orders, in the same order, each normalised |
| OrdersApi.NormalizeIdempotent | app/api/orders/route.ts:51-54 | normalising twice is normalising once |
| OrdersApi.Get | app/api/orders/route.ts:12-64 | 401 unless the session carries a non-empty email; otherwise the page of matching orders, newest first, normalised, with at most `limit` of them and the pagination block; every order has a non-empty status |
| OrdersApi.NormalizedPage | app/api/orders/route.ts:44-54 | normalising a newest-first page of selected orders keeps it newest first, and each entry is a selected order of the collection, normalised |
| UsersApi.PublicDropsOnlyPassword | app/api/users/route.ts:37 | `select("-password")` drops the password and nothing else, and the result does not depend on the password |
| UsersApi.PublicAll | app/api/users/route.ts:36-37 | one public record per user, in order |
| UsersApi.Get | app/api/users/route.ts:11-54 | 401 exactly without a session; otherwise the password-free records of the list engine's page (skip `(page - 1) * limit`, newest first): at most `limit` of them, each a matching user, empty exactly when the skip reaches `total`, and the pagination block with `total` counting every match |
| UsersApi.PublicOfMatches | app/api/users/route.ts:36-37 | every password-free record of a page of matching users is the public record of a matching user of the collection |
| UsersApi.SortedNewestFirst | app/api/users/route.ts:38 | sorting by the negated rank puts the newest account first |
| UsersApi.EmptySearchCountsAll | app/api/users/route.ts:24-43 | an empty search is the empty filter, so `total` is the size of the collection |
| OrderStats.CountKeyPositive | app/api/orders/stats/route.ts:20-22 | a key has a positive count exactly when some order carries it |
| OrderStats.AddSpec | app/api/orders/stats/route.ts:20-24 | accumulating one order adds 1 to the count and its total to the amount of its key alone, creates the key if needed, and keeps the keys distinct |
| OrderStats.GroupBySpec | app/api/orders/stats/route.ts:18-26 | one group per distinct key, whose count is the number of orders with that key and whose amount is the sum of their totals; the counts add up to the number of orders and the amounts to the sum of all totals |
| OrderStats.GroupFields | app/api/orders/stats/route.ts:18-26 | every produced group carries its key's exact count and summed total, and is non-empty |
| OrderStats.NormalizeStatusStats | app/api/orders/stats/route.ts:68-74 | the `reduce` loop produces the left fold of the groups, and its keys are the property names the groups write |
| OrderStats.FoldStatusAt | app/api/orders/stats/route.ts:68-74 | when the property names are distinct, every group's entry survives the fold |
| OrderStats.StatusStatsKeys | app/api/orders/stats/route.ts:18-74 | the normalised object has exactly one property per distinct status of the orders, with "null" for orders without a status |
| OrderStats.StatusStatsValue | app/api/orders/stats/route.ts:18-74 | for each status present, the property holds that status's order count and summed total |
| OrderStats.StatusKeysDistinct | app/api/orders/stats/route.ts:18-74 | the status groups write pairwise distinct property names when no order has the literal status "null" beside one with none |
| OrderStats.StatusTotals | app/api/orders/stats/route.ts:18-26 | the status counts add up to the number of orders and the amounts to the sum of all totals |
| OrderStats.MonthlyStrictlyAscending | app/api/orders/stats/route.ts:38-54 | the month groups have months in 1..12 and are strictly ascending by (year, month), so there is one group per month |
| OrderStats.MonthlyCounts | app/api/orders/stats/route.ts:32-54 | a month has a group exactly when an order inside the window falls in it; each group of the sorted report holds the number of in-window orders of its month and the sum of their totals; the report's counts add up to the number of orders in the window and its amounts to their summed totals, so orders before the cutoff count nowhere |
| OrderStats.MonthlyGroupValues | app/api/orders/stats/route.ts:32-54 | each group of the sorted report counts the in-window orders of its month, at least one, and sums their totals |
| OrderStats.SortSums | app/api/orders/stats/route.ts:48-53 | sorting the groups keeps their summed counts and summed amounts |
| OrderStats.MonthPart | app/api/orders/stats/route.ts:77 | the padded month is two digits whose value is the month |
| OrderStats.LabelParts | app/api/orders/stats/route.ts:77 | a label is the year's digits, a dash and the padded month |
| OrderStats.MonthLabelMarch | app/api/orders/stats/route.ts:77 | March 2025 is labelled "2025-03" |
| OrderStats.MonthLabelNovember | app/api/orders/stats/route.ts:77 | November 2024 is labelled "2024-11" |
| OrderStats.MonthLabelInjective | app/api/orders/stats/route.ts:76-80 | the label determines the year and the month |
| OrderStats.MonthStats | app/api/orders/stats/route.ts:76-80 | one entry per group, in order, with its label, count and amount |
| OrderStats.MonthlyLabelsDistinct | app/api/orders/stats/route.ts:38-80 | no two entries of the monthly report share a label |
| OrderStats.ZoneLabel | app/api/orders/stats/route.ts:83 | a missing or empty zone reads "Non spécifiée"; any other zone keeps its name |
| OrderStats.ZoneStats | app/api/orders/stats/route.ts:82-86 | one entry per zone group, in order, with its label, count and amount |
| OrderStats.ZoneStatsSpec | app/api/orders/stats/route.ts:57-86 | each zone entry counts the orders of its zone and sums their totals, and reads "Non spécifiée" exactly for the missing, empty or literally unspecified zone |
| OrderStats.Get | app/api/orders/stats/route.ts:9-92 | 401 unless the session carries an email; otherwise the three normalised reports, with one status property per distinct status |
| Register.ProviderError | app/api/auth/register/route.ts:52 | `error \|\| "Code OTP invalide"`: a non-empty provider message, or the default |
| Register.Post | app/api/auth/register/route.ts:11-62 | a taken email gives 400 with the email message; otherwise a taken phone gives 400 with the phone message; a code is sent, to the submitted phone, exactly when both checks pass, and the provider's answer maps to 200 "Code OTP envoyé", 500 with its error, or 500 "Erreur lors de l'inscription" |
| Register.StatusCases | app/api/auth/register/route.ts:14-62 | 400 exactly for a duplicate, 200 exactly when both checks pass and the provider succeeds, 500 otherwise |
| Register.EmailCheckedFirst | app/api/auth/register/route.ts:14-22 | a taken email decides the reply whatever the phone and the provider |
| Register.ProviderOnlyAfterChecks | app/api/auth/register/route.ts:14-43 | the provider's answer matters only when both checks pass |
| Register.RegisterExample | app/api/auth/register/route.ts:14-54 | against a collection of one user: their email is refused, their phone is refused, and fresh details reach the provider |
| RegisterVerify.NewUser | app/api/auth/register/verify/route.ts:41-50 | the stored document is the submitted fields with the hashed password |
| RegisterVerify.RestRoundTrip | app/api/auth/register/verify/route.ts:13-50 | every submitted field except `password` and `code` is stored as it was, and `code` is not stored |
| RegisterVerify.Decide | app/api/auth/register/verify/route.ts:9-67 | the code is checked against `rest.phone`; a user is created exactly when the check succeeds and the user can be stored, with 200 "Inscription réussie"; a failed check gives 500 with the provider's error or the default; every other failure gives 500 "Erreur lors de l'inscription" |
| RegisterVerify.CreatedIffOk | app/api/auth/register/verify/route.ts:32-59 | a user is created exactly when the reply is 200, and creating it keeps the collection's invariant |
| RegisterVerify.PasswordOnlyThroughHash | app/api/auth/register/verify/route.ts:46-50 | the plaintext password matters only through its hash |
| RegisterVerify.UserStore.Post | app/api/auth/register/verify/route.ts:52 | the handler inserts exactly the decided user, keeps the invariant, and grows the collection by one exactly on 200 |
| ProductModel.TrimAll | lib/models/product.ts:52-57 | every benefit is trimmed, in order |
| ProductModel.Create | lib/models/product.ts:20-89 | creation succeeds exactly when title, category and image are present, price and stock are at least 0 and the discount (0 when absent) is in [0, 100]; the stored product is valid, trimmed and carries the submitted values |
| ProductModel.TrimmedFields | lib/models/product.ts:22-84 | every `trim: true` field comes out trimmed |
| ProductModel.CreateOfValid | lib/models/product.ts:20-89 | a stored product re-created from its own fields at its update time comes back unchanged, save that `createdAt` takes that time: trimming and defaults are idempotent on stored values |
| ProductModel.DiscountDefaultsToZero | lib/models/product.ts:42-47 | a body without a discount is stored with discount 0 |
| ProductModel.InsertKeepsSkusUnique | lib/models/product.ts:67-72 | inserting a product whose sku is free, or that has none, keeps the skus pairwise distinct |
| ProductModel.WithoutSkusUnconstrained | lib/models/product.ts:67-72 | any number of products without a sku satisfy the sparse index |
| OrderModel.ApplyDefaults | lib/models/order.ts:96-100 | a missing status becomes "pending", a given status is kept, and nothing else changes |
| OrderModel.ValidAfterDefaults | lib/models/order.ts:29-100 | after defaulting, an order is valid exactly when its required fields, `zip` included, are set and its status is not explicitly empty; `message` plays no part |
| OrderModel.ApplyDefaultsIdempotent | lib/models/order.ts:96-100 | defaulting twice is defaulting once |
| UserModel.InsertKeepsTableValid | lib/models/user.ts:17-25 | inserting a valid user whose email is free keeps every user valid and the emails unique |
| UserModel.ZipCountryOptional | lib/models/user.ts:22-23 | `zip` and `country` are optional |
| UserModel.PhoneNotUnique | lib/models/user.ts:20 | a valid collection may hold two users with the same phone |
| OrderStatus.Label | lib/constants.ts:19-38 | a status has a label exactly when it is one of the four keys |
| OrderStatus.KeysDistinct | lib/constants.ts:19-38 | there are four pairwise distinct status keys |
| Time.RankOrder | app/api/orders/route.ts:44 | the rank orders instants by month and then by offset |
| Time.MonthIndexInjective | app/api/orders/stats/route.ts:40-43 | distinct (year, month) pairs have distinct month indexes |
| Text.ContainsIffWindow | app/api/products/route.ts:27-32 | the substring test holds exactly when some window of the text equals the search |
| Text.ContainsIgnoreCaseUpper | app/api/products/route.ts:27-32 | the case-insensitive test ignores upper-casing of either side |
| Text.TrimIsTrimmed | lib/models/product.ts:25 | the trimmed string has no white space at either end and is no longer than the input |
| Text.TrimIdempotent | lib/models/product.ts:25 | trimming twice is trimming once |
| Text.TakeLast | components/order-details-dialog.tsx:218 | `slice(-n)`: the last `n` characters, or the whole string when it is shorter |
| Text.NatToStringRoundTrip | app/api/orders/stats/route.ts:77 | the decimal rendering of a number is digits whose value is the number |
| Text.PadStartZero | app/api/orders/stats/route.ts:77 | `padStart(width, "0")`: the input, preceded by zeros up to the width |
| Lists.ReplaceById | app/dashboard/page.tsx:79-83 | same length; each element with the updated id becomes the update and every other element stays |
| Lists.ReplaceKeepsIds | app/dashboard/page.tsx:79-83 | every position keeps its id, so the records keep their order |
| Lists.ReplaceIdempotent | app/dashboard/page.tsx:79-83 | replacing twice is replacing once |
| Lists.ReplaceAbsent | app/dashboard/page.tsx:79-83 | an update whose id is absent changes nothing |
| Lists.ReplaceInstalls | app/dashboard/page.tsx:79-83 | afterwards, every element with the update's id is the update |
| DashboardPage.CountStatusIsGroupCount | app/dashboard/page.tsx:103-106 | a status card counts exactly the orders with that status, the same number the statistics route groups |
| DashboardPage.StatusCardsBounded | app/dashboard/page.tsx:102-106 | delivered + pending + processing + cancelled is at most the number of orders on the page |
| DashboardPage.StatusCardsExhaustive | app/dashboard/page.tsx:102-106 | when every order has one of the four statuses, the cards add up to the total |
| DashboardPage.EmptyStats | app/dashboard/page.tsx:101-108 | an empty page shows zero everywhere, the amount included |
| DashboardPage.Dashboard.constructor | app/dashboard/page.tsx:30-41 | no orders, an empty search, status "all" and pagination `{0, 1, 10, 0}` |
| DashboardPage.Dashboard.FetchQuery | app/dashboard/page.tsx:43-51 | the query asks for the given page or 1, the current limit, search and status |
| DashboardPage.Dashboard.OnOrdersLoaded | app/dashboard/page.tsx:58-59 | a response replaces the orders and the pagination block and nothing else |
| DashboardPage.Dashboard.OnOrderStatusUpdated | app/dashboard/page.tsx:77-84 | the orders become the replacement by id, with the same length and ids; the other fields are unchanged |
| DashboardPage.InitialFetchSelectsAll | app/dashboard/page.tsx:33-51 | the first fetch is page 1 of 10 with no search and every status, and selects every order |
| ProductsPage.ProductsList.constructor | app/dashboard/products/page.tsx:30-39 | no products, an empty search, category "all" and pagination `{0, 1, 10, 0}` |
| ProductsPage.ProductsList.FetchQuery | app/dashboard/products/page.tsx:43-51 | the query asks for the given page or 1, the current limit, search and category |
| ProductsPage.ProductsList.OnProductsLoaded | app/dashboard/products/page.tsx:57-58 | a response replaces the products and the pagination block |
| ProductsPage.ProductsList.OnProductUpdated | app/dashboard/products/page.tsx:74-82 | with an update, the products become the replacement by id, keeping the length and ids; without one, the list is untouched |
| ProductsPage.InitialFetchSelectsAll | app/dashboard/products/page.tsx:33-51 | the first fetch is page 1 of 10 with no search and every category, and selects every product |
| Catalog.FindBySlug | app/dashboard/products/new/page.tsx:70-72 | `find`: a category of the table with that slug, `None` exactly when no category has it, and the first one when it comes first |
| Catalog.FindFirst | app/dashboard/products/new/page.tsx:70-72 | a category whose slug no earlier category carries is the one found |
| Catalog.WhichHaveSubcategories | lib/data.ts:14-117 | a slug has subcategories exactly when it is tisane, savon, huile or baume |
| Catalog.SubcategoryExamples | lib/data.ts:14-117 | tisane offers detox and digestive, savon offers op; cheveux and an unknown slug offer none |
| Catalog.SlugsDistinct | lib/data.ts:14-117 | no two categories share a slug |
| NewProductPage.SetValue | app/dashboard/products/new/page.tsx:86-92 | same length and ids; exactly the benefits with that id get the new value |
| NewProductPage.RemoveSpec | app/dashboard/products/new/page.tsx:82-84 | removal keeps every benefit with another id and drops every benefit with that id |
| NewProductPage.RemoveAbsent | app/dashboard/products/new/page.tsx:82-84 | removing an id that is absent changes nothing |
| NewProductPage.RemoveKeepsOrder | app/dashboard/products/new/page.tsx:82-84 | removal keeps the relative order of what remains |
| NewProductPage.TrimmedValues | app/dashboard/products/new/page.tsx:100-101 | one trimmed value per benefit, in order |
| NewProductPage.ValidBenefitsSpec | app/dashboard/products/new/page.tsx:100-102 | every kept value is non-empty and trimmed, there are no more of them than benefits, and every non-blank benefit is kept |
| NewProductPage.ValidBenefitsOrder | app/dashboard/products/new/page.tsx:100-102 | the kept values come in the order of their benefits |
| NewProductPage.ValidBenefitsStoredAsIs | app/dashboard/products/new/page.tsx:100-109 | the server's trimming leaves the submitted benefits unchanged |
| NewProductPage.Payload | app/dashboard/products/new/page.tsx:104-110 | the payload's benefits are exactly the valid benefits, a NaN discount becomes 0, and the other fields are sent as typed |
| NewProductPage.BlankSkuIsIndexed | app/dashboard/products/new/page.tsx:104-110 | a form with a blank sku sends `sku: ""`, which is stored and indexed, so two such products break the sparse index |
| NewProductPage.ProductForm.AddBenefit | app/dashboard/products/new/page.tsx:60-66 | appends one benefit with an empty value and keeps the earlier ones |
| NewProductPage.ProductForm.RemoveBenefit | app/dashboard/products/new/page.tsx:82-84 | the benefits become the list without that id |
| NewProductPage.ProductForm.UpdateBenefit | app/dashboard/products/new/page.tsx:86-92 | the benefits become the list with that id's value replaced |
| NewProductPage.ProductForm.OnCategoryChanged | app/dashboard/products/new/page.tsx:68-80 | a non-empty slug offers its subcategories, or none; an empty slug leaves the offer unchanged |
| OrderDetails.FindIndex | components/order-details-dialog.tsx:63 | `findIndex`: the first position holding the key, or -1 exactly when it is absent |
| OrderDetails.ActiveSteps | components/order-details-dialog.tsx:63-68 | step `idx` is lit exactly when the status is that step or a later one, and the lit steps form a prefix |
| OrderDetails.StepsDistinct | components/order-details-dialog.tsx:41-62 | the five step keys are pairwise distinct |
| OrderDetails.UnknownStatusActivatesNothing | components/order-details-dialog.tsx:63-88 | inside the stepper component, a status that is no step lights no step and colours no connector; the dialog itself never mounts the stepper with such a status (see `DialogStepper`) |
| OrderDetails.DialogStepper | components/order-details-dialog.tsx:101-105 | the dialog renders, and shows the stepper's lit steps, exactly when the status is one of the four `ORDER_STATUS` keys; any other or missing status makes the `status.icon` read throw, and nothing is rendered |
| OrderDetails.RenderedStepperLightsFirstTwo | components/order-details-dialog.tsx:63-105 | every rendered status is a step from "processing" on, so a rendered stepper always lights its first two steps |
| OrderDetails.CreatedStatusNotRendered | components/order-details-dialog.tsx:41-105 | the "created" step names no `ORDER_STATUS` key, so an order with that status, like one without a status, crashes the dialog |
| OrderDetails.StepperExamples | components/order-details-dialog.tsx:41-88 | "pending" lights the first three steps, "cancelled" lights all five, and under "delivered" the first three connectors are coloured |
| OrderDetails.RoundDiv | components/order-details-dialog.tsx:178-181 | `Math.round(n / d)`: the nearest integer, halves up |
| OrderDetails.UnitPriceBounds | components/order-details-dialog.tsx:178-181 | the discounted unit price is the exact one rounded, between 0 and the price, equal to the price at 0% and to 0 at 100% |
| OrderDetails.Prices | components/order-details-dialog.tsx:174-206 | the discounted unit and total appear exactly for a non-zero price and a positive discount; the plain total appears exactly for a non-zero price without a discount; a negative discount shows neither |
| OrderDetails.PricesExample | components/order-details-dialog.tsx:174-206 | 10% off 2 500 FCFA is 2 250 a unit and 6 750 for three |
| OrderDetails.OrderNumber | components/order-details-dialog.tsx:218 | the last six characters of the id (or all of them if fewer), upper-cased |
| OrderDetails.OrderNumberSuffix | components/order-details-dialog.tsx:218 | ids that end alike show the same number |
| OrderDetails.OrderNumberExample | components/order-details-dialog.tsx:218 | an id ending in "12ab34cd" shows "AB34CD" |
| OrderColumns.OrderNumberCell | app/dashboard/columns.tsx:84 | "#" followed by the order number |
| OrderColumns.ClientCell | app/dashboard/columns.tsx:91-92 | the first name, a space, the last name |
| OrderColumns.BadgeText | app/dashboard/columns.tsx:107-125 | a known status shows its label; a missing or unknown status shows "Statut inconnu" |
| OrderColumns.KnownNeverUnknown | app/dashboard/columns.tsx:107-125 | a known status never reads as unknown |
| OrderColumns.StatusMenu | app/dashboard/columns.tsx:169-177 | one entry per status, in declaration order, with its label |
| OrderColumns.MenuIsTheStatusSet | app/dashboard/columns.tsx:169-177 | the menu offers each known status exactly once, and nothing else |
| OrderColumns.StatusRequestFor | app/dashboard/columns.tsx:172 | a menu entry asks to set its status on that order |
| OrderColumns.UpdateOrderStatus | app/dashboard/columns.tsx:36-76 | true and the updated order dispatched on an ok response; false and nothing dispatched otherwise |
| ClientsTable.TableBody | components/clients-table.tsx:72-125 | no users gives a single "Aucun client trouvé." row spanning every column; otherwise one row per user |
| ClientsTable.RowActions | components/clients-table.tsx:83-100 | view passes the row, delete passes its `_id` |
| ClientsTable.Previous | components/clients-table.tsx:138-139 | asks for `page - 1`, disabled exactly on page 1 |
| ClientsTable.Next | components/clients-table.tsx:149-150 | asks for `page + 1`, disabled exactly when `page == totalPages` |
| ClientsTable.ButtonsOnServedPages | components/clients-table.tsx:135-153 | on a block from the list engine, "Previous" is enabled exactly past page 1 and then targets a page numbered at least 1, which exists whenever the current page does (a page past the end, such as page 5 of 2, targets another missing page); "Next" is disabled on the last page |
| ClientsTable.NextEnabledWithoutPages | components/clients-table.tsx:146-150 | with no match there are 0 pages, yet "Next" stays enabled and asks for an empty page 2 |
| ProductColumns.EffectiveDiscount | app/dashboard/products/columns.tsx:152 | a missing discount counts as 0 |
| ProductColumns.FinalPrice | app/dashboard/products/columns.tsx:153 | the price less its discount when the discount is positive, the price otherwise |
| ProductColumns.FinalPriceBounds | app/dashboard/products/columns.tsx:153-169 | a discount up to 100 never raises the price, and leaves it unchanged exactly when no discount is shown or the price is 0 |
| ProductColumns.RoundedFinalPrice | app/dashboard/products/columns.tsx:153 | the order dialog's rounded unit price is within half a franc of this final price |
| ProductColumns.StockBand | app/dashboard/products/columns.tsx:202 | red exactly at 0, yellow below 10, green from 10 |
| ProductColumns.StockBandsOfValidStock | app/dashboard/products/columns.tsx:202 | on a stock of at least 0, yellow is exactly 1 to 9 |
| ProductColumns.BrandCell | app/dashboard/products/columns.tsx:183 | a missing or empty brand shows "-"; any other brand shows itself |
| Middleware.Route | middleware.ts:5-25 | "/" with a token goes to /dashboard and without one passes; a dashboard path without a token goes to "/", and with one passes; ungated paths pass |
| Middleware.NoRedirectLoop | middleware.ts:5-25 | a redirect lands where the same token does not redirect again |
| Middleware.LookalikeNotGated | middleware.ts:23-25 | "/dashboards" is not gated; "/dashboard/orders" is |
| LoginPage.FailureToasts | app/page.tsx:39-65 | each of the three toasts fires exactly when the error text contains its message, independently and in order; no error text, no toast |
| LoginPage.BothToastsFire | app/page.tsx:39-52 | an error naming both a wrong email and a wrong password shows both toasts, email first |
| LoginPage.UnrecognisedErrorIsSilent | app/page.tsx:39-65 | an error naming none of them shows no toast |
| LoginPage.LoginForm.ValidateForm | app/page.tsx:19-25 | one error per empty field with its message, and valid exactly when both fields are filled |
| LoginPage.LoginForm.HandleSubmit | app/page.tsx:27-82 | an invalid form never calls `signIn`; otherwise one call with the credentials, and then the success toast and redirect, the failure toasts, or the submit error and its toast |

## Left out

- Database driver: `find`, `countDocuments`, `aggregate`, `populate`, `lean` and the cached connection are in-memory sequences. The orders search reads the customer fields `populate` would attach. MongoDB does not evaluate those paths that way against the unpopulated string `userId`, and that is not modelled.
- `$regex`: the search is a literal, case-insensitive substring test over ASCII letters. Regular-expression metacharacters and case folding beyond ASCII are not modelled.
- Sort order in the products route: the model sorts before skip and limit. Mongoose does the same whatever the order of the chained calls.
- ProductsApi.Get: requires `page` and `limit` to resolve to at least 1. `parseInt`'s NaN and zero or negative values are not modelled.
- OrdersApi.Get: requires `page` and `limit` to resolve to at least 1, for the same reason.
- UsersApi.Get: requires `page` and `limit` to resolve to at least 1, for the same reason.
- Database failures: the 500 replies of the list and statistics routes are not modelled, since a failing database has no counterpart in an in-memory sequence.
- Registration errors: the route reads the email before its `try`, so a failing lookup is not caught there, and this is not modelled. The other provider and creation failures of both registration routes are modelled.
- Sessions, tokens, the SMS provider, `bcrypt`, ids and clocks are parameters. The six-month cutoff is a parameter because `setMonth` date arithmetic is not modelled.
- Prices: prices are whole FCFA amounts, and the products table's final price is a `real`. IEEE floating point and `toLocaleString`/`Intl` formatting are not modelled.
- OrderDetails.Prices: the plain line total is exact integer multiplication, because `Math.round` of a whole amount is the amount. NaN prices or quantities are not modelled.
- Dead span: the order dialog's "no discount and a positive price" branch sits inside a block that requires a discount, so it never renders. It is not modelled.
- OrderStats.StatusStatsValue: requires that no order has the literal status "null" while another has none. Otherwise both groups write the property "null", the later overwrites the earlier, and the surviving entry depends on the database's group order.
- OrderStats.MonthlyStrictlyAscending: month keys come from the `Instant` subset type, so a month outside 1..12 cannot arise. Time zones assigned by `$year`/`$month` are not modelled.
- Dialog crash: for a status outside `ORDER_STATUS`, the order dialog throws while rendering. `OrderDetails.DialogStepper` models this as nothing rendered. What React's error handling then shows is not modelled.
- OrderStats.ZoneStats: keeps the order in which the model's group-by creates groups, whereas `$group` leaves its output order unspecified. `ZoneStatsSpec` holds for each entry whatever the order.
- Text.Upper: upper-cases ASCII letters only, where `toUpperCase` covers all of Unicode. The ids it is applied to are hexadecimal ObjectIds.
- ORDER_STATUS lookups: a status equal to an `Object.prototype` property (such as "constructor") would find an inherited value in JavaScript. The model treats it as unknown.
- Mongoose casting: strict mode silently drops unknown body fields, and numbers sent as strings are cast. Neither is modelled: the body already has the schema's fields and types.
- Required strings: for fields mongoose marks `required`, an empty string stands for a missing value, because the validator refuses both.
- A registration body without `email` or `phone` is not modelled. Both are strings in the model, so `findOne({ email: undefined })` cannot arise.
- UI: React rendering, icons, colours, toast timing, the `setTimeout` before the redirect, the window `CustomEvent` bus and effect ordering. The pages' state transitions are the class methods; toasts and calls are traces.
- The order-status `PATCH` endpoint is not part of this model. `updateOrderStatus` reduces its response to "an updated order, or none".
- lib/models/verification.ts is not part of this model, and neither is the commented-out `PUT` that uses it. lib/models/newsletter.ts is not part of this model either.
- The chart, the clients page, the client details dialog, the sidebar and the layout are rendering and fetch glue, and are not part of this model.
