# BoolShop storefront core, modelled in Dafny

BoolShop is a small React storefront for art prints. This project models the logic behind its
pages and proves properties of it:

- the cart ledger: the application reducer and its cart actions;
- pricing and checkout: subtotal, shipping, coupon discount and total; coupon acceptance;
  validation of the customer form; the stock re-check before an order; what a placed order
  does to the store;
- the catalogue views: the gallery's filter, search and sort pipeline and its page title; the
  product page and the product card;
- the site header: cart badge, search box, navigation links and menu;
- the string utilities `cn`, `slugify` and `calculateDiscount`.

There is one module per source file:

- `AppContext`, `Checkout`, `Gallery`, `CartPage`, `Utils`, `ProductDetail`, `ProductCard` and
  `AppHeader` model those files.
- `Wrappers` (an `Option` type), `Seqs` (`find` and `filter`), `Strings` (`trim`, case
  conversion, `includes`, string order, number-to-text) and `Catalog` (the product, cart-line
  and coupon records) hold what the page modules share.

The model follows the source's form:

- Pure logic is written as functions and lemmas: the reducer, pricing, coupon checks, `slugify`
  and the header's search path.
- Loops are methods with loop invariants: the stock check's `forEach` (`Checkout.CheckStock`)
  and the gallery's `sort` on an array (`Gallery.SortInPlace` with its insertion step
  `Gallery.Sink`). `validateForm` has no loop: it is a chain of checks, each a step
  (`Checkout.Require`) that adds one key to the error map.
- The components' local state that handlers update is a class: the product page's quantity and
  the header's menu flag and search text.

Modelling choices:

- Money is exact `real` arithmetic.
- Quantities, stock and ids are `int`.
- "Now" and the coupons' validity dates are instants on one integer time line, passed in as a
  parameter.
- Whether the order service accepts an order is a parameter of `HandleSubmit`.
- The static product and coupon data is an input.

Two behaviours of the code worth knowing:

- **Fixed coupons.** A fixed coupon is subtracted in full, with no cap, so `Checkout.Total` can
  be negative. A capped variant, `Checkout.CappedTotal`, is modelled beside it (see Findings).
- **Cart quantities.** UPDATE_CART_ITEM stores whatever quantity it is given, and the model does
  the same. `CartPage.DecrementAtOneRemovesLine` shows that the cart page itself never stores
  0: its '−' button removes a line at 1 instead.

## Model

| member | source | states |
|---|---|---|
| Seqs.Find | src/context/AppContext.jsx:36 | `find` returns nothing exactly when no element passes, and otherwise the first element that passes |
| Seqs.Keep | src/context/AppContext.jsx:60 | `filter` is never longer than its input and keeps only passing elements of the input |
| Seqs.KeepCount | src/pages/Gallery.jsx:23 | `filter` keeps each passing element exactly as often as it occurs and drops every other one |
| Seqs.KeepAppend | src/context/AppContext.jsx:60 | filtering a concatenation is concatenating the filtered parts, so the order is kept |
| Seqs.KeepIdempotent | src/context/AppContext.jsx:60 | filtering twice with the same test is filtering once |
| Seqs.KeepAll | src/context/AppContext.jsx:60 | a filter every element passes returns its input |
| Strings.TrimStart | src/pages/Checkout.jsx:55 | removing leading white space leaves a suffix starting with a non-space, and everything cut off was white space |
| Strings.TrimEnd | src/pages/Checkout.jsx:55 | removing trailing white space leaves a prefix ending with a non-space, and everything cut off was white space |
| Strings.Trim | src/pages/Checkout.jsx:55 | `trim`: leading and then trailing ECMAScript white space removed |
| Strings.TrimmedEmptyIffBlank | src/pages/Checkout.jsx:55 | `s.trim()` is empty (falsy) exactly when every character of `s` is ECMAScript white space |
| Strings.TrimEnds | src/layout/AppHeader.jsx:18-19 | a non-empty trimmed string starts and ends with a non-space |
| Strings.TrimSubstring | src/layout/AppHeader.jsx:19 | the trimmed string is a contiguous piece of the input |
| Strings.Lower | src/pages/Gallery.jsx:33 | `toLowerCase` keeps the length and lowers each letter in place |
| Strings.Upper | src/pages/Checkout.jsx:94 | `toUpperCase` keeps the length and raises each letter in place |
| Strings.LowerNormalises | src/pages/Gallery.jsx:33-34 | a lower-cased string has no upper-case letter, and lowering it again changes nothing |
| Strings.Contains | src/pages/Gallery.jsx:33-34 | `includes`: the second string occurs in the first at some position |
| Strings.LessEq | src/pages/Gallery.jsx:47 | `localeCompare` as order by character code, a prefix before the longer string |
| Strings.LessEqTotal | src/pages/Gallery.jsx:47 | any two names are comparable under the name order |
| Strings.LessEqTransitive | src/pages/Gallery.jsx:47 | the name order is transitive |
| Strings.NatToString | src/components/ProductCard.jsx:76 | a count is written as decimal digits that read back as the count, with no leading zero, and as a single digit below 10 |
| AppContext.Reduce | src/context/AppContext.jsx:19-71 | `appReducer`: each action type writes its own field of the state, and an unknown type returns the state |
| AppContext.AddLine | src/context/AppContext.jsx:35-47 | ADD_TO_CART's cart: the existing line with the id is raised by the payload's quantity, otherwise the payload is appended |
| AppContext.Adjust | src/context/AppContext.jsx:40-44 | the cart `map` keeps length and order, rewrites the quantity of each line with the id and returns every other line as it is |
| AppContext.InitialStateIsEmpty | src/context/AppContext.jsx:6-17 | the store starts with an empty cart, no discount, sort 'newest', grid view, not loading, no error, popup shown |
| AppContext.HasLineIff | src/context/AppContext.jsx:36 | the `find` of ADD_TO_CART succeeds exactly when some line has the payload's id |
| AppContext.AddExistingLine | src/context/AppContext.jsx:35-46 | adding a product already in the cart keeps length and order and raises the matching line by the payload's quantity; every other field and line stays the same |
| AppContext.AddNewLine | src/context/AppContext.jsx:47 | adding a product not in the cart appends the payload as the last line |
| AppContext.AddKeepsIdsUnique | src/context/AppContext.jsx:35-47 | ADD_TO_CART never creates a second line for the same id |
| AppContext.KeepKeepsIdsUnique | src/context/AppContext.jsx:60 | filtering a cart with distinct ids leaves distinct ids |
| AppContext.ReduceKeepsIdsUnique | src/context/AppContext.jsx:19-71 | no action creates a second line for an id already in the cart |
| AppContext.ReduceAllKeepsIdsUnique | src/context/AppContext.jsx:19-71 | any sequence of dispatches keeps the cart's ids distinct |
| AppContext.ReachableIdsUnique | src/context/AppContext.jsx:6-71 | every cart reached from the initial state by dispatches has distinct ids |
| AppContext.UpdateLine | src/context/AppContext.jsx:48-56 | UPDATE_CART_ITEM stores the given quantity in the matching line only, unchecked, and keeps length and order |
| AppContext.UpdateAbsentIsNoOp | src/context/AppContext.jsx:48-56 | updating an id that is not in the cart leaves the state equal |
| AppContext.RemoveDropsExactly | src/context/AppContext.jsx:57-61 | REMOVE_FROM_CART leaves no line with the id and every other line exactly as often as before |
| AppContext.RemoveKeepsOrder | src/context/AppContext.jsx:60 | removal works piecewise on any split of the cart, so the surviving lines keep their order |
| AppContext.RemoveIdempotent | src/context/AppContext.jsx:57-61 | removing twice is removing once |
| AppContext.RemoveAbsentIsNoOp | src/context/AppContext.jsx:57-61 | removing an id that is not in the cart changes nothing |
| AppContext.AddThenRemove | src/context/AppContext.jsx:35-61 | adding a new product and then removing it restores the state |
| AppContext.ClearAndSetDiscount | src/context/AppContext.jsx:62-67 | CLEAR_CART empties the cart; SET_DISCOUNT stores its payload, null included |
| AppContext.ReduceChangesOnlyItsField | src/context/AppContext.jsx:19-71 | each action changes at most its own field of the state; an unknown action returns the state unchanged |
| Checkout.Subtotal | src/pages/Checkout.jsx:127-129 | `getSubtotal`: the sum of price times quantity over the cart's lines |
| Checkout.SubtotalAppend | src/pages/Checkout.jsx:127-129 | the subtotal of two carts joined is the sum of their subtotals |
| Checkout.SubtotalNonNegative | src/pages/Checkout.jsx:127-129 | with non-negative prices and quantities the subtotal is non-negative, and the empty cart's is 0 |
| Checkout.ShippingCost | src/pages/Checkout.jsx:139-142 | shipping is free exactly from 75 up, and 5.99 otherwise |
| Checkout.DiscountAmount | src/pages/Checkout.jsx:131-137 | no coupon discounts 0; a fixed coupon discounts its whole amount; a percentage coupon of 0 to 100 takes between 0 and the subtotal |
| Checkout.Total | src/pages/Checkout.jsx:144-146 | `getTotal`: subtotal minus discount plus shipping |
| Checkout.TotalWithoutCoupon | src/pages/Checkout.jsx:144-146 | without a coupon the total is subtotal plus shipping |
| Checkout.PercentageTotalAtLeastShipping | src/pages/Checkout.jsx:131-146 | a percentage coupon of at most 100 never takes the total below the shipping cost |
| Checkout.FixedCouponOverdraws | src/pages/Checkout.jsx:131-146 | a fixed coupon worth more than subtotal plus shipping makes the total negative |
| Checkout.FixedCouponCanMakeTotalNegative | src/pages/Checkout.jsx:87-146 | such a coupon is accepted: a 10.00 print with a 50.00 coupon that has no minimum totals -34.01 |
| Checkout.CappedTotalNonNegative | src/pages/Checkout.jsx:144-146 | with the discount capped at the subtotal, the total is at least the shipping cost, and so never negative, for every cart and coupon |
| Checkout.CappedTotalAgrees | src/pages/Checkout.jsx:144-146 | the capped total equals the written one whenever the discount does not exceed the subtotal |
| Checkout.CheckCoupon | src/pages/Checkout.jsx:87-116 | `applyCoupon`'s checks in order: blank input, lookup of the upper-cased code, validity window, minimum subtotal |
| Checkout.Judge | src/pages/Checkout.jsx:101-116 | after a successful lookup: expired outside the window, below minimum under it, accepted otherwise |
| Checkout.ApplyCoupon | src/pages/Checkout.jsx:87-121 | `applyCoupon`'s effect on the store and on the coupon box for each outcome of the checks |
| Checkout.CouponIgnoredIff | src/pages/Checkout.jsx:88 | applying a code does nothing exactly when the code trims to empty |
| Checkout.IgnoredOnlyWhenBlank | src/pages/Checkout.jsx:87-88 | the coupon chain stops at its first step exactly when the code is all white space |
| Checkout.CouponUnknownIff | src/pages/Checkout.jsx:94-99 | a non-blank code is refused as invalid exactly when no coupon carries its upper-cased form |
| Checkout.CouponDecidedByFirstMatch | src/pages/Checkout.jsx:94-114 | the first coupon with the code decides: expired exactly outside its window (both ends inside), below minimum exactly inside it with too small a subtotal, accepted otherwise |
| Checkout.FirstMatchIsFound | src/pages/Checkout.jsx:94 | the lookup returns the first coupon whose code is the upper-cased input |
| Checkout.CouponAcceptedSound | src/pages/Checkout.jsx:94-116 | an accepted coupon is in the list, has the upper-cased code, is valid now and has its minimum met |
| Checkout.CodeNotTrimmed | src/pages/Checkout.jsx:94 | the code is not trimmed before lookup: " SCONTO10" is unknown even when "SCONTO10" exists |
| Checkout.ApplyCouponEffect | src/pages/Checkout.jsx:87-121 | a blank code changes nothing; an accepted coupon is dispatched as the discount and the box is emptied; a refusal leaves the store as it was, keeps the typed code and shows the refusal; only the discount is ever changed, and only to a sound coupon |
| Checkout.RemoveCouponRestoresTotal | src/pages/Checkout.jsx:123-125 | removing the coupon clears the discount, keeps the cart, and brings the total back to subtotal plus shipping |
| Checkout.Require | src/pages/Checkout.jsx:55-67 | one check adds its field's key, with its message, exactly when it fails |
| Checkout.Require2 | src/pages/Checkout.jsx:55-67 | two consecutive checks add exactly the keys of those that fail, each with its message |
| Checkout.RequireContact | src/pages/Checkout.jsx:55-58 | the name, surname, email and phone checks add exactly the keys of the blank fields, each with its message |
| Checkout.RequireBilling | src/pages/Checkout.jsx:59-62 | the address, city, postal code and terms checks add exactly the keys of the failing fields, each with its message |
| Checkout.RequireCard | src/pages/Checkout.jsx:64-68 | the card number, expiry and CVV checks add exactly the keys of the blank fields, each with its message |
| Checkout.Complete | src/pages/Checkout.jsx:52-72 | the form `validateForm` accepts: seven text fields not blank, terms accepted, and the three card fields not blank when paying by card |
| Checkout.CompleteIffNothingMissing | src/pages/Checkout.jsx:52-72 | a form is complete exactly when no check fails |
| Checkout.CollectErrors | src/pages/Checkout.jsx:52-69 | the error object's keys are exactly the failing fields (card fields only when paying by card), each with its message |
| Checkout.ValidateForm | src/pages/Checkout.jsx:52-72 | the form passes exactly when it is complete, exactly when no error was recorded; every failing field carries its message |
| Checkout.ShippingFieldsNotChecked | src/pages/Checkout.jsx:52-72 | the separate shipping address, its toggle and the country never affect validation |
| Checkout.HandleInputChange | src/pages/Checkout.jsx:74-85 | `handleInputChange`: store the typed value or the checkbox state, and blank that field's error if one shows |
| Checkout.InputChangeEffect | src/pages/Checkout.jsx:74-85 | an edit stores the new value in that field only; the field's error is blanked, other messages and all keys are kept |
| Checkout.WithTextOnly | src/pages/Checkout.jsx:76-79 | a typed value lands in its own text field and leaves every other field and both boxes as they were |
| Checkout.WithFlagOnly | src/pages/Checkout.jsx:76-79 | a checkbox's state lands in its own flag and leaves the other flag and every text field as they were |
| Checkout.StockConflicts | src/pages/Checkout.jsx:160-167 | the names of the lines that cannot be served, collected line by line in cart order |
| Checkout.CheckStock | src/pages/Checkout.jsx:160-167 | the stock loop collects, in cart order and without stopping early, the name of every line whose product is missing or short of stock |
| Checkout.StockConflictsAppend | src/pages/Checkout.jsx:162-167 | the conflict report is built piecewise, so it follows cart order |
| Checkout.LineNames | src/pages/Checkout.jsx:165 | the names of some lines, one per line and in their order |
| Checkout.StockConflictsAreFailingNames | src/pages/Checkout.jsx:160-167 | the report equals the names of the cart filtered to the lines that cannot be served |
| Checkout.StockConflictsCover | src/pages/Checkout.jsx:160-172 | the report is empty exactly when every line can be served, names each line that cannot, and is never longer than the cart |
| Checkout.StockConflictsComplete | src/pages/Checkout.jsx:160-172 | the report is exactly the names of the lines that cannot be served, in cart order; it is empty exactly when every line can be served and is never longer than the cart |
| Checkout.AvailableIff | src/pages/Checkout.jsx:163-164 | a line can be served exactly when the first catalogue entry with its id exists and has at least its quantity in stock |
| Checkout.HandleSubmit | src/pages/Checkout.jsx:155-202 | submission stops on an invalid form, then exactly when stock conflicts exist, with their full list; the service's refusal, and only that, ends in the `catch` branch; it places the order exactly when the form is complete, stock covers the cart and the service accepts; only a placed order clears the cart and the coupon |
| Checkout.PlacedOrderResets | src/pages/Checkout.jsx:186-188 | after a placed order the cart is empty, no coupon is active, and nothing else changes |
| Gallery.PassesFlag | src/pages/Gallery.jsx:21-28 | 'new', 'sale' and 'featured' keep the products with that flag; any other filter keeps all |
| Gallery.PassesQuery | src/pages/Gallery.jsx:30-36 | a non-empty query keeps the products whose lower-cased name or category contains the lower-cased query |
| Gallery.KeyOf | src/pages/Gallery.jsx:39-53 | 'price-asc', 'price-desc' and 'name' select their comparators, and every other value sorts newest first |
| Gallery.BeforeTotal | src/pages/Gallery.jsx:39-53 | every comparator orders any two products one way or the other |
| Gallery.BeforeTransitive | src/pages/Gallery.jsx:39-53 | every comparator is transitive |
| Gallery.SortInPlace | src/pages/Gallery.jsx:38-53 | the in-place sort leaves the array ordered by the comparator and holding the same products |
| Gallery.SortedCopy | src/pages/Gallery.jsx:38-53 | the filtered list after the sort holds the same products, as many of them, ordered by the comparator |
| Gallery.Sink | src/pages/Gallery.jsx:38-53 | one insertion step extends the sorted prefix by one element and keeps the array's contents |
| Gallery.FilteredProducts | src/pages/Gallery.jsx:18-56 | the result holds each product passing both the flag filter and the query exactly as often as the catalogue does, and nothing else, ordered by price up, price down, name, or id down |
| Gallery.CountAfterFilters | src/pages/Gallery.jsx:21-36 | after the two filter stages a product occurs as often as in the catalogue if it passes both tests, and otherwise not at all |
| Gallery.PageTitle | src/pages/Gallery.jsx:58-64 | `getPageTitle`: a non-empty query, then the three known filters, then "Galleria Stampe" |
| Gallery.QueryOverridesFilter | src/pages/Gallery.jsx:58-64 | a non-empty query decides the title whatever the filter, and the title quotes it |
| Gallery.DefaultTitle | src/pages/Gallery.jsx:58-64 | without a query and a known filter the title is "Galleria Stampe" |
| CartPage.UpdateQuantity | src/pages/Cart.jsx:10-19 | a new quantity of 0 removes the line, and any other value updates it to that value |
| CartPage.RemoveItem | src/pages/Cart.jsx:21-23 | "Rimuovi" dispatches REMOVE_FROM_CART for the line's id |
| CartPage.DecrementAtOneRemovesLine | src/pages/Cart.jsx:96 | '−' on a line at 1 does what "Rimuovi" does: the line is gone |
| CartPage.DecrementAboveOne | src/pages/Cart.jsx:96 | '−' on any other line lowers that line by one and touches nothing else |
| CartPage.TotalPrice | src/pages/Cart.jsx:25-27 | `getTotalPrice`: a left `reduce` of price times quantity from 0 |
| CartPage.TotalPriceIsSubtotal | src/pages/Cart.jsx:25-27 | the cart page's total price equals the checkout subtotal |
| CartPage.BannerIffShippingCharged | src/pages/Cart.jsx:36-69 | the free-shipping banner shows exactly when checkout would charge shipping, with a positive amount that reaches the threshold |
| CartPage.DisplayedTotal | src/pages/Cart.jsx:145-149 | the "Totale" row: the total price plus 5.99 below 75 |
| CartPage.DisplayedTotalMatchesCheckout | src/pages/Cart.jsx:145-149 | the "Totale" shown is the checkout total without a coupon |
| CartPage.StockWarning | src/pages/Cart.jsx:84-88 | the warning shows when the quantity exceeds the line's stock ceiling |
| CartPage.IncrementDisabled | src/pages/Cart.jsx:104 | '+' is disabled at or above the line's stock ceiling |
| CartPage.EnabledIncrementStaysWithinStock | src/pages/Cart.jsx:101-107 | an enabled '+' raises only its line by one and never past its stock, so no warning appears |
| Utils.Cn | src/lib/utils.js:3-5 | `cn`: the truthy arguments' names joined by single spaces |
| Utils.Names | src/lib/utils.js:4 | `filter(Boolean)` is never longer than its input, keeps only non-empty names, and is empty exactly when no argument is truthy |
| Utils.NamesInOrder | src/lib/utils.js:4 | `filter(Boolean)` keeps a truthy argument's name and drops a falsy one, and works piecewise, so argument order is kept |
| Utils.Join | src/lib/utils.js:4 | `join`: the parts with the separator between each two |
| Utils.Split | src/lib/utils.js:4 | not a source operation: a reference split on one character (the pieces between separators, always at least one), the inverse against which `join` is proved in `Utils.SplitJoin` and `Utils.CnSplitsIntoNames` |
| Utils.SplitJoin | src/lib/utils.js:4 | joining parts free of the separator can be undone by splitting on it |
| Utils.CnEmptyIff | src/lib/utils.js:3-5 | `cn` is empty exactly when no argument is truthy |
| Utils.CnSplitsIntoNames | src/lib/utils.js:3-5 | with space-free names, `cn`'s result splits back into exactly the truthy names in argument order |
| Utils.Slugify | src/lib/utils.js:14-21 | `slugify`: lower-case, trim, drop characters other than word characters, white space and dashes, collapse separator runs, strip end dashes |
| Utils.Collapse | src/lib/utils.js:19 | each maximal run of white space, underscores and dashes becomes one dash |
| Utils.DashRunEnd | src/lib/utils.js:20 | the scan for the leading run of dashes passes over dashes only and stops at the first character that is not one |
| Utils.DashRunStart | src/lib/utils.js:20 | the scan for the trailing run of dashes passes over dashes only and stops after the last character that is not one |
| Utils.TrimDashes | src/lib/utils.js:20 | the text between the leading and the trailing run of dashes |
| Utils.SlugifyIsSlug | src/lib/utils.js:14-21 | every slug is lower-case letters, digits and single dashes, with no dash at either end |
| Utils.CollapseOrigins | src/lib/utils.js:19 | every character after the separator step is a dash or a non-separator character of its input |
| Utils.CollapseNoDoubleDash | src/lib/utils.js:19 | after the separator step no two dashes are adjacent |
| Utils.TrimDashesShape | src/lib/utils.js:20 | cutting the end dashes from a text of slug characters with no double dash gives a slug |
| Utils.SlugIsFixedPoint | src/lib/utils.js:14-21 | a string of slug shape is its own slug |
| Utils.SlugifyIdempotent | src/lib/utils.js:14-21 | slugifying a slug changes nothing |
| Utils.AlnumSurvives | src/lib/utils.js:14-21 | every ASCII letter or digit of the text appears, lower-cased, in the slug |
| Utils.SlugifyEmptyIff | src/lib/utils.js:14-21 | the slug is empty exactly when the text has no ASCII letter or digit |
| Utils.CalculateDiscount | src/lib/utils.js:23-25 | `calculateDiscount`: the rounded percentage saved, no number when the original price is 0 |
| Utils.Round | src/lib/utils.js:24 | `Math.round` returns an integer within half of its argument, with halves going up |
| Utils.DiscountBounds | src/lib/utils.js:23-25 | equal prices save 0 percent, a free item 100, and a sale price between 0 and the original between 0 and 100 |
| Utils.RoundsHalfUp | src/lib/utils.js:24 | a saving of exactly 12.5 percent is shown as 13 |
| ProductCard.Payload | src/components/ProductCard.jsx:16-26 | the card adds one unit of the product, with its current stock as the line's ceiling |
| ProductCard.HandleAddToCart | src/components/ProductCard.jsx:10-27 | nothing is dispatched exactly when the product has no stock; otherwise ADD_TO_CART with that payload |
| ProductCard.StockLabel | src/components/ProductCard.jsx:73-81 | the card's stock line by the three stock bands |
| ProductCard.StockLabelThresholds | src/components/ProductCard.jsx:73-81 | no stock reads "Non disponibile", 1 to 4 units "Solo N rimasti", 5 or more "Disponibile" |
| ProductCard.PressesMakeOneLine | src/components/ProductCard.jsx:10-27 | pressing the button k times on a product not in the cart appends one line of quantity k and keeps the other lines |
| ProductCard.PressOnLastLine | src/context/AppContext.jsx:36-46 | a press on a product whose line is the last one raises that line by one and keeps the rest |
| ProductCard.AddToLastLine | src/context/AppContext.jsx:36-46 | adding a product whose line is the last one raises that line's quantity by the payload's and keeps every other line |
| ProductCard.FirstPress | src/context/AppContext.jsx:36-46 | the first press on a product not in the cart appends its line at quantity one |
| ProductCard.PressesAreRepeat | src/components/ProductCard.jsx:10-27 | dispatching the presses through the reducer one after the other is applying the press step k times |
| ProductCard.IterateGrows | src/context/AppContext.jsx:36-46 | a step that raises the last line by one, applied n times, raises it by n |
| ProductDetail.FindBySlug | src/pages/ProductDetail.jsx:17-23 | the page shows the first product with the route's slug, and "not found" exactly when none has it |
| ProductDetail.DetailView.constructor | src/pages/ProductDetail.jsx:13 | the quantity selector starts at 1 |
| ProductDetail.DetailView.HandleQuantityChange | src/pages/ProductDetail.jsx:59-63 | a value between 1 and the stock is taken and any other is ignored; the quantity stays between 1 and the stock |
| ProductDetail.DetailView.PressMinus | src/pages/ProductDetail.jsx:150-156 | '−' lowers the quantity by one and does nothing at 1, where it is disabled |
| ProductDetail.DetailView.PressPlus | src/pages/ProductDetail.jsx:158-164 | '+' raises the quantity by one and does nothing at the stock, where it is disabled |
| ProductDetail.DetailView.HandleAddToCart | src/pages/ProductDetail.jsx:40-57 | nothing is dispatched exactly when there is no stock; otherwise the line carries the selected quantity and the current stock as its ceiling |
| ProductDetail.SelectedQuantityFitsStock | src/pages/ProductDetail.jsx:43-53 | adding the selected quantity of a product not yet in the cart makes a last line within its own ceiling |
| ProductDetail.StockLabel | src/pages/ProductDetail.jsx:136-144 | the page's stock line by the three stock bands |
| ProductDetail.StockLabelThresholds | src/pages/ProductDetail.jsx:136-144 | no stock reads "Non disponibile", 1 to 4 units "Solo N disponibili!", 5 or more "Disponibile" |
| ProductDetail.SaleBadge | src/pages/ProductDetail.jsx:129-133 | hidden unless on sale; otherwise the rounded percentage `(1 - price / originalPrice) * 100` |
| ProductDetail.SaleBadgeIsDiscount | src/pages/ProductDetail.jsx:129-133 | the sale badge shows what `calculateDiscount` computes for the two prices, so it lies between 0 and 100 for a sale price within the original |
| AppHeader.CartItemsCount | src/layout/AppHeader.jsx:14 | the badge count: the sum of the lines' quantities |
| AppHeader.CountAppend | src/layout/AppHeader.jsx:14 | the badge count of two carts joined is the sum of their counts |
| AppHeader.CountAtLeastLines | src/layout/AppHeader.jsx:14 | with at least one unit per line the count is at least the number of lines, and the badge shows exactly when the cart is not empty |
| AppHeader.AdjustCount | src/layout/AppHeader.jsx:14 | rewriting one line's quantity moves the count by exactly that line's change |
| AppHeader.AddRaisesCount | src/layout/AppHeader.jsx:14 | adding to the cart raises the badge by the payload's quantity, whether the product was in the cart or not |
| AppHeader.UpdateMovesCount | src/layout/AppHeader.jsx:14 | setting a line to n moves the badge from the line's old quantity to n |
| AppHeader.RemoveLowersCount | src/layout/AppHeader.jsx:14 | removing a line takes its units off the badge |
| AppHeader.SearchPath | src/layout/AppHeader.jsx:16-21 | `handleSearch`'s target: none for a blank query, otherwise `/search?q=` and the trimmed query |
| AppHeader.SearchPathIff | src/layout/AppHeader.jsx:16-21 | the search navigates exactly when the query is not blank, to `/search?q=` followed by the trimmed query |
| AppHeader.DecodeParam | src/pages/Gallery.jsx:16 | the gallery's `q` value: up to `&` or `#`, with `+` as a space and `%XX` decoded |
| AppHeader.AmpersandCutsQuery | src/layout/AppHeader.jsx:19 | as written, searching "a&b" makes the gallery search "a" |
| AppHeader.DecodeEncode | src/layout/AppHeader.jsx:19 | an encoded query is read back by the gallery exactly as written |
| AppHeader.EncodedSearchRoundTrip | src/layout/AppHeader.jsx:16-21 | with the query encoded, the header navigates in the same cases and the gallery searches exactly the trimmed query |
| AppHeader.IsActive | src/layout/AppHeader.jsx:43-45 | a link is active when the location's path is its own |
| AppHeader.AtMostOneActive | src/layout/AppHeader.jsx:23-45 | the links' paths are distinct, so at most one link is active, and the search page activates none |
| AppHeader.Header.constructor | src/layout/AppHeader.jsx:8-9 | the menu starts closed and the search box empty |
| AppHeader.Header.ToggleMenu | src/layout/AppHeader.jsx:76 | the hamburger button flips the menu and keeps the query |
| AppHeader.Header.ClickNavLink | src/layout/AppHeader.jsx:46 | following a link closes the menu and keeps the query |
| AppHeader.Header.TypeQuery | src/layout/AppHeader.jsx:59 | typing stores the text and keeps the menu |
| AppHeader.Header.Search | src/layout/AppHeader.jsx:16-21 | submitting navigates nowhere exactly for a blank query, and otherwise to `/search?q=` followed by the trimmed query |

## Left out

- Price formatting (`formatPrice`, `Intl.NumberFormat`) is display only and is not modelled.
- The API service module is not part of this model. Placing an order is the `orderAccepted`
  parameter of `Checkout.HandleSubmit`.
- `alert`, `navigate`, the confirmation log lines and the `isSubmitting` flag are effects
  outside the store, so they are not modelled.
- The browser's local storage check that hides the welcome popup is not modelled. The reducer
  case it dispatches is modelled.
- The Homepage, Contact, ProductFilters and WelcomePopup components are outside the modelled
  core.
- `new Date()` is the `now` parameter. Coupon dates are integer instants, not parsed date
  strings.
- The `catch` branch of `applyCoupon` is not modelled, because nothing in the try block can
  throw once the coupon data is a plain list.
- JavaScript floating point is not modelled: money is exact `real`, so rounding of sums such as
  `0.1 + 0.2` is not captured.
- Gallery.SortInPlace, Gallery.SortedCopy and Gallery.FilteredProducts: the order among
  products that compare equal (the same price, the same name) is not fixed. The source's
  `Array.prototype.sort` is stable and keeps catalogue order for them. The model's insertion
  sort happens to be stable too, but that is not proved.
- Strings.Lower and Strings.Upper: case conversion covers ASCII letters only, and so does the
  coupon lookup in `Checkout.CheckCoupon` that uses `Upper`. `toLowerCase` and `toUpperCase` on
  non-ASCII letters (for example 'İ' or the Kelvin sign) are not modelled.
- Strings.LessEq: `localeCompare` is modelled as plain order by character code, without the
  locale's collation.
- Utils.Cn: the arguments are strings or falsy values. Numbers and other truthy non-strings
  passed to `cn` are not modelled.
- AppHeader.DecodeParam: the gallery's reading of `q` decodes `+` and `%XX` as single
  characters. Multi-byte UTF-8 escapes are not combined.
- ProductDetail.FindBySlug: the page's loading state and the quantity that is kept when the
  route's slug changes are not modelled. The lookup itself is modelled.
- CartPage.DecrementAboveOne and CartPage.EnabledIncrementStaysWithinStock require the cart's
  ids to be distinct. `AppContext.ReachableIdsUnique` proves this of every cart the reducer
  can reach from the initial state.
- AppHeader.AdjustCount, AppHeader.AddRaisesCount, AppHeader.UpdateMovesCount and
  AppHeader.RemoveLowersCount require distinct ids too, for the same reason.
- Rendering and markup (images, thumbnails, CSS classes) are not modelled.

## Findings

| source | as written | input that shows it | evidently intended | confidence | as-written member | corrected member |
|---|---|---|---|---|---|---|
| src/pages/Checkout.jsx:134-136 | a fixed-amount coupon is subtracted in full, with no cap and no floor on the total | a cart holding one 10.00 print, with a fixed 50.00 coupon that has no minimum, is accepted and totals -34.01 | the discount never exceeds the subtotal, so the total is at least the shipping cost | high (not executed) | Checkout.FixedCouponCanMakeTotalNegative | Checkout.CappedTotalNonNegative |
| src/layout/AppHeader.jsx:19 | the trimmed query is put into the URL without encoding | searching "a&b" navigates to `/search?q=a&b`, and the gallery searches "a" | the query is encoded, so the gallery searches exactly what was typed | medium (not executed) | AppHeader.AmpersandCutsQuery | AppHeader.EncodedSearchRoundTrip |
