# Snack-store storefront: a Dafny model of the pages' rules

This project models the rules of the React storefront for a snack shop. The pages covered are
the catalog listing, the product card and product detail page, the cart page and cart sidebar,
the two-step checkout, the account area, registration, the wishlist, the order history and the
home page. The model states and proves what each page does with its state and with the calls it
makes into the cart, auth and routing contexts.

The pages split into three kinds of code, and each is modelled in its own form:

* **Pure rules become functions with lemmas.** These are the price summary, the cart line
  buttons, the star row, the category label, the heading lookups, tab resolution, routing, the
  status colours, the wishlist removal and the banner rotation.
* **State that the page changes step by step becomes a class.** The checkout, the product
  detail page, the registration form and the listing's filter controls each have fields and
  methods with `modifies` clauses.
* **The source's loops stay loops.** `renderRatingStars` is a method with `for`-style loops.
  The listing's filter-and-sort effect sorts an `array` in place, proved sorted and a
  permutation.

The pages never return their calls into the cart store, the auth context or the router. The
model records each call as a value of `Store.Effect`, and methods append these to an `effects`
log. Timers become separate methods: the checkout's payment timer is `PaymentCompletes` and the
detail page's fetch timer is `FetchCompletes`. The method runs when the timer fires. An
outcome the page cannot see becomes a parameter, such as whether `register` succeeds.

Modules:

* `Wrappers` holds `Option`.
* `Seqs` holds filter, find and take, with subsequence facts.
* `Strings` holds ASCII lower-casing, substring search, first-dash replacement and the last
  path segment.
* `Catalog` (`catalog.dfy`) holds the product type and the twelve sample products; `Store`
  (`store.dfy`) holds the line item and the effect log.
* Each page has its own module: `ProductsPage`, `ProductCard`, `ProductDetailPage`, `Pricing`,
  `CartLines`, `CartPage`, `CartSidebar`, `Forms`, `CheckoutPage`, `AccountPage`,
  `RegisterPage`, `WishlistPage`, `OrdersPage` and `HomePage`.

Points where the model follows the code's behaviour rather than what a visitor might expect:

* **The total drops at the free-shipping line.** The grand total of a $45–$49.99 cart is
  higher than that of a $50 cart, because shipping becomes free at $50
  (`Pricing.ThresholdLowersTotal`).
* **A second payment can start.** The checkout's submit button stays enabled while the payment
  is processing. A second submit at step 2 starts a second payment timer.
* **"Back" works during processing.** The "Back" button is available while the payment is
  processing.
* **Ratings above 5 show more than five stars.**
* **Two tabs show the profile page.** The payment and settings tabs highlight their own link
  but show the profile page, and the URL can never select them.
* **The sample products preselect no variant.** The detail page preselects `variants[0]` only
  when the variants are a non-empty list. The only sample product with variants stores an object,
  so no sample product ever gets a preselected variant (`ProductDetailPage.CatalogPreselectsNothing`).
* **The browser checks the form before the page sees it.** Every input of the checkout and
  registration forms is `required` (the password also has `minLength={6}`, and the terms box
  must be ticked). A submit with a missing field never reaches `handleSubmit`, so both
  `Submit` methods change nothing for such a form (`CheckoutPage.StepComplete`,
  `RegisterPage.BrowserAccepts`).
* **Tab and page can disagree.** The router matches the account sub-routes ignoring case and
  trailing slashes, but the tab effect compares the last path segment exactly. At
  `/account/orders/` or `/account/Orders` the orders page is shown while the previous tab
  stays highlighted (`AccountPage.TrailingSlashDisagrees`, `AccountPage.CaseShowsOrders`, `AccountPage.CaseKeepsTab`).
* **The image index outlives the product.** `selectedImage` is not reset when the route moves
  to another product, so it can point past that product's gallery (`ProductDetailPage.MainImage`).
* **A failed lookup keeps the old product.** When the fetch timer does not find the id, the
  detail page keeps whatever product it showed before.

## Model

| member | source | states |
|---|---|---|
| Seqs.Filter | src/pages/ProductsPage.tsx:46-55 | `Array.filter`: the result is no longer than the input; an element is in it iff it is in the input and passes the test; every element passes |
| Seqs.FilterCounts | src/pages/ProductsPage.tsx:46-55 | `Array.filter` keeps every copy of a passing element and none of a failing one: each element's count is its count in the input if it passes, 0 otherwise |
| Seqs.FilterConcat | src/pages/ProductsPage.tsx:46-55 | filtering a concatenation is concatenating the filtered parts |
| Seqs.FilterAt | src/pages/HomePage.tsx:17-19 | a passing `s[j]` sits in the filtered list at the index given by the number of passing elements before it |
| Seqs.KeptBeforeGrows | src/pages/HomePage.tsx:17-19 | a passing element at `i` gives more passing elements before any later `j` than before `i` |
| Seqs.FilterDistinct | src/pages/HomePage.tsx:17-19 | filtering a list without repeats gives a list without repeats |
| Seqs.Find | src/pages/ProductsPage.tsx:99-108 | `Array.find`: `None` iff no element passes; otherwise the first element that passes |
| Seqs.FilterIsSubsequence | src/pages/ProductsPage.tsx:46-55 | filtering keeps the survivors in their original order |
| Seqs.FilterAllKept | src/pages/account/WishlistPage.tsx:20-22 | a filter that every element passes returns the list unchanged |
| Seqs.Take | src/pages/HomePage.tsx:17-19 | `slice(0, n)`: the first `min(n, length)` elements |
| Seqs.SubsequencePrefix | src/pages/HomePage.tsx:17-19 | a prefix of an order-preserving selection is still an order-preserving selection |
| Strings.Lower | src/pages/ProductsPage.tsx:48 | `toLowerCase` on ASCII: same length, each letter lowered, no upper-case letter left |
| Strings.LowerIdempotent | src/pages/account/OrdersPage.tsx:82 | lower-casing twice is lower-casing once |
| Strings.ContainsIff | src/pages/ProductsPage.tsx:48 | `includes` holds iff the needle occurs at some position of the string |
| Strings.ContainsEmpty | src/pages/ProductsPage.tsx:46-50 | every string includes the empty string |
| Strings.Utf16Length | src/pages/account/RegisterPage.tsx:113 | JavaScript's `length` in UTF-16 code units: at least the number of characters, at most twice it, and equal to it iff no character is above U+FFFF |
| Strings.EmojiCountTwice | src/pages/account/RegisterPage.tsx:113 | three emoji above U+FFFF are three characters but six code units |
| Strings.IndexOf | src/components/shop/ProductCard.tsx:128 | -1 iff the character is absent, otherwise its first position |
| Strings.ReplaceFirst | src/components/shop/ProductCard.tsx:128 | `replace('-', ' ')`: only the first dash becomes a space, every other character is kept |
| Strings.LastSegment | src/pages/AccountPage.tsx:23 | `split('/').pop()`: a suffix with no `/`, preceded by `/` unless it is the whole string |
| Strings.LastSegmentOfPath | src/pages/AccountPage.tsx:23-26 | the last segment of `p + "/" + seg` is `seg` when `seg` holds no `/` |
| ProductsPage.ParseSort | src/pages/ProductsPage.tsx:58-75 | a recognised sort value is the id of the order it selects; an unrecognised one is no order's id |
| ProductsPage.ParseSortIff | src/pages/ProductsPage.tsx:58-75 | the sort switch recognises exactly the four option ids, each as its own order |
| ProductsPage.ParseSortEmpty | src/pages/ProductsPage.tsx:58 | the empty sort selects no order |
| ProductsPage.LexTotal | src/pages/ProductsPage.tsx:70 | the name order compares any two names |
| ProductsPage.LexTrans | src/pages/ProductsPage.tsx:70 | the name order is transitive |
| ProductsPage.InOrderTotal | src/pages/ProductsPage.tsx:60-71 | each of the four comparators orders any two products one way or the other |
| ProductsPage.InOrderTrans | src/pages/ProductsPage.tsx:60-71 | each of the four comparators is transitive |
| ProductsPage.InCategory | src/pages/ProductsPage.tsx:46-48 | the category step's test: the product's category includes the lower-cased filter (its meaning as a position is `Strings.ContainsIff`) |
| ProductsPage.InPriceRange | src/pages/ProductsPage.tsx:52-54 | the price step's test: the price lies in the range, both ends included |
| ProductsPage.CategoryStep | src/pages/ProductsPage.tsx:46-50 | after the category step a product is listed iff it is in the input and the filter is empty or its category matches |
| ProductsPage.Filtered | src/pages/ProductsPage.tsx:46-55 | the list after both steps; its members, order and counts are stated by `FilteredMembers`, `FilteredIsSubsequence` and `Seqs.FilterCounts` |
| ProductsPage.EmptyFilterKeepsAll | src/pages/ProductsPage.tsx:46-50 | filtering by the empty category would keep every product, so skipping the step changes nothing |
| ProductsPage.FilteredMembers | src/pages/ProductsPage.tsx:46-55 | a product is listed iff it is in the catalog, its category contains the lower-cased filter (or the filter is empty), and its price lies in the range with both ends included |
| ProductsPage.FilteredIsSubsequence | src/pages/ProductsPage.tsx:46-55 | the two filter steps keep catalog order |
| ProductsPage.FilterFilter | src/pages/ProductsPage.tsx:46-55 | two filters in a row equal one filter by both tests |
| ProductsPage.Swap | src/pages/ProductsPage.tsx:61 | exchanges two array cells and keeps the rest and the multiset |
| ProductsPage.SortInPlace | src/pages/ProductsPage.tsx:58-75 | `result.sort(cmp)`: afterwards the array is sorted by the comparator and is a permutation of its old contents |
| ProductsPage.ApplyFiltersAndSort | src/pages/ProductsPage.tsx:42-78 | the listing holds exactly the filtered products (same multiset); in catalog order when no known sort is active, sorted by it otherwise |
| ProductsPage.CategoryName | src/pages/ProductsPage.tsx:99-102 | `getCurrentCategoryName`; its meaning is stated by `CategoryNameSpec` |
| ProductsPage.SortName | src/pages/ProductsPage.tsx:105-108 | `getCurrentSortName`; its meaning is stated by `SortNameSpec` |
| ProductsPage.CategoryNameSpec | src/pages/ProductsPage.tsx:81-102 | the heading is the name of the category whose id is the filter, and "All Products" when none has it |
| ProductsPage.SortNameSpec | src/pages/ProductsPage.tsx:89-108 | the sort label is the name of the option whose id is the sort, and "Featured" when none has it |
| ProductsPage.SortKeysAreOptions | src/pages/ProductsPage.tsx:89-96 | every order the switch sorts by is offered as an option |
| ProductsPage.FilterState.constructor | src/pages/ProductsPage.tsx:15-17 | starts with no category, no sort and the range 0 to 50 |
| ProductsPage.FilterState.LoadSearchParams | src/pages/ProductsPage.tsx:21-27 | the `category` and `sort` search parameters become the filter and sort, absent ones as empty; the range is kept |
| ProductsPage.FilterState.SelectCategory | src/pages/ProductsPage.tsx:133 | a category button sets the filter |
| ProductsPage.FilterState.SelectSort | src/pages/ProductsPage.tsx:236 | a sort option sets the sort |
| ProductsPage.FilterState.ToggleSort | src/pages/ProductsPage.tsx:302 | the desktop sort button clears an active sort, or picks ascending price when none is active |
| ProductsPage.FilterState.SlidePrice | src/pages/ProductsPage.tsx:157 | the slider sets the upper bound and keeps the lower one |
| ProductsPage.FilterState.ResetFilters | src/pages/ProductsPage.tsx:171-174 | desktop reset (and "Clear Filters"): no category, range 0 to 50, sort kept |
| ProductsPage.FilterState.ResetAll | src/pages/ProductsPage.tsx:273-277 | mobile reset: no category, no sort, range 0 to 50 |
| ProductsPage.FilterState.Visible | src/pages/ProductsPage.tsx:42-78 | the products shown for the current state: exactly the filtered ones with the same multiset, in catalog order without a known sort and sorted by it otherwise |
| ProductCard.Repeat | src/components/shop/ProductCard.tsx:53-64 | a run of `n` copies of one icon, none for `n <= 0` |
| ProductCard.StarRow | src/components/shop/ProductCard.tsx:48-67 | the icon row of a rating; its make-up is stated by `StarCounts`, `FiveIconsIff` and `StarOrder` |
| ProductCard.RenderRatingStars | src/components/shop/ProductCard.tsx:48-67 | the two loops build exactly the star row of the rating; the detail page's identical `renderRatingStars` (src/pages/ProductDetailPage.tsx:61-80) is the same method |
| ProductCard.RepeatCount | src/components/shop/ProductCard.tsx:53-64 | a run holds `n` of its icon and none of another |
| ProductCard.StarCounts | src/components/shop/ProductCard.tsx:48-67 | `floor(rating)` full stars (for a non-negative rating), one half star iff the rating is not whole, and `5 - full - half` empty stars, never fewer than zero; the same holds for the detail page's stars (src/pages/ProductDetailPage.tsx:61-80) |
| ProductCard.FiveIconsIff | src/components/shop/ProductCard.tsx:48-67 | the row has exactly five icons iff the rating is at most 5, more above it |
| ProductCard.WholeRating | src/components/shop/ProductCard.tsx:48-67 | a whole rating `n <= 5` shows `n` full then `5 - n` empty stars |
| ProductCard.StarOrder | src/components/shop/ProductCard.tsx:48-67 | full stars come first and empty stars last |
| ProductCard.QuickAddPayload | src/components/shop/ProductCard.tsx:31-37 | the quick-add item copies id, name, price and image, quantity 1, no variant |
| ProductCard.HandleAddToCart | src/components/shop/ProductCard.tsx:27-38 | the card's button makes one `addItem` call with that item |
| ProductCard.CategoryLabel | src/components/shop/ProductCard.tsx:128 | the tile's category label; its meaning is stated by `CategoryLabelSpec` |
| ProductCard.CategoryLabelSpec | src/components/shop/ProductCard.tsx:128 | the label keeps the category's length, is the category when it has no dash, and otherwise has a space at the first dash only |
| ProductCard.LabelKeepsLaterDashes | src/components/shop/ProductCard.tsx:128 | a second dash is kept |
| ProductDetailPage.FindById | src/pages/ProductDetailPage.tsx:24 | `None` iff no product has the id, otherwise the first product with it |
| ProductDetailPage.DefaultVariant | src/pages/ProductDetailPage.tsx:28-30 | a variant is preselected iff the variants are a non-empty list, and it is the first entry's value |
| ProductDetailPage.CatalogPreselectsNothing | src/pages/ProductDetailPage.tsx:28-30 | no sample product gets a preselected variant |
| ProductDetailPage.ClampQuantity | src/pages/ProductDetailPage.tsx:57-59 | `Math.max(1, n)`: at least 1, and `n` itself when it is |
| ProductDetailPage.DetailPayload | src/pages/ProductDetailPage.tsx:44-55 | the item copies the product, carries the chosen quantity, and has a variant iff one is selected |
| ProductDetailPage.DetailAgreesWithQuickAdd | src/pages/ProductDetailPage.tsx:44-55 | with quantity 1 and no variant the page adds what the card's quick-add adds |
| ProductDetailPage.GalleryImages | src/pages/ProductDetailPage.tsx:124 | the main image followed by the gallery, which may be absent |
| ProductDetailPage.ThumbnailsIff | src/pages/ProductDetailPage.tsx:151 | thumbnails appear iff the product has a non-empty gallery |
| ProductDetailPage.MainImage | src/pages/ProductDetailPage.tsx:143 | `galleryImages[selectedImage]`: an image iff the index is within this product's gallery, and then that image |
| ProductDetailPage.FirstImageShown | src/pages/ProductDetailPage.tsx:124-143 | index 0 always shows the product's own image |
| ProductDetailPage.ProductDetail.constructor | src/pages/ProductDetailPage.tsx:13-17 | starts loading, with no product, no variant, quantity 1, the first image |
| ProductDetailPage.ProductDetail.StartFetch | src/pages/ProductDetailPage.tsx:20-22 | the fetch effect shows the placeholder |
| ProductDetailPage.ProductDetail.FetchCompletes | src/pages/ProductDetailPage.tsx:23-34 | a found product replaces the shown one and may preselect a variant; an unknown id keeps both; loading ends |
| ProductDetailPage.ProductDetail.QuantityChange | src/pages/ProductDetailPage.tsx:57-59 | the quantity becomes the clamped request and stays at least 1 |
| ProductDetailPage.ProductDetail.Decrement | src/pages/ProductDetailPage.tsx:222-225 | the enabled "-" button lowers the quantity by one |
| ProductDetailPage.ProductDetail.Increment | src/pages/ProductDetailPage.tsx:233 | "+" raises the quantity by one |
| ProductDetailPage.ProductDetail.SelectVariant | src/pages/ProductDetailPage.tsx:204 | a variant button selects that value |
| ProductDetailPage.ProductDetail.SelectImage | src/pages/ProductDetailPage.tsx:156 | a thumbnail (or a mobile dot, line 325) selects its index, and the main image becomes that gallery entry |
| ProductDetailPage.ProductDetail.AddToCart | src/pages/ProductDetailPage.tsx:44-55 | one `addItem` with the detail payload when a product is shown, nothing otherwise |
| ProductDetailPage.MissingProduct | src/pages/ProductDetailPage.tsx:20-55 | for an unknown id, loading ends with no product and adding asks for nothing |
| ProductDetailPage.QuantityAlwaysPositive | src/pages/ProductDetailPage.tsx:44-59 | for every sequence of fetches, quantity inputs, "-"/"+" presses, variant and image choices and adds, every call sent to the cart is an `addItem` of at least one item |
| Pricing.ShippingPrice | src/pages/CartPage.tsx:24 | free iff the subtotal is at least 50, and 5.99 otherwise |
| Pricing.TaxPrice | src/pages/CartPage.tsx:25 | 8% of the subtotal: 12.5 times the tax is the subtotal, and it lies between 0 and a non-negative subtotal |
| Pricing.Summary | src/pages/CartPage.tsx:24-26 | the summary block; its rule is stated by `SummaryRule` |
| Pricing.SummaryRule | src/pages/CartPage.tsx:24-26 | shipping is free iff the subtotal is at least 50 and 5.99 otherwise; tax is 8%; the total is their sum |
| Pricing.TotalCoversSubtotal | src/pages/CartPage.tsx:24-26 | the total is positive and never below a non-negative subtotal |
| Pricing.ThresholdLowersTotal | src/pages/CartPage.tsx:24-26 | a subtotal from 45 up to (not including) 50 costs more in total than a subtotal of exactly 50 |
| Pricing.TotalMonotoneWithinBands | src/pages/CartPage.tsx:24-26 | on either side of the threshold a larger subtotal never costs less |
| CartLines.DecreaseRequest | src/pages/CartPage.tsx:113 | "-" asks for one less, never below 1 |
| CartLines.IncreaseRequest | src/pages/CartPage.tsx:122 | "+" asks for exactly one more, and "-" on the result asks for the old quantity (at least 1) |
| CartLines.RemoveRequest | src/pages/CartPage.tsx:133 | the remove button asks to remove the line's id |
| CartLines.StepperRoundTrip | src/pages/CartPage.tsx:113-122 | "+" then "-" restores the quantity; "-" at 1 leaves it at 1 |
| CartLines.RemoveIgnoresVariant | src/pages/CartPage.tsx:133 | removal is by id alone, so two lines with one id ask for the same removal |
| CartLines.Lines | src/pages/CartPage.tsx:95-140 | one line per cart item, in order |
| CartLines.LinesSpec | src/pages/CartPage.tsx:103-133 | each line shows price times quantity and carries its three requests |
| CartPage.View | src/pages/CartPage.tsx:28-55 | the empty view iff the cart is empty, otherwise the lines and the summary |
| CartPage.ViewRequestsPositive | src/pages/CartPage.tsx:113-133 | no button of the page asks for a quantity below 1, each asks about its own line |
| CartSidebar.View | src/components/shop/CartSidebar.tsx:38-161 | nothing iff the panel is closed; when open, the empty view iff the cart is empty, otherwise the lines and a subtotal footer |
| CartSidebar.HandleCheckout | src/components/shop/CartSidebar.tsx:19-22 | close the panel, then go to `/checkout` |
| CartSidebar.BrowseProducts | src/components/shop/CartSidebar.tsx:83-86 | close the panel, then go to `/products` |
| CartSidebar.SameLinesAsCartPage | src/components/shop/CartSidebar.tsx:127-147 | the open sidebar's lines equal the cart page's lines |
| Forms.EventValue | src/pages/CheckoutPage.tsx:49-54 | a checkbox stores its checked flag, any other input its value |
| Forms.ChangeField | src/pages/CheckoutPage.tsx:48-55 | the changed input's entry becomes its checked flag for a checkbox and its value otherwise; every other field is kept |
| Forms.Filled | src/pages/CheckoutPage.tsx:160 | a `required` text input passes when it holds a non-empty value |
| Forms.ChangesCompose | src/pages/CheckoutPage.tsx:48-55 | a later change to one input overrides an earlier one; changes to different inputs commute |
| Forms.ChangeToSameValue | src/pages/CheckoutPage.tsx:48-55 | re-entering a field's value leaves the form as it was |
| CheckoutPage.InitialForm | src/pages/CheckoutPage.tsx:15-28 | the user's e-mail or "", every other text field empty, "save info" unticked |
| CheckoutPage.StepComplete | src/pages/CheckoutPage.tsx:149-349 | the browser lets a submit through iff every required input the step renders is filled: the six shipping fields plus the e-mail when signed out (149-251), the four card fields at step 2 (302-349) |
| CheckoutPage.InitialFormIncomplete | src/pages/CheckoutPage.tsx:15-28 | a fresh form passes neither step's required inputs |
| CheckoutPage.SummaryLines | src/pages/CheckoutPage.tsx:393-411 | one summary entry per cart item, in order, holding the item and price times quantity, with no buttons |
| CheckoutPage.SummaryLinesMatchCart | src/pages/CheckoutPage.tsx:393-411 | the checkout lists the same item and line total as the cart page at every index |
| CheckoutPage.Checkout.constructor | src/pages/CheckoutPage.tsx:11-30 | step 1, not processing, not complete, the initial form for the signed-in user's e-mail, nothing sent |
| CheckoutPage.Checkout.RedirectsToCart | src/pages/CheckoutPage.tsx:32-35 | the guard sends the visitor to the cart iff the cart is empty and no order was just completed |
| CheckoutPage.Checkout.Submit | src/pages/CheckoutPage.tsx:57-73 | with a required input of the step empty nothing changes; otherwise step 1 moves to step 2, and step 2 starts processing and one more payment timer |
| CheckoutPage.Checkout.PaymentCompletes | src/pages/CheckoutPage.tsx:67-71 | processing ends, the order is complete, one `clearCart` is sent, and the empty cart no longer redirects |
| CheckoutPage.Checkout.Back | src/pages/CheckoutPage.tsx:366 | "Back" returns to step 1 |
| CheckoutPage.Checkout.InputChange | src/pages/CheckoutPage.tsx:48-55 | only the named field changes |
| CheckoutPage.Checkout.View | src/pages/CheckoutPage.tsx:75-112 | the confirmation iff the order is complete, otherwise the current step with the order summary's lines (lines 393-411) and the cart page's price summary |
| CheckoutPage.Checkout.FillIn | src/pages/CheckoutPage.tsx:48-55 | typing a non-empty value into each named input fills them all and keeps every other field |
| CheckoutPage.EmptyFormBlocked | src/pages/CheckoutPage.tsx:149-251 | on a fresh page, signed in or not, a submit leaves the visitor on step 1 without processing |
| CheckoutPage.HappyPath | src/pages/CheckoutPage.tsx:32-73 | a signed-out visitor who fills in both steps completes the order with one `clearCart`, and the emptied cart does not redirect |
| CheckoutPage.BackAndResubmit | src/pages/CheckoutPage.tsx:57-66 | with the shipping step filled in, submit, "Back", submit lands on step 2 without starting a payment |
| AccountPage.ResolveTab | src/pages/AccountPage.tsx:21-26 | the tab is kept or becomes one of profile/orders/wishlist, and changes only to the path's final `/`-segment |
| AccountPage.ResolveTabFromPath | src/pages/AccountPage.tsx:21-26 | a path ending in `/profile`, `/orders` or `/wishlist` selects that tab, whatever was highlighted |
| AccountPage.TrailingSlashKeepsTab | src/pages/AccountPage.tsx:23-24 | a path ending in `/` has an empty last segment and keeps the highlighted tab |
| AccountPage.UrlNeverSelectsPaymentOrSettings | src/pages/AccountPage.tsx:24 | from a URL-selectable tab the URL never selects payment or settings |
| AccountPage.ClickTab | src/pages/AccountPage.tsx:80-136 | a sidebar link highlights its own tab |
| AccountPage.TrimTrailingSlashes | src/pages/AccountPage.tsx:167-172 | the longest prefix not ending in `/`, with only slashes after it |
| AccountPage.Route | src/pages/AccountPage.tsx:33-41 | comparing the sub-path without trailing slashes and case: signed out, the register form iff it is `register`, the login form otherwise; signed in, never those, and the orders and wishlist pages iff it is theirs (lines 167-172) |
| AccountPage.RouteIgnoresCaseAndSlashes | src/pages/AccountPage.tsx:167-172 | an added trailing slash or a change of case shows the same page |
| AccountPage.TrailingSlashDisagrees | src/pages/AccountPage.tsx:21-26 | at `/account/orders/` the orders page shows while the first tab stays highlighted |
| AccountPage.CaseShowsOrders | src/pages/AccountPage.tsx:169 | `/account/Orders` shows the orders page |
| AccountPage.CaseKeepsTab | src/pages/AccountPage.tsx:23-26 | at `/account/Orders` the first tab stays highlighted |
| AccountPage.PaymentAndSettingsShowProfile | src/pages/AccountPage.tsx:167-172 | payment and settings show the profile page although their tab is not URL-selectable |
| AccountPage.HandleLogout | src/pages/AccountPage.tsx:43-46 | sign out, then go home |
| RegisterPage.InitialForm | src/pages/account/RegisterPage.tsx:10-16 | four empty text fields and the unticked terms box |
| RegisterPage.PasswordsMatch | src/pages/account/RegisterPage.tsx:37 | the two password entries are equal |
| RegisterPage.RegisterRequest | src/pages/account/RegisterPage.tsx:43 | `register(email, password, name)` with the entered texts; what it sends is stated by `Entered` |
| RegisterPage.BrowserAccepts | src/pages/account/RegisterPage.tsx:82-143 | the browser fires `submit` iff the name, e-mail and both password inputs are non-empty, the password is at least 6 UTF-16 code units long (a character above U+FFFF counts twice, as `minLength` counts) and the terms box is ticked |
| RegisterPage.EmojiPasswordAccepted | src/pages/account/RegisterPage.tsx:82-143 | a complete, ticked form whose password and confirmation are three emoji passes `minLength={6}`, matches, and registers that password |
| RegisterPage.InitialFormRejected | src/pages/account/RegisterPage.tsx:82-143 | the fresh form cannot be submitted |
| RegisterPage.Entered | src/pages/account/RegisterPage.tsx:37-43 | a form holding non-empty entries, a 6-character password and the ticked box passes; it matches iff the two passwords agree, and registers exactly the entered e-mail, password and name |
| RegisterPage.RegisterForm.constructor | src/pages/account/RegisterPage.tsx:10-17 | the initial form, no error, nothing sent |
| RegisterPage.RegisterForm.InputChange | src/pages/account/RegisterPage.tsx:19-31 | the field changes as in checkout; typing in either password field clears the error, other fields keep it |
| RegisterPage.RegisterForm.Submit | src/pages/account/RegisterPage.tsx:33-48 | a form the browser rejects changes nothing; differing passwords set "Passwords do not match" and send nothing; otherwise `register(email, password, name)` is sent, followed by the profile navigation only when it succeeded |
| RegisterPage.EnterDetails | src/pages/account/RegisterPage.tsx:19-31 | typing the four entries and ticking the box leaves exactly those values in the form, clears the error and sends nothing |
| RegisterPage.MismatchThenFix | src/pages/account/RegisterPage.tsx:19-48 | on a complete form a mismatch sends nothing and shows the message; editing a password clears it and the passwords then match |
| RegisterPage.MatchRegisters | src/pages/account/RegisterPage.tsx:33-48 | a complete matching form registers the entered details, and opens the profile iff registering succeeded |
| RegisterPage.TermsRequired | src/pages/account/RegisterPage.tsx:136-143 | without the terms box ticked, a complete matching form sends nothing and shows no message |
| WishlistPage.InitialWishlist | src/pages/account/WishlistPage.tsx:10-14 | catalog entries 0, 3 and 5 |
| WishlistPage.InitialWishlistIds | src/pages/account/WishlistPage.tsx:10-14 | those are products 1, 4 and 6 |
| WishlistPage.RemoveFromWishlist | src/pages/account/WishlistPage.tsx:20-22 | a product stays iff it was there and has another id |
| WishlistPage.RemoveSpec | src/pages/account/WishlistPage.tsx:20-22 | removal keeps order, leaves a list without the id unchanged, and is idempotent |
| WishlistPage.AddToCart | src/pages/account/WishlistPage.tsx:24-32 | one `addItem` of quantity 1 and no variant, the card's quick-add item; the wishlist is unchanged |
| WishlistPage.View | src/pages/account/WishlistPage.tsx:43-45 | the header counts the entries; the empty view iff there are none |
| OrdersPage.Toggle | src/pages/account/OrdersPage.tsx:65-67 | collapses iff the clicked order was expanded; otherwise expands exactly that order |
| OrdersPage.ToggleTwiceIff | src/pages/account/OrdersPage.tsx:65-67 | two clicks on one order restore the state iff nothing or that order was expanded; from another expanded order they collapse everything |
| OrdersPage.AfterClicks | src/pages/account/OrdersPage.tsx:63-67 | the expanded order after a run of clicks from none; its meaning is stated by `AfterClicksSpec` |
| OrdersPage.AfterClicksSpec | src/pages/account/OrdersPage.tsx:63-67 | after any clicks at most one order is expanded, and it is the last one clicked; it is collapsed iff the last run of clicks on it has even length |
| OrdersPage.StatusColor | src/pages/account/OrdersPage.tsx:81-94 | always one of the five status classes |
| OrdersPage.StatusCaseInsensitive | src/pages/account/OrdersPage.tsx:81-94 | the colour depends only on the lower-cased status |
| OrdersPage.StatusColorSpec | src/pages/account/OrdersPage.tsx:81-94 | grey iff the status is none of delivered/shipped/processing/cancelled in any case; delivered, shipped, processing and cancelled each get their own class |
| OrdersPage.DeliveredExample | src/pages/account/OrdersPage.tsx:83-84 | "Delivered" gets the delivered colour |
| HomePage.JsRem | src/pages/HomePage.tsx:27 | JavaScript `%` for a positive divisor: the Euclidean remainder for a non-negative dividend, and the negated remainder of the negated dividend otherwise |
| HomePage.JsDivision | src/pages/HomePage.tsx:27 | `%` is the remainder of division truncated toward zero: dividend = divisor × quotient + remainder, the remainder smaller than the divisor and of the dividend's sign |
| HomePage.JsRemDivides | src/pages/HomePage.tsx:27 | for the divisor 3, dividend and remainder differ by a multiple of 3 |
| HomePage.NextBanner | src/pages/HomePage.tsx:25-31 | a tick moves a shown banner to the next one and wraps from the last to the first |
| HomePage.BannerAfter | src/pages/HomePage.tsx:11-31 | the banner after `n` ticks from the first; its meaning is stated by `BannerAfterIsRemainder` |
| HomePage.BannerAfterIsRemainder | src/pages/HomePage.tsx:11-31 | after `n` ticks from the first banner, banner `n mod 3` is shown |
| HomePage.ThreeTicksReturn | src/pages/HomePage.tsx:25-31 | three ticks bring any banner back |
| HomePage.SelectDot | src/pages/HomePage.tsx:130-136 | a dot shows its own banner, which is in range |
| HomePage.Featured | src/pages/HomePage.tsx:15-22 | at most four products, all best-sellers |
| HomePage.FeaturedSpec | src/pages/HomePage.tsx:17-19 | the featured products keep catalog order, are four when there are at least four best-sellers (all of them otherwise), and include every best-seller with fewer than four best-sellers before it: they are the first best-sellers |
| HomePage.FeaturedArePrefix | src/pages/HomePage.tsx:17-19 | in a catalog without repeated entries, a best-seller listed before a featured product is featured too |

## Left out

- Rendering, styling, animation, hover state and icons are not modelled; only which view a page renders is.
- The cart store's own code (`addItem`, `updateQuantity`, `removeItem`, `clearCart`, `totalPrice`) is not part of this model. The pages' calls into it are recorded as `Store.Effect` values, and the cart's contents and total are parameters.
- The auth context is not part of this model: `isAuthenticated`, `user` and the outcome of `register` are parameters, and `login`/`logout` become effects. `isLoading` and `error` on the registration form only affect rendering. The checkout takes `isAuthenticated` once, so signing in or out while the checkout is open is not modelled.
- The `console.error` logged when registering fails is console output and not modelled; the model only records that no navigation follows.
- The browser's `type="email"` format check on the e-mail inputs is not modelled; only their `required` check is.
- The login and profile sub-pages and the not-found page are not part of this model; neither are the Navbar, Footer, Button and App routing outside the account area.
- Timers become separate methods that run when the timer fires. The 800 ms fetch delay and the 2000 ms payment delay, and the listing's 800 ms loading placeholder, are not modelled as durations.
- `window.scrollTo`, the order number drawn with `Math.random`, and `Intl` price and date formatting are left out as I/O or display.
- Prices and ratings are exact reals. JavaScript floating-point rounding in the tax and total is not modelled.
- ProductsPage.LexLe: `localeCompare` is replaced by code-point lexicographic order. Locale collation rules are not modelled.
- ProductsPage.SortInPlace: only the outcome of `Array.sort` is stated (sorted, a permutation). Its stability, and so the relative order of ties, is not claimed.
- Strings.Lower: `toLowerCase` lowers ASCII letters only. Unicode case mapping is not modelled.
- AccountPage.Route: the router's own normalisation beyond trailing slashes and ASCII case (repeated inner slashes, percent-encoding) is not modelled.
- ProductsPage.FilterState.SlidePrice: the slider value is taken as an integer. `parseInt` of the input's text is not modelled.
- HomePage.FeaturedArePrefix: stated for a catalog without repeated entries; with a product listed twice, a copy after the fourth best-seller is "featured" as a value although its position was not taken.
- The product description, review count, "new"/"best-seller" badges and the lightbox are display state and not modelled beyond `GalleryImages`, `ThumbnailsIff` and `MainImage`.
- The sample orders' contents and totals on the order-history page are display data and not modelled; only `toggleOrderDetails` and `getStatusColor` are.
- Plain navigation buttons are not modelled: "Continue Shopping", "Back" (`navigate(-1)`), "Back to Products" on the detail page's not-found view, and the cart page's checkout button.
- The home page's banner texts and images and its category tiles are static content and not modelled.
