# rpm-importados storefront core, in Dafny

A model of the logic of the rpm-importados web shop (a React storefront over a
document store). It covers:

- **Shipping** (`Shipping`): the default zone table and prefix-based zone
  lookup with the `otros` fallback. It also covers the quote for a weight,
  with the first kilogram included in the base cost, the fixed quote for an
  unknown zone, and the zero quote returned when the zone table cannot be
  read. The address validator and the address display formatter belong here
  too.
- **Cart** (`Cart`, `Catalog`): the storefront layout's cart reducer.
  - `addToCart` clamps to `stock ?? 99`, using the stock of the product being
    added.
  - `removeFromCart`.
  - `updateQuantity` clamps to `[1, stock ?? 99]`.
  - `clearCart`, the header total and count, and opening the checkout.
- **Variant pricing** (`Variants`): the variant picker's selection object and
  the modifier it shows. It also covers the product page's final price,
  variant description, quantity buttons and add-to-cart.
- **Checkout** (`Checkout`): the checkout modal as a state machine.
  - Loading the profile.
  - Choosing the saved or a custom address.
  - Editing the custom address.
  - Quoting at an estimated 1 kg.
  - The "Continuar" and "Volver" buttons.
  - The payload `handlePlaceOrder` hands to `createOrder`.
- **Orders** (`Orders`): the document `createOrder` stores, what
  `updateOrderStatus` writes, and the client-side fallback ordering of a
  user's orders.
- **User profile** (`UserProfile`): the default profile, and the one-line
  address written when a profile is saved.
- **Admin pages** (`Metrics`, `AdminOrders`): the metrics page's figures, and
  the orders page's status filter, status badge and update dialog.
- **Product listing** (`Products`): the query `fetchProducts` sends, and the
  search and price sort it applies on the client.
- **Routes** (`Routes`): `createPageUrl`.

`Prelude` and `Sorting` hold the JavaScript helpers these share:
- `||` on strings;
- `startsWith` and `includes`;
- ASCII `toLowerCase`;
- `trim() === ""`;
- `filter`, `join` and `reduce`;
- a stable insertion sort standing in for `Array.prototype.sort`.

Modelling conventions:
- Money is `real`.
- A missing number, or a `NaN` sum, is `None`. A stored `null` price is
  read the same way as an absent one (see "## Left out").
- A missing string is `""`.
- The entries of a JavaScript object are an association list in insertion
  order.
- The outcome of each document-store read is a parameter: `TableRead`,
  `ProfileRead`, the product snapshot, and the orders read.
- The store's answer to the order write is a parameter too: `StoreAnswer`
  says whether it accepts a document it can encode (security rules and the
  network can refuse it).
- Server timestamps are integers passed in.
- Each asynchronous handler is a function from the modal's state to the next
  one. It is taken to finish before the next event.

Behaviours of the code the model keeps as written:
- **Unknown zone.** With no zone and no `otros` zone, the quote is
  "Desconocida" at 2500 + 600 per kg for every kilogram. A read that throws
  gives the zero-cost "Error en cálculo" quote.
- **Order status.** Nothing restricts order status transitions.
- **Tracking number.** A tracking number is written for any status, and it
  can never be cleared.
- **Accepted quotes.** The checkout accepts a degraded quote (the zero-cost
  error quote) and a quote left over from another address.
- **Payload.** The payload does not re-check the address it sends.
- **Missing prices.** The document store is opened without
  `ignoreUndefinedProperties`, so an order line whose product has no price
  makes the write fail. The shopper then gets the error alert and keeps the
  cart.

## Model

| member | source | states |
|---|---|---|
| Catalog.StockLimit | src/components/Layout.jsx:83 | A missing stock allows 99 units; otherwise the stock itself is the limit. |
| Prelude.ContainsAt | src/services/products.js:62-63 | `includes` holds exactly when the substring occurs at some offset. |
| Prelude.Lower | src/services/products.js:59 | Lower-casing keeps the length and maps every character through the ASCII case mapping. |
| Prelude.Join | src/services/shipping.js:208 | Joining no parts is "", one part is that part, and the first part always starts the result. |
| Prelude.Filter | src/services/shipping.js:206 | The kept elements are exactly those satisfying the predicate, in their original order, each as often as it occurs in the input. |
| Sorting.SortAscending | src/services/products.js:67 | The result is a permutation of the input in ascending key order. |
| Sorting.SortDescending | src/services/orders.js:123-127 | The result is a permutation of the input in descending key order. |
| Sorting.SortAscendingSorted | src/services/products.js:67 | Sorting an already ascending list leaves it unchanged, so the sort is stable on ties. |
| Shipping.FindZone | src/services/shipping.js:113-117 | A zone is found exactly when some zone has a prefix of the code, and it is the first such zone in table order. |
| Shipping.FindById | src/services/shipping.js:121 | A zone is found exactly when some zone carries the id, and the result belongs to the table and carries that id. |
| Shipping.FindByIdAt | src/services/shipping.js:121 | The id lookup returns the first zone carrying the id. |
| Shipping.ResolveZone | src/services/shipping.js:113-122 | A matching zone wins, the first in table order; with no match, the result is the `otros` lookup. |
| Shipping.EmptyPrefixesNeverMatch | src/services/shipping.js:78 | A zone with an empty prefix list matches no postal code. |
| Shipping.EmptyPrefixZoneIsFallback | src/services/shipping.js:119-122 | A resolved zone without prefixes is `otros`, reached only because no zone matched. |
| Shipping.DeliveryEstimate | src/services/shipping.js:140-145 | Córdoba, Santa Fe, Mendoza and Tucumán get "5-7 días hábiles", `otros` gets "7-10", and every other id gets "3-5". |
| Shipping.ZoneQuote | src/services/shipping.js:135-154 | The quote carries the zone's name, id and base cost, its total is base plus additional, and its estimate follows the zone id. |
| Shipping.UnknownZoneQuote | src/services/shipping.js:124-133 | The "Desconocida" quote has no zone id, and its total is base plus additional. |
| Shipping.CalculateShippingCost | src/services/shipping.js:104-165 | A failed read gives the error quote; no zone gives the unknown-zone quote; otherwise the resolved zone's quote. Every total is base plus additional. |
| Shipping.ZoneCostFormula | src/services/shipping.js:135-137 | The additional cost is (weight − 1) × rate above one kilogram and 0 otherwise, so up to 1 kg the total is the base cost. |
| Shipping.ZoneCostMonotone | src/services/shipping.js:136-137 | With a non-negative rate, a heavier parcel never costs less. |
| Shipping.UnknownZoneCost | src/services/shipping.js:124-133 | With no match and no `otros` zone, every kilogram is charged at 600 on a base of 2500, with the "7-10" estimate. |
| Shipping.ErrorQuoteShape | src/services/shipping.js:155-164 | A failed read gives zero costs, "Error en cálculo", "Contactar soporte" and no zone id. |
| Shipping.ZoneIdMeansResolved | src/services/shipping.js:147-154 | A quote carries a zone id exactly when a zone was resolved. |
| Shipping.DefaultZonesWellFormed | src/services/shipping.js:11-82 | The default zone ids are distinct, and only `otros` has no prefixes. |
| Shipping.NoMatchOnTwoChars | src/services/shipping.js:113-117 | A zone none of whose prefixes agrees with the code on the first two characters does not match it. |
| Shipping.DefaultFallbackIsLast | src/services/shipping.js:75-81 | In the default table, the `otros` lookup finds the last zone. |
| Shipping.NoDefaultZoneMatches1234 | src/services/shipping.js:11-82 | No default zone has a prefix of "1234". |
| Shipping.PrefixesAreNotRanges | src/services/shipping.js:15 | "1000"/"1999" act as prefixes, not as a range, so "1234" resolves to `otros`. |
| Shipping.OverlapGoesToFirstZone | src/services/shipping.js:29 | A code starting with 1999 is quoted as CABA, never as GBA Sur, whose prefix it also has. |
| Shipping.InteriorIsNear | src/services/shipping.js:140-145 | Interior Buenos Aires gets the near "3-5" estimate. |
| Shipping.SetField | src/components/CheckoutModal.jsx:90 | The edited field takes the new value, and every other field keeps its value. |
| Shipping.FirstBlankIndex | src/services/shipping.js:173-180 | The position of the first blank field in checking order; every field before it is non-blank. |
| Shipping.FirstBlank | src/services/shipping.js:173-180 | No field is reported exactly when every listed field is non-blank; otherwise the first blank one is reported. |
| Shipping.FirstBlankAgrees | src/services/shipping.js:173-180 | Addresses that agree on the checked fields report the same first blank field. |
| Shipping.ValidateShippingAddress | src/services/shipping.js:170-191 | Valid exactly when each required field is non-blank after trimming and the untrimmed code matches `^\d{4,5}$`. |
| Shipping.ValidationReportsFirstBlank | src/services/shipping.js:171-179 | The error names the first blank field in the order street, streetNumber, city, province, postalCode. |
| Shipping.ValidationChecksPattern | src/services/shipping.js:182-188 | With every required field present, a code that fails the pattern gives "Código postal inválido". |
| Shipping.BetweenStreetsNotRequired | src/services/shipping.js:171 | The cross streets never change the validation outcome. |
| Shipping.ValidPostalCodeLength | src/services/shipping.js:183 | A valid address has a postal code of 4 or 5 characters. |
| Shipping.PaddedPostalCodeRejected | src/services/shipping.js:183 | A complete address whose code is " 1005" is rejected: the pattern sees the untrimmed code. |
| Shipping.FormatShippingAddress | src/services/shipping.js:196-197 | A missing address shows "Dirección no especificada". |
| Shipping.FormatComplete | src/services/shipping.js:199-208 | A complete address shows all six parts joined by ", ", with "entre " before the cross streets and "CP: " before the code. |
| Shipping.FormatSkipsEmpty | src/services/shipping.js:199-208 | Empty parts are dropped: only a code shows "CP: code", and an empty address shows "". |
| Cart.FindLine | src/components/Layout.jsx:81 | A line is found exactly when the id is in the cart, and it is the first line with that id. |
| Cart.SetQuantity | src/components/Layout.jsx:84-86 | The lines with the id get the new quantity, and the others are unchanged. |
| Cart.AddToCart | src/components/Layout.jsx:78-89 | A null product changes nothing; a new id is appended with quantity min(stock ?? 99, qty); a known id keeps the length. |
| Cart.AddExisting | src/components/Layout.jsx:81-86 | In a cart of distinct ids, re-adding only changes that line's quantity, to min(stock ?? 99, old + qty). |
| Cart.AddOutOfStock | src/components/Layout.jsx:88 | A new product with stock 0 enters the cart with quantity 0. |
| Cart.AddAgainKeepsFirstPersonalisation | src/components/Layout.jsx:82-86 | Re-adding a product keeps the first line's fields, so the new variant selection is lost. |
| Cart.RemoveFromCart | src/components/Layout.jsx:93-95 | No line with the id remains; every other line stays, as often as it occurred and in order. |
| Cart.ClampedQuantity | src/components/Layout.jsx:101 | The new quantity is old + delta when that lies in range, 1 when it falls below 1, and the limit (or 1 for a limit below 1) when it exceeds the limit. |
| Cart.UpdateQuantity | src/components/Layout.jsx:97-105 | Same length and items; every line with the id gets the clamped quantity and every other line is unchanged. |
| Cart.UpdateOutOfStock | src/components/Layout.jsx:101 | On a product with stock 0, the lower clamp wins and the quantity becomes 1. |
| Cart.Clear | src/components/Layout.jsx:107 | The cleared cart is empty. |
| Cart.AddKeepsIdsUnique | src/components/Layout.jsx:78-89 | Adding keeps the cart's ids distinct. |
| Cart.RemoveKeepsIdsUnique | src/components/Layout.jsx:93-95 | Removing keeps the cart's ids distinct. |
| Cart.UpdateKeepsIdsUnique | src/components/Layout.jsx:97-105 | Changing a quantity keeps the cart's ids distinct. |
| Cart.EmptyCartTotals | src/components/Layout.jsx:109-116 | An empty cart totals 0 with a count of 0. |
| Cart.AddNewTotals | src/components/Layout.jsx:109-116 | A new line adds exactly (price or 0) × its quantity to the total, and its quantity to the count. |
| Cart.UpdateTotals | src/components/Layout.jsx:97-116 | A quantity change moves the total and the count by that line's change alone. |
| Cart.LayoutAdd | src/components/Layout.jsx:78-91 | Adding applies the reducer and opens the drawer, unless the product is null. |
| Cart.HandleCheckout | src/components/Layout.jsx:118-122 | An empty cart changes nothing; otherwise the drawer closes and the checkout opens. |
| Cart.HandleCheckoutSuccess | src/components/Layout.jsx:124-127 | The cart is emptied, with total 0 and count 0, and the checkout closes. |
| Variants.FindVariant | src/pages/ProductDetails.jsx:40 | The variant found is the first one of the type; none is found only when no variant has it. |
| Variants.FindOption | src/pages/ProductDetails.jsx:41 | The option found is the first one with the value; none is found only when no option has it. |
| Variants.ModifierOf | src/components/ProductVariants.jsx:27 | A missing option or modifier counts as 0; otherwise the option's modifier. |
| Variants.GetVariantPriceModifier | src/components/ProductVariants.jsx:24-28 | An unresolved selection shows 0; a resolved option shows its own modifier when it has one; a non-zero value comes from a resolved option that carries it. |
| Variants.Lookup | src/components/ProductVariants.jsx:20-22 | A type has no selection exactly when no entry has that key. |
| Variants.Select | src/components/ProductVariants.jsx:12-15 | An existing key keeps its place, and a new key is appended last. |
| Variants.SelectSetsOnlyThatKey | src/components/ProductVariants.jsx:12-15 | After a selection, that key reads the new value and every other key reads as before. |
| Variants.SelectKeysFrom | src/components/ProductVariants.jsx:12-15 | Every key after a selection was already selected or is the new one. |
| Variants.SelectKeepsKeysDistinct | src/components/ProductVariants.jsx:12-15 | Selection keeps the keys distinct. |
| Variants.SelectIdempotent | src/components/ProductVariants.jsx:11-18 | Choosing the same option twice gives the same selection as choosing it once. |
| Variants.HandleVariantSelect | src/components/ProductVariants.jsx:11-18 | The new local selection is passed to the callback, when there is one. |
| Variants.CalculateFinalPrice | src/pages/ProductDetails.jsx:35-47 | Without variants the price is `price or 0`; with variants and no price it is not a number. |
| Variants.AddModifiersIsSum | src/pages/ProductDetails.jsx:38-46 | The entry-by-entry accumulation is the base plus the sum of the picker's modifiers. |
| Variants.FinalPriceIsBasePlusModifiers | src/pages/ProductDetails.jsx:35-47 | The final price is the base price plus the modifier the picker shows for each selection. |
| Variants.NegativeModifierLowersPrice | src/pages/ProductDetails.jsx:42-44 | Nothing clamps the price: one negative modifier puts it below the base. |
| Variants.SeedThermosRedSmall | seed-products.js:26-54 | The seed thermos in red at 500 ml is priced 89.99 + 5 − 15 = 79.99. |
| Variants.SummaryEntries | src/components/ProductVariants.jsx:128-131 | The summary lists, in order, exactly the selections that resolve to an option whose modifier is not 0. |
| Variants.SummaryAccountsForPrice | src/components/ProductVariants.jsx:128-137 | The listed entries' modifiers add up to the whole difference between the final and the base price. |
| Variants.ListedDescribedAsInSummary | src/components/ProductVariants.jsx:128-135 | A selection the summary lists is described in the cart exactly as the summary line shows it. |
| Variants.DescribeEntries | src/pages/ProductDetails.jsx:55-59 | One entry description per selection, in the selection's order (see `Variants.DescribeEntry`). |
| Variants.DescribeEntry | src/pages/ProductDetails.jsx:56-58 | A resolved selection reads "variant name: option label"; an unresolved option reads "variant name: undefined"; an unresolved variant reads "undefined: undefined". |
| Variants.DescriptionAppend | src/pages/ProductDetails.jsx:56-60 | One more selection appends ", " and its description. |
| Variants.HandleAddToCart | src/pages/ProductDetails.jsx:51-63 | A new product becomes the last line, carrying the selection, the final price and the description. |
| Variants.ModifiersNeverReachTotals | src/pages/ProductDetails.jsx:51-63 | Whatever was selected, the cart total grows by the base price times the clamped quantity: modifiers never reach it. |
| Variants.AddedLineTotal | src/pages/ProductDetails.jsx:51-61 | Adding a new product line grows the cart total by its base price times the clamped quantity. |
| Variants.DecrementQuantity | src/pages/ProductDetails.jsx:152 | The minus button subtracts one above 1 and stays at 1 otherwise. |
| Variants.IncrementQuantity | src/pages/ProductDetails.jsx:161 | The plus button adds one below `stock ?? 99` and stays at that limit otherwise. |
| Checkout.Subtotal | src/components/CheckoutModal.jsx:31 | The subtotal is a number exactly when every line has a price. |
| Checkout.SubtotalIsCartTotal | src/components/CheckoutModal.jsx:31 | With every price present, the checkout subtotal equals the drawer's cart total. |
| Checkout.ShippingPart | src/components/CheckoutModal.jsx:38 | No quote contributes 0; otherwise the quote's total. |
| Checkout.OrderTotal | src/components/CheckoutModal.jsx:37-39 | The total is a number exactly when the subtotal is, and it is subtotal plus shipping. |
| Checkout.OrderTotalAddsShipping | src/components/CheckoutModal.jsx:38 | With every price present, the total is cart total plus quote total; a missing price leaves no total. |
| Checkout.QuoteForIsOneKilo | src/components/CheckoutModal.jsx:56 | Every checkout quote has no per-kilogram charge, except the fixed unknown-zone quote; a resolved zone charges its base cost. |
| Checkout.LoadUserProfile | src/components/CheckoutModal.jsx:41-51 | With a user, the profile read is stored and pre-selected when it has street, city, province and code; the quote is untouched. |
| Checkout.HandleAddressSelect | src/components/CheckoutModal.jsx:65-87 | The saved address is quoted whenever a profile is loaded; the custom one only when valid with a code of ≥ 4 characters; otherwise the old quote stays. |
| Checkout.HandleCustomAddressChange | src/components/CheckoutModal.jsx:89-102 | Only a postal code of ≥ 4 characters touches the quote: requoted when the address is valid, cleared otherwise. |
| Checkout.GetSelectedAddress | src/components/CheckoutModal.jsx:104-118 | An address is returned exactly when the saved one is chosen with a profile, or the custom one is chosen. |
| Checkout.Continue | src/components/CheckoutModal.jsx:416-418 | The confirm page is reached only with a selection and a quote, and nothing else changes. |
| Checkout.Back | src/components/CheckoutModal.jsx:521 | "Volver" returns to the address page, and nothing else changes. |
| Checkout.BackUndoesContinue | src/components/CheckoutModal.jsx:521 | "Volver" after "Continuar" restores the state, selection and quote included. |
| Checkout.ConfirmPassesSelectionGuard | src/components/CheckoutModal.jsx:120-124 | A modal that reached the confirm page passes the first guard of placing the order. |
| Checkout.LoadKeepsQuoteInvariant | src/components/CheckoutModal.jsx:41-51 | Loading the profile keeps every held quote a 1 kg quote. |
| Checkout.SelectKeepsQuoteInvariant | src/components/CheckoutModal.jsx:65-87 | Selecting an address keeps every held quote a 1 kg quote. |
| Checkout.EditKeepsQuoteInvariant | src/components/CheckoutModal.jsx:89-102 | Editing the custom address keeps every held quote a 1 kg quote. |
| Checkout.OrderItems | src/components/CheckoutModal.jsx:138-143 | One item per line, with id, name, quantity and base price; the variants do not reach the order. |
| Checkout.BuildPayload | src/components/CheckoutModal.jsx:134-149 | Guest placeholders stand in for a missing name or e-mail; there is a user id only for a signed-in uid; the quote's total and zone are carried; payment is "transfer". |
| Checkout.HandlePlaceOrder | src/components/CheckoutModal.jsx:120-151 | An order is placed exactly when there is a selection, a quote and a selected address; each refusal has its own message. |
| Checkout.InitialRefuses | src/components/CheckoutModal.jsx:11-24 | A freshly opened modal refuses to place an order. |
| Checkout.PlacedOrderShape | src/components/CheckoutModal.jsx:134-152 | A payload that passes the checks is stored exactly when the store accepts the write and every line has a price; the stored order is pending, paid by transfer, charged the quote's total as shipping, totals the cart plus that shipping, and goes to the selected address. |
| Checkout.SubmitOrder | src/components/CheckoutModal.jsx:120-159 | A refusal keeps its message; an order is created exactly when the checks pass, the store accepts and every line has a price; a failed write shows the error alert. |
| Checkout.AfterSubmission | src/components/Layout.jsx:124-127 | Only a created order empties the cart and closes the modal; a declined submission leaves the layout as it was. |
| Checkout.MissingPriceKeepsCart | src/components/CheckoutModal.jsx:151-156 | A line without a price makes the order fail with the error alert, and the cart is kept. |
| Checkout.FailedWriteKeepsCart | src/components/CheckoutModal.jsx:151-156 | A write the store refuses for another reason also shows the error alert, and the cart is kept. |
| Checkout.StaleQuoteAfterSwitch | src/components/CheckoutModal.jsx:65-87 | A saved-address quote survives a switch to an invalid custom address, and the order goes out to that address. |
| Checkout.StaleQuoteAfterEdit | src/components/CheckoutModal.jsx:89-102 | Blanking a required field other than the code keeps the quote, and the order is placed with an invalid address. |
| Checkout.ErrorQuoteIsAccepted | src/components/CheckoutModal.jsx:121 | An unreadable zone table gives the zero error quote, which is accepted with free shipping. |
| Orders.TruthyUserId | src/services/orders.js:24 | A user id is kept exactly when it is present and non-empty. |
| Orders.CreateOrder | src/services/orders.js:18-27 | The stored order is pending, stamped at creation, with "transfer" for an empty method, a truthy user id, and the payload's other fields. |
| Orders.AddOrder | src/services/orders.js:18-27 | The store keeps the order exactly when it accepts the write and every item has a defined price, and then keeps the document `createOrder` builds; otherwise the write is refused. |
| Orders.StatusAlwaysForced | src/services/orders.js:20-21 | The status a payload carries never reaches the stored order. |
| Orders.TrackingAfter | src/services/orders.js:77-79 | A truthy tracking argument replaces the stored number; otherwise the stored number stays. |
| Orders.UpdateOrderStatus | src/services/orders.js:70-86 | Status and update time are set and tracking follows the rule above; nothing else changes. |
| Orders.NoTransitionRules | src/services/orders.js:70-80 | A delivered or cancelled order can be set back to pending. |
| Orders.FetchUserOrdersFallback | src/services/orders.js:115-127 | The fallback is a newest-first permutation of the user's orders. |
| Orders.FallbackListsTheUsersOrders | src/services/orders.js:116-121 | The fallback lists every order of the user and no other order. |
| UserProfile.GetUserProfile | src/services/user.js:11-36 | A missing document gives the default profile, a found one itself, and a failed read null. |
| UserProfile.ProfileAddress | src/components/CheckoutModal.jsx:69-76 | The address takes the profile's six address fields. |
| UserProfile.UpdateUserProfile | src/services/user.js:56-75 | The stored profile is the form data with `address` replaced by the composed line. |
| UserProfile.FormAddressIgnored | src/services/user.js:69-71 | The `address` the form sends never reaches the store. |
| UserProfile.ComposeComplete | src/services/user.js:57-64 | A complete profile composes six parts: "Entre " before the cross streets, no label before the code. |
| UserProfile.ComposeDiffersFromFormat | src/services/user.js:60-63 | For a complete profile, the stored line differs from what the checkout displays for the same address. |
| UserProfile.CrossStreetWordDiffers | src/services/user.js:60-63 | The stored line and the checkout display of the same parts differ at the cross-street word. |
| UserProfile.DefaultProfileIsEmpty | src/services/user.js:16-27 | The default profile composes to "" and fails validation on the street. |
| Metrics.Get | src/pages/admin/Metrics.jsx:22 | A missing key reads 0. |
| Metrics.TallyKeys | src/pages/admin/Metrics.jsx:21-24 | A key is in a tally exactly when some element has it. |
| Metrics.TallyAt | src/pages/admin/Metrics.jsx:21-24 | Each key holds the sum of the weights of the elements with that key. |
| Metrics.TallyTotal | src/pages/admin/Metrics.jsx:34-39 | A tally's values add up to the total weight. |
| Metrics.Average | src/pages/admin/Metrics.jsx:18 | With orders, average × count = revenue; with none, the average is 0. |
| Metrics.ByStatus | src/pages/admin/Metrics.jsx:21-24 | The statuses counted are exactly those of the orders. |
| Metrics.ByPayment | src/pages/admin/Metrics.jsx:27-31 | The methods counted are exactly the orders' methods, with "transfer" for an empty one, and never the empty key. |
| Metrics.ProductSales | src/pages/admin/Metrics.jsx:34-39 | The products counted are exactly those appearing in some order's items. |
| Metrics.FetchMetrics | src/pages/admin/Metrics.jsx:13-49 | Each figure of the report, and 0 revenue and 0 average when there are no orders. |
| Metrics.CountsAddUp | src/pages/admin/Metrics.jsx:21-31 | The status counts and the payment counts each add up to the number of orders. |
| Metrics.StatusCount | src/pages/admin/Metrics.jsx:21-24 | Each status holds the number of orders with it. |
| Metrics.MissingPaymentIsTransfer | src/pages/admin/Metrics.jsx:28 | "transfer" counts the orders with that method plus those with none. |
| Metrics.AllItemsUnits | src/pages/admin/Metrics.jsx:35-38 | The units over all items are the sum of each order's units. |
| Metrics.SalesAddUp | src/pages/admin/Metrics.jsx:34-39 | The product sales add up to every unit of every order. |
| Metrics.RevenueCountsEveryStatus | src/pages/admin/Metrics.jsx:16 | Every order adds its total, whatever its status; an order with no total adds nothing. |
| Products.CategoryFilters | src/services/products.js:37-40 | No category clause exactly for "" or "all"; otherwise one equality clause on the category. |
| Products.SortClause | src/services/products.js:42-47 | price_asc and price_desc order by price; anything else is newest first. |
| Products.PlanFor | src/services/products.js:49-54 | The query has the category clause, the sort clause and a limit of 100. |
| Products.Search | src/services/products.js:58-65 | An empty search keeps everything; otherwise exactly the products whose name or description contains the lower-cased query, each as often as it occurs and in order. |
| Products.ClientSort | src/services/products.js:67-68 | The two price orders sort by price (missing as 0); anything else keeps the order; always a permutation. |
| Products.FetchProducts | src/services/products.js:35-74 | A failed read gives []; otherwise a permutation of the search result, sorted when a price order was asked for. |
| Products.SearchIgnoresQueryCase | src/services/products.js:59 | Lower-casing the query first changes nothing. |
| Products.SearchIdempotent | src/services/products.js:58-65 | Searching the results again drops nothing more. |
| Products.FilterKeepsAscending | src/services/products.js:60 | The search keeps a price-ascending snapshot ascending. |
| Products.ServerOrderKept | src/services/products.js:67 | A snapshot already in ascending price order comes back exactly as searched. |
| AdminOrders.FilteredOrders | src/pages/admin/Orders.jsx:36-39 | "all" keeps the list; otherwise exactly the orders with that status, each as often as it occurs and in order; an absent list stays absent. |
| AdminOrders.FindOption | src/pages/admin/Orders.jsx:42 | The option found is the first one with the status; none is found only when no option has it. |
| AdminOrders.StatusLabel | src/pages/admin/Orders.jsx:42-45 | A known status shows its option's label; any other status is shown as stored. |
| AdminOrders.StatusColor | src/pages/admin/Orders.jsx:42-44 | A known status gets its option's colour; any other gets grey. |
| AdminOrders.KnownStatusLabels | src/pages/admin/Orders.jsx:12-17 | The four statuses read "Pendiente", "Enviado", "Entregado" and "Cancelado". |
| AdminOrders.UnknownStatusLabel | src/pages/admin/Orders.jsx:41-47 | Any other status is shown as stored, in grey. |
| AdminOrders.OpenDialog | src/pages/admin/Orders.jsx:130-131 | The dialog opens on the current status and the stored tracking number, or "". |
| AdminOrders.HandleUpdate | src/pages/admin/Orders.jsx:133-138 | The chosen status is sent, with the tracking number only when it is non-empty. |
| AdminOrders.Apply | src/pages/admin/Orders.jsx:28-30 | The stored order takes the sent status and update time. |
| AdminOrders.SaveUntouched | src/pages/admin/Orders.jsx:130-138 | Saving an untouched dialog changes only the update time. |
| AdminOrders.TrackingKeptForAnyStatus | src/pages/admin/Orders.jsx:224 | A number typed while "shipped" was chosen is still written after choosing another status. |
| AdminOrders.TrackingCannotBeCleared | src/pages/admin/Orders.jsx:137 | Clearing the field keeps the stored tracking number. |
| Routes.LookupPath | src/utils/index.js:2-6 | A non-empty path comes from an entry for the name; a name with no entry gives "". |
| Routes.CreatePageUrl | src/utils/index.js:1-8 | The URL is the listed path for the name, or "/". |
| Routes.UrlIsAbsolute | src/utils/index.js:7 | Every page URL starts with "/". |
| Routes.KnownPages | src/utils/index.js:2-7 | Home, Store and ProductDetails get "/", "/store" and "/product"; any other name gets "/". |

## Left out

- I/O and seeding: document-store and auth I/O are parameters of the model: the zone table read, the profile read, the product snapshot, the order list, and whether the store accepts the order write (`Orders.StoreAnswer`). Why a write is refused (security rules, the network) is not modelled, only that it is. `initializeShippingZones` seeding an empty store is not modelled; the default table is the constant `DefaultZones`.
- Other product queries: `fetchFeaturedProducts`, `fetchProductById`, `createProduct`, `updateProduct` and `deleteProduct` are single store reads and writes with no logic beyond the query.
- `fetchSimilarProducts`: it calls its numeric `limit` parameter as a function, so it always throws and returns `[]`. It is not modelled.
- Other order queries: `fetchRecentOrders`, `fetchAllOrders`, `fetchOrderById` and `fetchOrdersByStatus` are plain queries that fall back to `[]` or `null`. Only the client-side fallback of `fetchUserOrders` is modelled.
- `fetchUserOrders` dates: `created_at` is an integer timestamp. The `toDate?.()` / `new Date(...)` conversion, and invalid dates, are not modelled.
- Firestore ordering: `orderBy("price")` leaves out documents without a price. That filtering belongs to the snapshot parameter and is not modelled. On the client, `PriceKey` reads a missing price as 0.
- Comparator: a comparator that yields `NaN` (a missing price) makes `Array.prototype.sort` implementation-defined. The model sorts such products as price 0.
- Persistence: localStorage persistence of the cart, and JSON parsing of it, are not modelled.
- Number formatting and floats: display formatting (`toFixed`, currency) is not modelled. Floating-point rounding is not modelled either: money is exact `real`.
- Case folding: `toLowerCase` is modelled on ASCII letters only. Non-ASCII case mapping and Unicode normalisation are not modelled.
- Asynchrony: `calculatingShipping` and the overlap of asynchronous handlers (a quote that lands after a later edit) are not modelled. Each handler completes before the next event.
- Views: what the views render, and when the saved-address option is shown (`userProfile?.street`), are not modelled. So are the navigation after placing an order and the alerts' display.
- Dashboards: the user and admin dashboard pages are not part of this model.
- Missing fields: missing names, descriptions, e-mails and address fields are the empty string. Missing order items are an empty list. A missing `postal_codes` on a stored zone, which makes the JavaScript lookup throw, is not modelled. A missing product name, or a saved-address field missing from the profile document, would also be an `undefined` field that the store refuses. Because the model reads them as `""`, only a missing price makes `Orders.AddOrder` refuse an order.
- Null prices: a stored `null` price is read as a missing one. JavaScript treats the two differently in three places. `null * quantity` is 0, so the checkout subtotal stays a number where the model has none (src/components/CheckoutModal.jsx:30). The store accepts `null`, so `createOrder` succeeds where `Orders.AddOrder` refuses. `null + modifier` is a number, so the final price is defined where `Variants.CalculateFinalPrice` has none (src/pages/ProductDetails.jsx:38-46). The product form always writes a number, so only a document edited by hand carries `null`.
- Object keys: JavaScript orders integer-like object keys before the others. The selection model keeps plain insertion order.
- `createPageUrl` and the prototype: names inherited from `Object.prototype` (such as `"toString"`) are not modelled. Neither are string lengths in UTF-16 code units: `length` is the number of characters.
- `updateUserProfile`: it merges into the stored document, and it updates the auth display name. Both are left out: the model gives the fields written.
- Shipping.FormatShippingAddress: its contract states only the missing-address text. The shape of a present address is stated by `Shipping.FormatComplete` and `Shipping.FormatSkipsEmpty`.
- Cart.AddToCart: for an id already in the cart, its contract states only the length. The new quantity and the unchanged lines are stated by `Cart.AddExisting` for carts with distinct ids.
- Variants.Select: for an existing key, its contract states only the length. The values are stated by `Variants.SelectSetsOnlyThatKey`.
- Variants.CalculateFinalPrice: its contract states only the cases without variants or without price. The priced case is stated by `Variants.FinalPriceIsBasePlusModifiers`.
