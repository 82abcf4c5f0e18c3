# shopngo storefront logic in Dafny

This project models the in-memory logic of the shopngo React storefront and
proves properties of it. It does not model the markup, the animations or the
HTTP calls. The modules are:

- `Search` models the generic `useSearch` hook. Its state is a search term, a
  filters object and a sort configuration. Three transitions change that state:
  `updateFilter`, `updateSort` and `resetFilters`. The `filteredItems` pipeline
  applies text search, then a category-id filter, then a price range, then an
  optional sort by price or title.
- `Products` models the product listing page:
  - the category effect;
  - the search and price filter;
  - the price sort;
  - pagination at 8 products a page, and the paginator's page-window rule;
  - the favourite toggle.

  The page's state cells are the fields of the class `ProductListing`.
- `Favorites` models the favourites reducer: ADD appends, REMOVE drops every
  entry with the given id, and any other action leaves the state as it is.
- `Cart` models what the cart page decides and computes: the action a quantity
  change dispatches, and the total price.
- `Navbar` models the cart and favourites badge counts and the login-panel toggle.
- `Auth` models the mock authentication provider as a class with a `user` cell
  and an `isAuthenticated` cell.
- `Cookies` models the cookie-consent preferences as a class with four flags.
- `Related` models the related-products selection (drop the current product,
  keep the first four) and when the block renders.
- `Faq` models the FAQ accordion, whose open question is named by a
  `categoryIndex-faqIndex` key.

Supporting modules:

- `JsArray` models the array built-ins the code relies on:
  - `filter`;
  - `slice`, with negative indices and clamping;
  - `Array.prototype.sort`, as a stable insertion sort driven by a comparator
    read as "sorts before or together with". ECMA-262 (2019 and later) requires
    this sort to be stable.
- `Text` models string handling:
  - ASCII lower-casing and `includes`;
  - rendering of decimal numbers;
  - `parseInt`;
  - a code-unit lexicographic order standing in for `localeCompare`.
- `Catalog` defines the product record and counts ids.
- `Wrappers` defines `Option`.

Prices are integers in cents. `InitialPriceRange` is 0..100000 cents, which is
the source's `{ min: 0, max: 1000 }` euros.

## Model

| member | source | states |
|---|---|---|
| `JsArray.Filter` | src/hooks/useSearch.js:15-22 | `filter` keeps exactly the elements that pass, in their original order (an order-preserving subsequence). It returns the input itself when every element passes. Multiplicities are in `JsArray.FilterCounts`. |
| `JsArray.FilterCounts` | src/hooks/useSearch.js:15-22 | `filter` keeps every copy of a passing element and no copy of a failing one: each value occurs in the result exactly as often as in the input when it passes, and not at all otherwise. |
| `JsArray.FilterNone` | src/hooks/useSearch.js:34-37 | A filter that no element passes gives the empty list. |
| `JsArray.FilterFusion` | src/hooks/useSearch.js:15-37 | Two filters in a row are one filter by the conjunction of their tests. |
| `JsArray.SliceIndex` | src/components/Products.jsx:142 | A `slice` bound resolves as ECMA-262 says: a negative bound counts from the end, and every bound is clamped to `[0, length]`. |
| `JsArray.Slice` | src/components/RelatedProducts.jsx:19 | `slice(start, end)` is the segment between the two resolved bounds, empty when they cross; its bounds are proved in `JsArray.SliceIndex` and `JsArray.SliceNonNegative`. |
| `JsArray.SliceNonNegative` | src/components/Products.jsx:140-142 | A slice with `0 <= start <= end` is the segment `[start, min(end, length))`: at most `end - start` elements, and empty when `start` is past the end. |
| `JsArray.StableSort` | src/hooks/useSearch.js:42-54 | The sort returns a permutation of its input, as a multiset. |
| `JsArray.SortSorted` | src/hooks/useSearch.js:42-54 | Under a comparator that is a total preorder, the sort's output is ordered. |
| `JsArray.SortStable` | src/components/Products.jsx:130-137 | The sort is stable: the elements tied with any value `v` come out in their input order. |
| `JsArray.SortOfSorted` | src/components/Products.jsx:136 | Input already in order comes back unchanged. This covers the comparator that returns 0 for every pair. |
| `Text.Lower` | src/components/Products.jsx:123-124 | `toLowerCase` keeps the length and lower-cases each character. |
| `Text.IncludesAt` | src/components/Products.jsx:123-124 | `includes(sub)` holds iff `sub` occurs at some index. |
| `Text.IncludesEmpty` | src/components/Products.jsx:123-124 | The empty search term is included in every string. |
| `Text.NatToString` | src/components/pages/FAQ.jsx:75 | A rendered index is a non-empty run of decimal digits. |
| `Text.LeadingDigits` | src/hooks/useSearch.js:27 | `parseInt` reads the maximal run of leading digits. |
| `Text.ParseInt` | src/hooks/useSearch.js:27 | `parseInt` reads an optional `-` or `+` and the leading decimal digits, and fails (NaN) when there are none. Its round trip with `Text.IntToString` is `Text.ParseIntOfIntToString`. |
| `Text.ParseDigitsOfNatToString` | src/hooks/useSearch.js:27 | The leading digits of a rendered natural number read back as that number. |
| `Text.ParseIntOfIntToString` | src/hooks/useSearch.js:27 | `parseInt` of a rendered integer gives that integer back. |
| `Text.NatToStringInjective` | src/components/pages/FAQ.jsx:75 | Distinct numbers render as distinct strings. |
| `Text.LexLeTotal` | src/hooks/useSearch.js:50-51 | The title order compares any two titles. |
| `Text.LexLeTransitive` | src/hooks/useSearch.js:50-51 | The title order is transitive. |
| `Catalog.Ids` | src/components/Products.jsx:157 | The id column of a product list, position by position. |
| `Catalog.HasIdIffCount` | src/components/Products.jsx:157 | `some(item => item.id === id)` holds iff the id occurs at least once. |
| `Search.Init` | src/hooks/useSearch.js:4-6 | The initial state: an empty term, the given initial filters (or none) and the given initial sort (or `{key: null, direction: 'asc'}`). `Search.ResetRestoresInitial` proves that reset returns to it apart from the sort. |
| `Search.SetSearchTerm` | src/hooks/useSearch.js:4 | The hook's `setSearchTerm`; what it changes and keeps is `Search.SetSearchTermChangesOnlyTerm`. |
| `Search.SetSearchTermChangesOnlyTerm` | src/hooks/useSearch.js:4 | `setSearchTerm(t)` stores `t` as the term and leaves the filters and the sort configuration unchanged. |
| `Search.UpdateFilter` | src/hooks/useSearch.js:60-62 | `updateFilter(k, v)`; what it changes and keeps is `Search.UpdateFilterChangesOnlyKey`. |
| `Search.UpdateSort` | src/hooks/useSearch.js:64-69 | `updateSort(k)`; its new key and direction are `Search.UpdateSortSpec` and `Search.UpdateSortSameKeyToggles`. |
| `Search.ResetFilters` | src/hooks/useSearch.js:71-75 | `resetFilters`; its end state is `Search.ResetRestoresInitial`. |
| `Search.FilteredItems` | src/hooks/useSearch.js:8-58 | The memoised pipeline: the three filter stages, then the optional sort. What it returns is proved in `Search.SelectionIsOrderedSubset`, `Search.FilteredItemsMembers`, `Search.SortedResult` and the lemmas below them. |
| `Search.SearchStageIsFilter` | src/hooks/useSearch.js:14-23 | The text-search stage is one `filter` by the search test (every item passes when the term is empty). |
| `Search.CategoryStageIsFilter` | src/hooks/useSearch.js:26-29 | The category stage is one `filter` by the category test (every item passes when no category is chosen). |
| `Search.PriceStageIsFilter` | src/hooks/useSearch.js:32-38 | The price stage is one `filter` by the price test (every item passes when there is no range, none when a bound is missing). |
| `Search.SelectionIsFilter` | src/hooks/useSearch.js:11-38 | The three stages in a row are one `filter` by `Selects`, the conjunction of the three tests. |
| `Search.EmptyInputYieldsEmpty` | src/hooks/useSearch.js:9 | A null or empty item list yields an empty result. |
| `Search.SelectionIsOrderedSubset` | src/hooks/useSearch.js:11-38 | The three filter stages are one `filter` by `Selects`. An item is kept iff it is in the input and passes every stage, every copy of a passing item is kept and no copy of a failing one, and the kept items are an order-preserving subsequence of the input. |
| `Search.NoCriteriaIsIdentity` | src/hooks/useSearch.js:8-58 | With no term, no category (or `'all'`), no price range and no sort key (or `'default'`), the result is the input in the same order. |
| `Search.FilteredItemsMembers` | src/hooks/useSearch.js:8-58 | Sorting or not, the result holds exactly the input items that pass every stage. |
| `Search.CategoryFilterSound` | src/hooks/useSearch.js:26-29 | With a category other than `''` or `'all'`, every result item has a category, and its id is what `parseInt` reads from the filter. |
| `Search.CategoryOptionSelectsThatCategory` | src/hooks/useSearch.js:26-29 | With the category filter set to a rendered id, the result holds exactly the items of that category id that pass the search and price stages. |
| `Search.PriceRangeSound` | src/hooks/useSearch.js:32-38 | With a price range, every result has `min <= price <= max`, and `min > max` gives an empty result. |
| `Search.UnsortedKeepsInputOrder` | src/hooks/useSearch.js:41-57 | Without an active sort key, the result is an order-preserving subsequence of the input. |
| `Search.OrderIsTotalPreorder` | src/hooks/useSearch.js:42-54 | The comparator, for every key and direction, is a total preorder. |
| `Search.SortedResult` | src/hooks/useSearch.js:41-55 | With an active sort key (empty input included), the result is a permutation of the filtered items, ordered by the comparator. Items tied with any `v` keep their filtered order. |
| `Search.PriceSortOrdersPrices` | src/hooks/useSearch.js:43-47 | A price sort gives non-decreasing prices for `asc` and non-increasing prices for `desc`. |
| `Search.UpdateSortSpec` | src/hooks/useSearch.js:64-69 | `updateSort(k)` sets key `k`. The direction becomes `desc` iff the previous key was `k` and the previous direction `asc`. |
| `Search.UpdateSortSameKeyToggles` | src/hooks/useSearch.js:64-69 | Selecting the same key again flips the direction. |
| `Search.UpdateFilterChangesOnlyKey` | src/hooks/useSearch.js:60-62 | `updateFilter(k, v)` stores `v` at `k` and leaves every other entry as it was. |
| `Search.ResetRestoresInitial` | src/hooks/useSearch.js:71-75 | `resetFilters` restores the initial filters and an empty term, and sets the sort to `{key: null, direction: 'asc'}`, which sorts nothing. |
| `Favorites.InitialIsEmpty` | src/context/FavoritesContext.jsx:25 | The initial state has no entries. |
| `Favorites.Reduce` | src/context/FavoritesContext.jsx:5-22 | The reducer: ADD, REMOVE and every other action. What each does is proved in the lemmas around it. |
| `Favorites.AddAppends` | src/context/FavoritesContext.jsx:7-11 | ADD puts the payload at the end. The earlier entries are unchanged and the length grows by one. |
| `Favorites.AddCountsOnceMore` | src/context/FavoritesContext.jsx:7-11 | ADD raises the count of the payload's id by one and no other count. Adding a present id gives two entries with it. |
| `Favorites.CountIdAfterRemove` | src/context/FavoritesContext.jsx:13-17 | After REMOVE `id`, the count of `id` is 0 and every other id's count is unchanged. |
| `Favorites.RemoveDropsOnlyId` | src/context/FavoritesContext.jsx:13-17 | After REMOVE `id`, no entry with `id` remains and exactly the other entries remain, in their relative order. |
| `Favorites.RemoveAbsentIsNoOp` | src/context/FavoritesContext.jsx:13-17 | REMOVE of an absent id returns the state unchanged. |
| `Favorites.OtherActionIsNoOp` | src/context/FavoritesContext.jsx:19-20 | An unknown action returns the state unchanged. |
| `Products.CategoryStage` | src/components/Products.jsx:112-119 | The category effect's value; its meaning is `Products.CategoryStageSpec`. |
| `Products.CategoryStageSpec` | src/components/Products.jsx:112-119 | `'all'` gives every product. Any other value gives exactly the products of that category, in catalogue order, each with the multiplicity it has in the catalogue. |
| `Products.FilteredProducts` | src/components/Products.jsx:122-127 | The search and price filter; its meaning is `Products.FilteredProductsSpec`. |
| `Products.FilteredProductsSpec` | src/components/Products.jsx:122-127 | A product is kept iff its title or description contains the term case-insensitively and its price is within the range. Every copy of a kept product stays and none of a dropped one, the order is kept, and an empty term keeps every product within the range. |
| `Products.PriceOrderIsTotalPreorder` | src/components/Products.jsx:130-137 | The price comparator is a total preorder for every sort order. |
| `Products.SortedProducts` | src/components/Products.jsx:130-137 | The price sort; its meaning is `Products.SortedProductsSpec`. |
| `Products.SortedProductsSpec` | src/components/Products.jsx:130-137 | The sorted list is a permutation of the filtered list. Prices are non-decreasing for `asc` and non-increasing for `desc`, and any other order leaves the list unchanged. Products at equal price keep their relative order. |
| `Products.TotalPages` | src/components/Products.jsx:143 | `Math.ceil(n / 8)`; its meaning is `Products.TotalPagesIsCeiling`. |
| `Products.PageSlice` | src/components/Products.jsx:140-142 | A page never holds more than 8 products; which products it holds is `Products.PageSliceSpec`. |
| `Products.TotalPagesIsCeiling` | src/components/Products.jsx:143 | `totalPages` is the ceiling of n/8, and it is 0 iff there are no products. |
| `Products.PageSliceSpec` | src/components/Products.jsx:140-142 | Page p is `[(p-1)*8, p*8)` of the sorted list, clipped to its length. It holds at most 8 products and is empty past the last page. |
| `Products.PagesUpToIsPrefix` | src/components/Products.jsx:140-143 | Pages 1..k laid end to end are the first `min(8k, n)` products. |
| `Products.PagesReassembleSorted` | src/components/Products.jsx:140-143 | Pages 1..totalPages laid end to end are exactly the sorted list. |
| `Products.PreviousTarget` | src/components/Products.jsx:15 | Previous's target `Math.max(1, currentPage - 1)`; its range is `Products.TargetsStayInRange`. |
| `Products.NextTarget` | src/components/Products.jsx:62 | Next's target as written, `Math.min(totalPages, currentPage + 1)`; its range is `Products.TargetsStayInRange`, and its behaviour with no pages `Products.NextTargetLeavesPagesWhenEmpty`. |
| `Products.TargetsStayInRange` | src/components/Products.jsx:15-63 | For `1 <= p <= totalPages`, Previous targets `max(1, p-1)` and Next targets `min(totalPages, p+1)`, both in `[1, totalPages]`. Each button is disabled exactly when its target is the current page. |
| `Products.NextTargetLeavesPagesWhenEmpty` | src/components/Products.jsx:62-63 | The code as written, with no products: `totalPages` is 0, Next on page 1 is enabled and targets page 0, and page 0 shows nothing. |
| `Products.ClampedNextTarget` | src/components/Products.jsx:62 | The corrected Next target, never below page 1; its range is `Products.ClampedNextTargetInRange`. |
| `Products.ClampedNextTargetInRange` | src/components/Products.jsx:62-63 | The corrected Next target is always at least 1 and never beyond the last page. It is `p+1` below the last page, and equal to the original whenever there is a page. |
| `Products.Slot` | src/components/Products.jsx:26-57 | What the paginator renders for page k; its meaning is `Products.SlotSpec`. |
| `Products.SlotSpec` | src/components/Products.jsx:26-57 | Page k is a button iff k = 1, k = totalPages or abs(k-p) <= 1. It is an ellipsis iff it is not a button and abs(k-p) = 2. Otherwise it is not rendered. |
| `Products.WindowFromBounded` | src/components/Products.jsx:23-58 | The entries for pages k..totalPages are at most the first page, the last page and the five pages around p. |
| `Products.WindowAtMostSeven` | src/components/Products.jsx:23-58 | The paginator never shows more than 7 page entries. |
| `Products.WindowFromPages` | src/components/Products.jsx:23-58 | Entries for pages k..totalPages come in increasing page order, each in range and rendered as its slot says. |
| `Products.WindowLast` | src/components/Products.jsx:23-58 | The last entry is the button for the last page. |
| `Products.Window` | src/components/Products.jsx:23-58 | The paginator's entries for pages 1..totalPages; their shape is `Products.WindowShape` and their number `Products.WindowAtMostSeven`. |
| `Products.WindowShape` | src/components/Products.jsx:23-58 | When there is a page, the paginator begins with button 1 and ends with the button for the last page. Its entries are strictly increasing, in range and not hidden. |
| `Products.ToggleFavorite` | src/components/Products.jsx:156-165 | The favourite button: REMOVE when the id is present, otherwise ADD; its meaning is `Products.ToggleFavoriteSpec`. |
| `Products.ToggleFavoriteSpec` | src/components/Products.jsx:156-165 | The toggle flips whether the product is a favourite and leaves the product with at most one entry. It changes no other id's count, and a list without duplicate ids stays without them. |
| `Products.ToggleTwiceRestoresMembership` | src/components/Products.jsx:156-165 | Two toggles restore whether the product is a favourite. |
| `Products.ProductListing.constructor` | src/components/Products.jsx:82-87 | The initial state cells: page 1, `asc`, `all`, an empty term and 0..1000 euros. |
| `Products.ProductListing.Visible` | src/components/Products.jsx:122-142 | The products on screen are the current page of the sorted, filtered list, never more than 8. |
| `Products.ProductListing.PageCount` | src/components/Products.jsx:143 | `totalPages` of the filtered list; its meaning is `Products.TotalPagesIsCeiling`. |
| `Products.ProductListing.ApplyCategoryEffect` | src/components/Products.jsx:112-119 | The effect stores the category stage of the catalogue in `products` and changes nothing else. |
| `Products.ProductListing.Receive` | src/components/Products.jsx:98-99 | Fetched data becomes the catalogue. `products` follows the selected category, and no other cell changes. |
| `Products.ProductListing.SelectCategory` | src/components/Products.jsx:112-119 | A new category recomputes `products` from the catalogue and leaves the other cells unchanged. |
| `Products.ProductListing.SetSearchTerm` | src/components/Products.jsx:85 | Sets the term and only the term. |
| `Products.ProductListing.SetSortOrder` | src/components/Products.jsx:83 | Sets the sort order and only the sort order. |
| `Products.ProductListing.SetPriceRange` | src/components/Products.jsx:86 | Sets the price range and only the price range. |
| `Products.ProductListing.GoToPage` | src/components/Products.jsx:34 | A numbered button sets the current page to its own page. |
| `Products.ProductListing.PreviousPage` | src/components/Products.jsx:15-16 | Previous moves to `max(1, p-1)` unless it is disabled (p = 1). |
| `Products.ProductListing.NextPage` | src/components/Products.jsx:62-63 | Next as written: it moves to `min(totalPages, p+1)` unless `p` is `totalPages`. With no pages it can move to page 0, so the listing only keeps the page non-negative. |
| `Products.ProductListing.NextPageCorrected` | src/components/Products.jsx:62-63 | Next with the corrected target: from page 1 or later it stays at page 1 or later, and from a page within `[1, totalPages]` it never passes the last page. |
| `Products.ProductListing.ResetFilters` | src/components/Products.jsx:146-153 | Reset restores the initial filter cells and page 1, and shows the whole catalogue. |
| `Cart.QuantityChange` | src/components/Cart.jsx:7-13 | The action `handleQuantityChange` dispatches; its meaning is `Cart.QuantityChangeSpec`. |
| `Cart.QuantityChangeSpec` | src/components/Cart.jsx:7-13 | A quantity below 1 dispatches only a removal of that id. Any other quantity dispatches one update carrying `{id, quantity}`. |
| `Cart.RemoveItem` | src/components/Cart.jsx:15-17 | `handleRemoveItem` dispatches a removal of the id; `Cart.DecrementAtOneRemoves` shows the minus button at quantity 1 dispatches the same action. |
| `Cart.Decrement` | src/components/Cart.jsx:56 | The minus button, `handleQuantityChange(id, quantity - 1)`; its outcome at quantity 1 is `Cart.DecrementAtOneRemoves`. |
| `Cart.Increment` | src/components/Cart.jsx:68 | The plus button, `handleQuantityChange(id, quantity + 1)`; its outcome is `Cart.IncrementUpdates`. |
| `Cart.DecrementAtOneRemoves` | src/components/Cart.jsx:56 | The minus button at quantity 1 (or less) dispatches the same removal as the trash button. |
| `Cart.IncrementUpdates` | src/components/Cart.jsx:68 | The plus button at a positive quantity always dispatches an update, to a quantity of at least 2. |
| `Cart.TotalPrice` | src/components/Cart.jsx:19-22 | The `reduce` that sums price times quantity from the left; its properties are `Cart.TotalPriceAppend`, `Cart.TotalPriceNonNegative` and `Cart.TotalPriceIsLineSum`. |
| `Cart.TotalPriceAppend` | src/components/Cart.jsx:19-22 | The total of two runs of lines is the sum of their totals. Appending a line adds its price times its quantity. |
| `Cart.TotalPriceNonNegative` | src/components/Cart.jsx:19-22 | With non-negative prices and quantities, the total is non-negative. |
| `Cart.TotalPriceIsLineSum` | src/components/Cart.jsx:19-22 | The left-to-right `reduce` equals the independent right fold of price times quantity. |
| `Cart.EmptyMessageSpec` | src/components/Cart.jsx:28 | The empty-cart message shows iff there are no lines, and then the total is 0. |
| `Navbar.CartItemsCount` | src/components/Navbar.jsx:13 | The sum of the lines' quantities; its properties are `Navbar.CartItemsCountAppend` and `Navbar.CartBadgeIffLines`. |
| `Navbar.FavoritesCount` | src/components/Navbar.jsx:14 | The number of favourite entries; its properties are `Navbar.FavoritesBadgeSpec`. |
| `Navbar.ClickProfile` | src/components/Navbar.jsx:70 | The profile button's toggle; its properties are `Navbar.ClickProfileSpec`. |
| `Navbar.CartItemsCountAppend` | src/components/Navbar.jsx:13 | The item count is additive over runs of lines and is 0 for an empty cart. |
| `Navbar.CartBadgeIffLines` | src/components/Navbar.jsx:48 | When every line holds at least one unit, the count is at least the number of lines, and the badge shows iff the cart has lines. |
| `Navbar.FavoritesBadgeSpec` | src/components/Navbar.jsx:14-61 | The favourites badge shows iff there is an entry. The count includes duplicates: every ADD raises it by one. |
| `Navbar.ClickProfileSpec` | src/components/Navbar.jsx:70-81 | Each click flips whether the login panel shows, and two clicks restore the state. |
| `Auth.AuthProvider.constructor` | src/context/AuthContext.jsx:6-7 | The provider starts with no user, not authenticated. |
| `Auth.AuthProvider.Login` | src/context/AuthContext.jsx:9-22 | Login resolves iff the credentials are `user123`/`password123`. It then stores `{username, 'John Doe', 'john@example.com'}` and sets the flag. Otherwise it rejects with `Invalid credentials` and changes nothing. `isAuthenticated` iff a user is stored holds throughout. |
| `Auth.AuthProvider.Logout` | src/context/AuthContext.jsx:24-27 | From any state, logout leaves no user and the flag clear. The end state does not depend on the start state, so logout is idempotent. |
| `Cookies.CookiePreferences.constructor` | src/components/pages/Cookies.jsx:13-18 | Initially only the necessary cookies are enabled. |
| `Cookies.CookiePreferences.ToggleCookie` | src/components/pages/Cookies.jsx:51-57 | Toggling `necessary` changes nothing. Toggling another id flips exactly that flag. `necessary` stays true. |
| `Cookies.CookiePreferences.AcceptAll` | src/components/pages/Cookies.jsx:59-66 | Every flag ends up on, whatever the state before, so accept-all is idempotent. |
| `Cookies.CookiePreferences.RejectAll` | src/components/pages/Cookies.jsx:68-75 | Back to the initial preferences: only `necessary` is on. |
| `Cookies.ToggleTwice` | src/components/pages/Cookies.jsx:51-57 | Toggling the same id twice restores every flag. |
| `Related.RelatedSelection` | src/components/RelatedProducts.jsx:16-19 | The fetched list without the current product, cut to 4; its meaning is `Related.RelatedSelectionSpec`. |
| `Related.RelatedSelectionSpec` | src/components/RelatedProducts.jsx:16-19 | The current product is never proposed, and at most 4 products are. They are the first ones of the id-filtered list (all of them when there are at most 4), so they form an order-preserving subsequence of the fetched list. |
| `Related.ProductChanged` | src/components/RelatedProducts.jsx:10-31 | The effect re-running for a new current product: it starts a fetch and resets neither cell. |
| `Related.Settle` | src/components/RelatedProducts.jsx:11-25 | The fetch handler: success stores the selection, both paths clear `loading`, failure keeps the previous selection. |
| `Related.Renders` | src/components/RelatedProducts.jsx:33 | The block renders iff loading is over and the selection is non-empty; how that plays out is `Related.RendersSpec`. |
| `Related.RendersSpec` | src/components/RelatedProducts.jsx:10-33 | Nothing renders before the first fetch settles, nor after a failed first fetch. A new current product leaves rendering as it was. From any view, a failed fetch renders iff the previous selection is non-empty, and a successful one renders iff the category holds some other product. |
| `Related.StaleSelectionShowsCurrentProduct` | src/components/RelatedProducts.jsx:10-33 | As written: after a selection holding `q` was shown and `q` becomes the current product, `q` is still rendered as a related product while its fetch is pending, and still after that fetch fails. |
| `Related.ProductChangedCorrected` | src/components/RelatedProducts.jsx:10-31 | The effect with a reset: a new current product clears the selection and sets `loading`. |
| `Related.SettleCorrected` | src/components/RelatedProducts.jsx:11-25 | The handler with a reset on failure: a failed fetch leaves an empty selection. |
| `Related.CorrectedNeverShowsCurrentProduct` | src/components/RelatedProducts.jsx:10-33 | With both resets, nothing renders while a fetch is pending or after it fails, and the selection after settling never holds the current product. |
| `Faq.QuestionKey` | src/components/pages/FAQ.jsx:75 | The `categoryIndex-faqIndex` key; its properties are `Faq.LeadingDigitsOfKey` and `Faq.QuestionKeyInjective`. |
| `Faq.LeadingDigitsOfKey` | src/components/pages/FAQ.jsx:75 | In a key, the leading run of digits is exactly the category index. |
| `Faq.QuestionKeyInjective` | src/components/pages/FAQ.jsx:75 | Distinct (category, question) pairs have distinct keys. |
| `Faq.AtMostOneOpen` | src/components/pages/FAQ.jsx:75 | Whatever key is stored, at most one question is open. |
| `Faq.Accordion.constructor` | src/components/pages/FAQ.jsx:7 | Initially no question is open. |
| `Faq.Accordion.Click` | src/components/pages/FAQ.jsx:85 | Clicking the open question closes it, leaving none open. Clicking a closed question makes it the only open one. |

## Left out

- The search hook compiles the search term as a `RegExp` (src/hooks/useSearch.js:16). That can throw on input such as `(`, and it gives metacharacters meaning. The model matches the term as a plain substring, ignoring case.
- Case folding is ASCII only. Unicode lower-casing of accented letters is not modelled.
- Title sorting uses `localeCompare`, which is locale-dependent. The model orders titles by code units (`Text.LexLe`), which is a total preorder as `localeCompare` is.
- Money is integer cents rather than floating point. `parseFloat`, `toFixed(2)` and rounding in totals are not modelled. The search hook's `parseFloat(item.price)` reads the integer price.
- `Text.ParseInt` models an optional `-` or `+` sign followed by decimal digits. Leading whitespace, hexadecimal prefixes and radix handling of `parseInt` are not modelled. Category filter values are plain strings, or ranges for the price entry.
- `Search.Direction`: a direction string other than `'asc'` sorts descending in the source, and the model has just `Asc`/`Desc` for it.
- Sorting in place and aliasing are not captured. `results` and the spread copy are values here, so the caller's list cannot change by construction. The sort is modelled by a stable insertion sort with the same outcome as any stable sort.
- All HTTP requests are left out (the product, category and related-product fetches and the API service). A fetch's outcome enters the model as a parameter (`ProductListing.Receive`, `Related.Settle`). A related-products fetch starts only when the current product has a category (src/components/RelatedProducts.jsx:28); without one no fetch settles and the view stays as `Related.ProductChanged` leaves it.
- Toast messages and the promise-based `async` wrapper of `login` are left out. The login outcome is a value.
- The cart store (`CartContext`) that applies the dispatched actions is not part of this model. `Cart` covers only which action is dispatched, and the totals.
- There is no promotion-code logic to model.
- The favourites state has only `items`, so "other fields are preserved" holds trivially.
- `Cookies.CookiePreferences.ToggleCookie`: only the four listed cookie ids can be toggled. The source would also accept an arbitrary key and add it to the record.
- `Faq`: the six fixed questions are not enumerated. The properties hold for every pair of indices.
- Re-render scheduling, `useMemo` and `useEffect` ordering, and the context providers are left out. An effect is modelled as running right after the state change that triggers it.
- `Products.ProductListing.GoToPage` is only called with a page from 1 to `totalPages`, because those are the only numbered buttons rendered.

## Findings

| source | as written | input that shows it | evidently intended | confidence | as-written member | corrected member |
|---|---|---|---|---|---|---|
| src/components/Products.jsx:62-63 | Next targets `Math.min(totalPages, currentPage + 1)` and is disabled only when `currentPage === totalPages`. | A search or price range that no product matches, or a failed product fetch (src/components/Products.jsx:102-105), so `totalPages = 0`. On page 1, Next is enabled and sets `currentPage` to 0, and page 0 slices `[-8, 0)` to nothing, even after products arrive. | Next never leaves `[1, totalPages]` and never goes below page 1 | not executed | `Products.NextTargetLeavesPagesWhenEmpty` | `Products.ClampedNextTargetInRange` |
| src/components/RelatedProducts.jsx:10-33 | The effect re-runs on a new `currentProduct` without resetting `relatedProducts` or `loading`, and a failed fetch only clears `loading`. | The related block lists `q`; the user follows `q`'s link (src/components/RelatedProducts.jsx:47), so `q` becomes the current product. Until the new fetch settles, and for good if it fails, the block still proposes `q` next to itself. | The block never proposes the product being viewed, and shows nothing stale while loading or after a failure | not executed | `Related.StaleSelectionShowsCurrentProduct` | `Related.CorrectedNeverShowsCurrentProduct` |
