# QuickMart storefront: product list view and checkout slice

A Dafny model of the two pieces of logic in the QuickMart storefront UI that
compute or hold state:

- **The product list view** (`ProductList` component). It derives the products
  on screen from the catalogue, the selected category and the pagination
  parameters `{page, limit}`. The category filter keeps the whole catalogue for
  the sentinel `"all"` and otherwise keeps the products whose `category.id`
  strictly equals the selection. The page window is
  `slice((page - 1) * limit, page * limit)`. The model is pure functions
  (modules `JsArray` and `ProductList`).
- **The checkout slice** (`checkoutSlice`). It is the wizard state: a step
  number, a shipping address, payment details and a review list. Four
  reducers each replace one of these groups. The model is a value-level
  reducer `Reduce` and a class `CheckoutStore` whose four methods update its
  fields in place (module `CheckoutSlice`).

Modelling decisions:

- `selectedCategory` has type `number | string`. It is modelled as
  `Number(id) | Text(text)`. `Text("all")` selects everything. Any other text
  selects nothing, because `===` never holds between a string and a numeric id.
- `Array.prototype.slice` is modelled with its full rules for integer
  arguments: negative arguments count back from the end, and indices are
  clipped to the array. So `page < 1` and negative `limit` have defined results.
  The window-content lemmas (`PageIsWindow`, `FirstPagesArePrefix`,
  `PagesTileFiltered`) are stated for `page >= 1` and `limit >= 0`. The window
  width, the adjacency of consecutive pages, the empty page for `limit == 0`,
  the fact that a page only holds filtered products of the selected category,
  and the negative-index rules of `slice` hold for every page and limit.
- The code has no guard on `limit`, so `limit == 0` is allowed and gives an
  empty page for every page number.
- `setStep` stores its payload with no range check, so `step` is an unbounded
  integer rather than an enumeration of wizard stages. The reducer would store
  any JavaScript number unchanged; only integer steps are modelled (see
  "Left out").
- The element type of `review` is defined in a types file that is not part of
  this model, so it is the type parameter `Item`.

## Model

| member | source | states |
|---|---|---|
| JsArray.RelativeIndex | src/components/products/ProductList.tsx:44 | The position an argument of `slice` denotes is never past the end. A non-negative argument is clipped to the length. A negative argument counts back from the end by its magnitude, stopping at the front. |
| JsArray.Slice | src/components/products/ProductList.tsx:43-44 | `slice` never yields more than the array holds, and never an element it does not hold. For a start >= 0, element i is the array's element start + i. For 0 <= start <= end, the length is the clipped window width. A non-negative end at or before the start yields an empty result. |
| JsArray.SliceNegativeStart | src/components/products/ProductList.tsx:44 | A negative start slices exactly like the non-negative start that many elements before the end, clipped at the front. |
| JsArray.SliceNegativeEnd | src/components/products/ProductList.tsx:44 | A negative end slices exactly like the non-negative end that many elements before the end, clipped at the front. |
| ProductList.Matches | src/components/products/ProductList.tsx:27 | `product.category.id === selectedCategory` never holds when the selection is a string. |
| ProductList.KeepMatching | src/components/products/ProductList.tsx:27 | `filter` keeps an order-preserving subsequence of the products. Every kept product matches the category. Each matching product is kept as many times as it occurs, and no other product is kept. |
| ProductList.FilterByCategory | src/components/products/ProductList.tsx:24-27 | The sentinel "all" yields the catalogue unchanged and in the same order. Any other selection yields exactly the category filter above. |
| ProductList.CategoryFilterIsUnique | src/components/products/ProductList.tsx:27 | The filter specification determines the result: any sequence meeting it equals the filtered list. |
| ProductList.OtherTextSelectsNothing | src/components/products/ProductList.tsx:17-27 | A string selection other than "all" filters every catalogue down to the empty list. |
| ProductList.StartIndex | src/components/products/ProductList.tsx:36 | The first page starts at index 0, and every page starts at 0 when `limit` is 0. |
| ProductList.EndIndex | src/components/products/ProductList.tsx:37 | The first page ends at `limit`, and every page ends at 0 when `limit` is 0. |
| ProductList.WindowWidth | src/components/products/ProductList.tsx:36-37 | `endIndex - startIndex == limit` for every page and limit. |
| ProductList.ConsecutivePagesAdjacent | src/components/products/ProductList.tsx:36-37 | Page p's `endIndex` is page p + 1's `startIndex`. |
| ProductList.WindowNonNegative | src/components/products/ProductList.tsx:36-37 | For page >= 1 and limit >= 0, `0 <= startIndex <= endIndex`. |
| ProductList.PageOf | src/components/products/ProductList.tsx:36-44 | A page only holds products of the filtered list, counted with multiplicity. It is empty for every page when limit is 0. |
| ProductList.PageIsWindow | src/components/products/ProductList.tsx:36-44 | For page >= 1 and limit >= 0, a page has at most `limit` products. Its element i is filtered element `startIndex + i`. It is empty when `startIndex` is at or past the end. Otherwise its length is the smaller of `limit` and the filtered length minus `startIndex`. |
| ProductList.VisibleProducts | src/components/products/ProductList.tsx:24-44 | The rendered products are drawn from the filtered list, with multiplicity. There are none when limit is 0. |
| ProductList.VisibleProductsBelong | src/components/products/ProductList.tsx:24-44 | Every rendered product is in the catalogue. Unless "all" is selected, it is of the selected category. |
| ProductList.FirstPagesArePrefix | src/components/products/ProductList.tsx:36-44 | Pages 1..k laid end to end are exactly the first `k * limit` filtered products, or all of them if there are fewer. No product is skipped or repeated between pages. |
| ProductList.PagesTileFiltered | src/components/products/ProductList.tsx:36-44 | Once `k * limit` reaches the filtered length, pages 1..k together are the whole filtered list. |
| CheckoutSlice.InitialState | src/redux/slices/checkoutSlice.ts:10-27 | The initial state has step 0, six empty address fields, four empty payment fields and an empty review list. |
| CheckoutSlice.Reduce | src/redux/slices/checkoutSlice.ts:33-44 | Each action's payload becomes its field group in full, with no merge and no step range check. Every other group is left as it was. |
| CheckoutSlice.ReduceIdempotent | src/redux/slices/checkoutSlice.ts:33-44 | Dispatching the same action twice gives the same state as dispatching it once. |
| CheckoutSlice.ReduceSameGroupOverwrites | src/redux/slices/checkoutSlice.ts:33-44 | A later action on a group wipes out an earlier one on the same group. |
| CheckoutSlice.ReduceCommutes | src/redux/slices/checkoutSlice.ts:33-44 | Actions on different field groups give the same state in either order. |
| CheckoutSlice.DispatchLastWriteWins | src/redux/slices/checkoutSlice.ts:33-44 | After any run of actions, each group holds the payload of the last action that wrote it (`LastWrite` returns an action of `acts` after which no action writes that group). A group that no action wrote keeps its starting value. |
| CheckoutSlice.CheckoutStore.constructor | src/redux/slices/checkoutSlice.ts:10-27 | A new store holds the initial state. |
| CheckoutSlice.CheckoutStore.SetStep | src/redux/slices/checkoutSlice.ts:33-35 | `step` becomes n, for any integer n, with no range check. Address, payment details and review are unchanged. |
| CheckoutSlice.CheckoutStore.UpdateShippingAddress | src/redux/slices/checkoutSlice.ts:36-38 | `shippingAddress` becomes the payload. Step, payment details and review are unchanged. |
| CheckoutSlice.CheckoutStore.UpdatePaymentDetails | src/redux/slices/checkoutSlice.ts:39-41 | `paymentDetails` becomes the payload. Step, address and review are unchanged. |
| CheckoutSlice.CheckoutStore.UpdateReview | src/redux/slices/checkoutSlice.ts:42-44 | `review` becomes the payload. Step, address and payment details are unchanged. |
| CheckoutSlice.CheckoutStore.Dispatch | src/redux/slices/checkoutSlice.ts:29-46 | Dispatching an action through its reducer method leaves the store in `Reduce` of the old state and the action. |

## Left out

- The mount-time dispatch of `fetchAllProducts` and `sortProductsByPrice("asc")` (src/components/products/ProductList.tsx:30-33). It is asynchronous network I/O. The product slice that defines the fetch and the sort is not part of this model, so neither the fetch nor the sort order is modelled. The view takes the catalogue as a parameter.
- Rendering: the `Box`/`Grid`/`ProductCard` markup and the React keys (src/components/products/ProductList.tsx:39-51). Only the sequence that feeds it is modelled.
- JavaScript numbers that are not integers: fractional, infinite or NaN `page`/`limit`, non-integer category ids, and `setStep` payloads such as 1.5, NaN or Infinity. `slice` truncates fractional indices toward zero, reads NaN as 0 and clips ±Infinity to the ends, and the reducer stores any number unchanged. The model takes `int` only, so `step` is `int` here.
- CheckoutSlice.CheckoutStore.SetStep: takes an integer payload only; the source's `setStep` accepts and stores any JavaScript number, including fractions, NaN and Infinity.
- Product prices are `int`. Prices play no part in the view computation.
- The Redux runtime: the store, the Immer drafts behind the in-place assignments, and action creators. `CheckoutStore.Dispatch` is the only piece of it that is modelled.
- The header, the registration dialog and the theme. These are UI state, navigation, async file upload, toasts, delegated form validation and a constant colour table handed to a UI library. None of it computes anything that could be verified.
- The session/user store and the `logout` reducer are in files that are not part of this model.
