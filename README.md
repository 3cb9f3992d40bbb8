# Game Gear Store: a verified model of the storefront's core

Game Gear Store is a React storefront for gaming accessories. This project models the
logic under its pages in Dafny:

- **Catalogue store** (`ProductContext`). It holds one list of products. Add, update and
  delete replace the list. Lookup by id, the category filter and the featured filter read it.
- **Mock authentication** (`AuthContext`). It covers:
  - login against a fixed directory of accounts;
  - the duplicate-email check of sign-up;
  - logout;
  - one-time codes: at most one pending code per email, a ten-minute lifetime, and three
    ordered checks on verification.
- **Catalogue page** (`ProductsPage`). It covers the three-stage filter (search text,
  category tab, price range) and the list of category tabs.
- **Admin dashboard** (`AdminDashboardPage`). It covers total stock, the low-stock count and
  the per-category counts. The per-category counts are built by a loop over the products.
- **Admin product management** (`AdminProductsPage`). It covers:
  - the admin search;
  - the add and edit form, its validation and how it reads the price and stock back;
  - the handlers that pass the result to the store.
- **Product page** (`ProductDetailPage`). It covers the not-found lookup, the bounded
  quantity selector and the add-to-cart request.
- **Checkout page** (`CheckoutPage`). It covers the validation verdict (seven required
  fields, then card fields for card payment only), clearing the cart only on success, and
  the redirect of an empty cart.

Prices are integer cents, so the form's `parseFloat` is read to two decimals. `parseInt` and
`parseFloat` are modelled as partial parsers that return `None` where JavaScript returns
`NaN`; `parseInt` reads decimal digits only (see "Left out" for its `0x` prefix). The clock,
the generated codes and the generated ids are parameters.

How each part of the source is modelled:

| Source part | Modelled as |
|---|---|
| Catalogue store | `Catalog.ProductStore`, a class with a `seq` field |
| Authentication provider | `Auth.AuthState`, a class |
| Product page quantity | `ProductDetail.QuantitySelector`, a class |
| Admin page state and handlers | `AdminProducts.AdminPanel`, a class over the store |
| Category-count loop | `Dashboard.CategoryCounts`, a method with a `while` loop |
| Queries and validation | Pure functions, with lemmas about them |

Files:

| File | Module | Contents |
|---|---|---|
| `seqs.dfy` | `Wrappers` | `Option`, `Result` |
| `seqs.dfy` | `Seqs` | `filter`, `find`, subsequences, `Set`-style de-duplication |
| `text.dfy` | `Text` | ASCII lower-casing and `includes` |
| `numbers.dfy` | `Numbers` | `toString`, `parseInt`, `parseFloat` to cents |
| `catalog.dfy` | `Catalog` | The catalogue store |
| `auth.dfy` | `Auth` | The authentication provider |
| `products_page.dfy` | `ProductsPage` | The catalogue page |
| `dashboard.dfy` | `Dashboard` | The admin dashboard |
| `admin_products.dfy` | `AdminProducts` | Admin product management |
| `product_detail.dfy` | `ProductDetail` | The product page |
| `checkout.dfy` | `Checkout` | The checkout page |

## Model

| member | source | states |
|---|---|---|
| Catalog.ProductStore.constructor | src/context/ProductContext.tsx:6-68 | The store starts with the six seed products. |
| Catalog.ProductStore.AddProduct | src/context/ProductContext.tsx:85-91 | Appends exactly one record: the given fields under the supplied id. Earlier records are unchanged and keep their order. |
| Catalog.ProductStore.UpdateProduct | src/context/ProductContext.tsx:95-99 | The new list is `ReplaceById` of the old list. |
| Catalog.ProductStore.DeleteProduct | src/context/ProductContext.tsx:104-108 | The new list is `RemoveById` of the old list. |
| Catalog.ReplaceById | src/context/ProductContext.tsx:96-98 | Same length. Each record with the updated id becomes the updated record, and every other record is unchanged. |
| Catalog.UpdateAbsentIsNoOp | src/context/ProductContext.tsx:96-98 | Updating an id that is not present leaves the list unchanged. |
| Catalog.UpdateKeepsIds | src/context/ProductContext.tsx:96-98 | An update keeps every id in its position, so unique ids stay unique. |
| Catalog.UpdateThenFind | src/context/ProductContext.tsx:95-116 | After updating a present id, that id finds the updated record. |
| Catalog.RemoveById | src/context/ProductContext.tsx:106-108 | Keeps exactly the records whose id differs. |
| Catalog.DeleteKeepsOthers | src/context/ProductContext.tsx:104-108 | Delete keeps the others in order, with their multiplicities. Deleting an absent id changes nothing. Unique ids stay unique. |
| Catalog.DeleteThenFind | src/context/ProductContext.tsx:104-116 | After a delete the id finds nothing, and every other id finds what it found before. |
| Catalog.FindAfterRemove | src/context/ProductContext.tsx:104-116 | Removing one id does not change the lookup of any other id. |
| Catalog.FindById | src/context/ProductContext.tsx:114-116 | Returns nothing iff no record has the id; otherwise the first record of the list with that id (no earlier record has it). |
| Catalog.FindByIdUnique | src/context/ProductContext.tsx:114-116 | With unique ids, the lookup returns the one record with that id. |
| Catalog.AddThenFind | src/context/ProductContext.tsx:85-116 | A product added under a fresh id is found by that id and carries exactly the added fields. |
| Catalog.AddKeepsUniqueIds | src/context/ProductContext.tsx:85-91 | Adding under a fresh id keeps ids unique. |
| Catalog.ByCategory | src/context/ProductContext.tsx:118-123 | `"All"` returns the whole list. Any other value returns exactly the products of that category (case-sensitive). |
| Catalog.Featured | src/context/ProductContext.tsx:125-127 | Returns exactly the featured products. |
| Catalog.QueriesKeepOrder | src/context/ProductContext.tsx:118-127 | Both filters return a subsequence of the list. Each kept product keeps its multiplicity. |
| Catalog.ProductFields.WithId | src/context/ProductContext.tsx:86-89 | The stored record has the supplied id and exactly the given fields. |
| Auth.Account.Public | src/context/AuthContext.tsx:75 | The signed-in user is the account without its password. |
| Auth.AuthState.constructor | src/context/AuthContext.tsx:49-51 | Starts with nobody signed in, an empty code store and the given directory. |
| Auth.AuthState.Login | src/context/AuthContext.tsx:67-89 | Succeeds iff some account matches both email and password. The first match becomes the user. A failure leaves the user unchanged. |
| Auth.AuthState.Signup | src/context/AuthContext.tsx:91-109 | Returns false iff the email is registered. Nothing else changes. |
| Auth.AuthState.Logout | src/context/AuthContext.tsx:111-115 | Signs the user out and keeps the code store. |
| Auth.AuthState.RequestOtp | src/context/AuthContext.tsx:117-146 | An unknown email returns false and changes nothing. A known email gets the fresh code in place of any earlier one. The store invariant holds afterwards. |
| Auth.AuthState.VerifyOtp | src/context/AuthContext.tsx:148-188 | The outcome is `OtpCheck` of the store before the call: no entry, expired (`now > expiresAt`), wrong code, in that order. Each failure leaves everything unchanged. Success signs in the account and removes its codes. "User not found" is unreachable. |
| Auth.OtpCheck | src/context/AuthContext.tsx:148-165 | No code requested iff the store has no entry for the email. Expired iff there is one and `now > expiresAt`. Verified iff it is unexpired and its code equals the one typed. Never "user not found". |
| Auth.MockDirectorySignIns | src/context/AuthContext.tsx:29-44 | With the shipped directory, the admin credentials sign in as the only administrator and the other pair as a regular user. No email is listed twice. |
| Auth.EntryFor | src/context/AuthContext.tsx:150 | Returns nothing iff the store has no entry for the email; otherwise an entry for it. |
| Auth.WithoutOtp | src/context/AuthContext.tsx:175 | Keeps exactly the entries of other emails. |
| Auth.FreshOtpIsTheOnlyEntry | src/context/AuthContext.tsx:130-134 | After a request, the email has exactly one entry, expiring at `now + 600000`, and it is the one found. Other emails' entries are kept in order. |
| Auth.FreshOtpKeepsInvariant | src/context/AuthContext.tsx:120-134 | A request for a registered email keeps every entry registered and at most one entry per email. |
| Auth.WithoutOtpKeepsInvariant | src/context/AuthContext.tsx:175 | Consuming an email's codes keeps the invariant. |
| Auth.IssuedCodeVerifiesUntilExpiry | src/context/AuthContext.tsx:130-165 | After a code is issued at `now`, checking it at `later` gives Verified iff `later <= now + 600000`, otherwise Expired. Any other code gives InvalidCode, or Expired after the ten minutes. |
| ProductsPage.FilterProducts | src/pages/ProductsPage.tsx:33-55 | Keeps exactly the products that meet all three active conditions. An empty search and an empty or `"All"` category are inactive. The price bounds are inclusive. |
| ProductsPage.FilterProductsExactly | src/pages/ProductsPage.tsx:33-55 | The staged filter equals one filter by the conjunction. The result is a subsequence that keeps multiplicities. |
| ProductsPage.EmptySearchMatchesAll | src/pages/ProductsPage.tsx:37-42 | An empty term matches every product, so the `if (search)` guard does not change the result. |
| ProductsPage.DefaultViewShowsEverything | src/pages/ProductsPage.tsx:16-30 | With an empty search, the "All" tab and the initial slider range, the page shows exactly the products priced from 0 to 500, in catalogue order; so the whole catalogue when every price is in that range. |
| ProductsPage.CategoryTabs | src/pages/ProductsPage.tsx:20 | `"All"` comes first. The rest are exactly the categories that occur, each once. |
| ProductsPage.CategoryTabsInFirstOccurrenceOrder | src/pages/ProductsPage.tsx:20 | The tabs after `"All"` are in first-occurrence order. |
| Dashboard.TotalStock | src/pages/admin/AdminDashboardPage.tsx:11 | No products give a total of 0. With no negative stock the total is non-negative. |
| Dashboard.TotalStockAppend | src/pages/admin/AdminDashboardPage.tsx:11 | The total stock of a concatenation is the sum of the two totals. |
| Dashboard.TotalStockBounds | src/pages/admin/AdminDashboardPage.tsx:11 | With no negative stock, the total is non-negative and at least each product's stock. |
| Dashboard.LowStockCount | src/pages/admin/AdminDashboardPage.tsx:10-12 | The low-stock count is at most the product count. |
| Dashboard.LowStockSplitsCatalogue | src/pages/admin/AdminDashboardPage.tsx:10-12 | Low-stock and other products add up to the product count. The count equals it iff every stock is below 5. |
| Dashboard.CategoryCounts | src/pages/admin/AdminDashboardPage.tsx:15-18 | The keys are exactly the categories that occur. Each count is the number of products of that category, and at least 1. |
| Dashboard.CategoryCountsSumToTotal | src/pages/admin/AdminDashboardPage.tsx:10-18 | Summed over each category once, the counts equal the product count. |
| Dashboard.CountsCoverCatalogue | src/pages/admin/AdminDashboardPage.tsx:15-18 | Over a repetition-free list holding every category, the multiplicities sum to the list length. |
| AdminProducts.AdminSearch | src/pages/admin/AdminProductsPage.tsx:39-42 | Keeps exactly the products whose lower-cased name or category contains the lower-cased term. |
| AdminProducts.AdminSearchKeepsOrder | src/pages/admin/AdminProductsPage.tsx:39-42 | The result is a subsequence. Each matching product keeps its multiplicity and every other product is dropped. An empty term keeps every product. |
| AdminProducts.NewProduct | src/pages/admin/AdminProductsPage.tsx:90-108 | Refused iff name, price or category is empty (checked first) or the price is not a number. An accepted product has the form's name, description, category and featured flag, the parsed price and the parsed stock (0 when not a number). Its image is the one given, or the placeholder when none is. |
| AdminProducts.EditedProduct | src/pages/admin/AdminProductsPage.tsx:114-135 | Refused exactly as add is. It keeps the edited product's id and takes the form's name, description, category, featured flag, parsed price and parsed stock (0 when not a number), with the typed image URL (no placeholder). |
| AdminProducts.FormOf | src/pages/admin/AdminProductsPage.tsx:70-78 | The edit form copies the name, description, category, image URL and featured flag unchanged, and holds price and stock as `toString` prints them. |
| AdminProducts.FormOfParsesBack | src/pages/admin/AdminProductsPage.tsx:70-78 | The printed price and stock parse back (`parseFloat`, `parseInt`) to the product's own price and stock, and the printed price is never blank. |
| AdminProducts.EditedStockAsWritten | src/pages/admin/AdminProductsPage.tsx:133 | A blank stock yields `NaN` (`None`). A number agrees with the add handler's reading; `NaN` is where the add handler stores 0. |
| AdminProducts.EditUnchangedKeepsProduct | src/pages/admin/AdminProductsPage.tsx:68-135 | Opening a product for editing and saving it unchanged gives back the same product. |
| AdminProducts.AddCopiedFormCopiesProduct | src/pages/admin/AdminProductsPage.tsx:68-108 | A product's form submitted through add gives the product's own fields, or the placeholder image when it has none. |
| AdminProducts.EditWithBlankStock | src/pages/admin/AdminProductsPage.tsx:133 | Clearing stock in the edit form passes validation. As written the stock parses to `NaN`; the corrected edit stores 0. |
| AdminProducts.SavedEditIsFound | src/pages/admin/AdminProductsPage.tsx:126-137 | A saved edit of a present product is found under its id with the new fields. |
| AdminProducts.AdminPanel.constructor | src/pages/admin/AdminProductsPage.tsx:22-36 | Both dialogs closed, no product being edited and a blank form. |
| AdminProducts.AdminPanel.SubmitAdd | src/pages/admin/AdminProductsPage.tsx:90-112 | A refused form adds nothing and leaves the dialog open. An accepted one appends the product under the new id and closes the dialog. |
| AdminProducts.AdminPanel.SubmitEdit | src/pages/admin/AdminProductsPage.tsx:114-139 | With no product selected, nothing happens. A refused form changes nothing. An accepted one replaces the records with that id and closes the dialog. |
| AdminProducts.AdminPanel.OpenEdit | src/pages/admin/AdminProductsPage.tsx:68-82 | The form becomes the product's form. The product is remembered and the edit dialog opens. |
| AdminProducts.AdminPanel.OpenAdd | src/pages/admin/AdminProductsPage.tsx:53-66 | The form becomes blank and the add dialog opens. |
| AdminProducts.AdminPanel.ChangeInput | src/pages/admin/AdminProductsPage.tsx:44-47 | Only the named field changes. |
| AdminProducts.AdminPanel.ChangeFeatured | src/pages/admin/AdminProductsPage.tsx:49-51 | Only the featured flag changes. |
| AdminProducts.AdminPanel.Delete | src/pages/admin/AdminProductsPage.tsx:84-88 | A confirmed delete removes the id. An unconfirmed one changes nothing. |
| ProductDetail.DetailLookup | src/pages/ProductDetailPage.tsx:18-20 | Not found iff no product has the route id; a missing route id is looked up as `""`. |
| ProductDetail.NotFoundCases | src/pages/ProductDetailPage.tsx:18-20 | A missing id gives not-found, and so does a deleted product's id. Other products are still shown. |
| ProductDetail.QuantitySelector.constructor | src/pages/ProductDetailPage.tsx:16 | The quantity starts at 1, within its bounds. |
| ProductDetail.QuantitySelector.Increment | src/pages/ProductDetailPage.tsx:39-45 | Adds one only below the stock; otherwise nothing changes and out-of-stock is reported. `1 <= quantity <= max(1, stock)` is kept. |
| ProductDetail.QuantitySelector.Decrement | src/pages/ProductDetailPage.tsx:47-51 | Subtracts one only above 1, and keeps the bounds. |
| ProductDetail.QuantitySelector.AddToCart | src/pages/ProductDetailPage.tsx:35-117 | Passes the current product and quantity. The quantity is positive and, for a product in stock, within the stock. |
| ProductDetail.QuantityStaysInRange | src/pages/ProductDetailPage.tsx:16-51 | After any sequence of presses, the quantity stays between 1 and `max(1, stock)`. |
| ProductDetail.IncrementsReachStock | src/pages/ProductDetailPage.tsx:39-45 | Repeated increments climb one at a time and stop exactly at the stock. |
| Checkout.EmptyFields | src/pages/CheckoutPage.tsx:42-44 | Lists exactly the blank required fields, and is empty iff all seven are filled in. |
| Checkout.Submit | src/pages/CheckoutPage.tsx:38-63 | Rejected for missing fields iff a required field is blank. Otherwise rejected for card details iff paying by `"credit"` with a blank card field. Otherwise the order is placed under the given id. |
| Checkout.CardFieldsIgnoredForOtherMethods | src/pages/CheckoutPage.tsx:52-57 | With any method other than `"credit"`, the card fields do not affect the verdict. |
| Checkout.CartAfterSubmit | src/pages/CheckoutPage.tsx:46-62 | The cart is emptied only when the order is placed; every rejection keeps it. |
| Checkout.Render | src/pages/CheckoutPage.tsx:69-72 | The page redirects iff the cart is empty. |

## Left out

- **Rendering and UI side effects.** JSX, routing, navigation targets, toasts, `alert`, `console.log` and `window.confirm` are not modelled. The confirmation is the `confirmed` parameter of `AdminPanel.Delete`.
- **Browser storage.** Saving the signed-in user to `localStorage` and restoring it is not modelled.
- **The cart store.** `src/context/CartContext.tsx` is not part of this model. Checkout sees the cart only as a list of items, and add-to-cart only as the request it passes.
- **Random values and the clock.** `Date.now()` and `Math.random()` are parameters: the product id, the OTP clock, the OTP code and the order id. The six-digit shape of codes and the base-36 shape of order ids are not modelled.
- **Floating point.** Prices are integer cents. `parseFloat` reads at most two decimals, with no exponent or `Infinity` forms. Digits beyond the second decimal are truncated; the form's `step="0.01"` keeps them out. `toFixed`, the 7% tax and the chart's percentage widths are not modelled.
- **Browser input checks.** The `required` and `type="number"` inputs stop a blank or non-numeric price from reaching the add and edit handlers. The model returns `PriceNotNumeric` for a non-numeric price instead of storing `NaN`.
- **Text handling.** `toLowerCase` is ASCII only. `parseInt` and `parseFloat` skip ASCII white space only.
- **Component lifecycle.** React state batching, effects and async wrappers are not modelled. The catalogue page is modelled by the filter it computes. The quantity selector is tied to the product it was created for.
- **Other files.** The login page, the home page, the product card, the order confirmation page and the admin layout's redirect are not part of this model.
- Numbers.ParseInt: reads decimal digits only. JavaScript's `parseInt` without a radix also reads a `0x` prefix as hexadecimal (`"0x1A"` is 26, `"0x"` is `NaN`), where the model reads the leading 0. The stock inputs are `type="number"`, so such text does not reach the handlers.
- Dashboard.CategoryCounts: is modelled as a `map`, not a plain JavaScript object. On the object, a category named like an inherited property (`constructor`, `toString`) starts from that property and gets a string count, and a category named `__proto__` gets no entry at all. `Object.entries` also lists integer-like category names first, in ascending order, before the rest in first-occurrence order. None of the seed categories is such a name.
- AdminProducts.AdminPanel.SubmitEdit: when an accepted edit's stock is not a number, it stores the corrected 0 rather than `NaN` (see Findings).

## Findings

| source | as written | input that shows it | evidently intended | confidence | as-written member | corrected member |
|---|---|---|---|---|---|---|
| src/pages/admin/AdminProductsPage.tsx:133 | The edit handler reads the stock with `parseInt(formData.stock)` and, unlike the add handler, has no fallback to 0. A cleared stock field passes validation and stores `NaN` as the product's stock. | Edit any product, clear the Stock field, save. | Stock is read as the add handler reads it (line 106): a blank or non-numeric stock is stored as 0. | not executed | AdminProducts.EditWithBlankStock | AdminProducts.EditedProduct |
