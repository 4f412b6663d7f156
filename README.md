# Donut storefront: catalog filter and quantity counter

A model of the two pieces of logic in a small React Native storefront.

- The **catalog screen** (`Screen/DonutApp.js`) fetches the product list once when it mounts.
  It keeps four state cells: `products`, `searchText`, `selectedCategory` and `loading`.
  On every render it derives the displayed list with `products.filter(...)`.
  A product is kept when the category is the sentinel `"Donut"` or occurs in the product's name (case-sensitive).
  It must also have the lower-cased search text occur in its lower-cased name.
- The **detail screen** (`Screen/ProductDetailScreen.js`) receives a product from the catalog.
  It keeps a `quantity` counter that starts at 1.
  "+" adds one. "-" subtracts one but never goes below 1.

Files:

- `text_match.dfy`, module `TextMatch`: JavaScript's `String.prototype.includes` as `Contains`,
  with an iff lemma against an independent "occurs at some index" definition.
  `String.prototype.toLowerCase` is modelled as `ToLower`, which lower-cases ASCII letters only.
- `donut_app.dfy`, module `DonutApp`: `Array.prototype.filter` as `Filter`, its subsequence,
  count and membership lemmas, the `Product` record, the two match tests, `FilteredProducts`,
  and the class `CatalogScreen` with the state cells and their handlers.
  The network fetch is an abstract `FetchOutcome`: `Success(list)` or `Failure`.
- `product_detail_screen.dfy`, module `ProductDetailScreen`: the class `ProductDetail`.
  It holds the handed-over product and the quantity.
  A ghost history of button presses ties the quantity to `Run(1, presses)`, the fold of the
  press updates, so that lemmas about arbitrary press sequences speak about the class state.

On a failed fetch the code does not clear `products`; it leaves it as it was.
`CatalogScreen.SettleFetch` states exactly that.
The fetch settles once, while the screen is still loading, and nothing is held while loading.
So the list after a failure is the initial empty one, and `SettleFetch` states that too.

## Model

| member | source | states |
|---|---|---|
| `TextMatch.ContainsIffOccurs` | Screen/DonutApp.js:31-32 | `s.includes(t)` holds exactly when `t` occurs in `s` at some index (both directions) |
| `TextMatch.Contains` | Screen/DonutApp.js:31-32 | `s.includes(t)` is false whenever `t` is longer than `s`, and true for every `s` when `t` is empty (so an empty search text matches every name) |
| `TextMatch.ContainsSameLength` | Screen/DonutApp.js:31 | among strings of equal length, `includes` is equality |
| `TextMatch.LowerChar` | Screen/DonutApp.js:32 | lower-casing one character sends each of 'A'..'Z' to the letter at the same place in 'a'..'z', leaves every other character unchanged, and never yields an upper-case ASCII letter |
| `TextMatch.LowerCharIdentifies` | Screen/DonutApp.js:32 | two characters lower-case alike exactly when they are equal or the same ASCII letter in different case |
| `TextMatch.ToLower` | Screen/DonutApp.js:32 | `toLowerCase` (ASCII) keeps the length, lower-cases each character in place, and leaves no upper-case ASCII letter |
| `TextMatch.ToLowerIdempotent` | Screen/DonutApp.js:32 | lower-casing twice is lower-casing once |
| `DonutApp.Filter` | Screen/DonutApp.js:30-34 | `filter` never lengthens the array and keeps only accepted elements of the input |
| `DonutApp.FilterIsSubsequence` | Screen/DonutApp.js:30-34 | the filtered array is a subsequence of the input: its elements sit at strictly increasing positions of the input |
| `DonutApp.FilterCount` | Screen/DonutApp.js:30-34 | each accepted element keeps all its occurrences and each rejected one has none |
| `DonutApp.FilterMembership` | Screen/DonutApp.js:30-34 | every element is in the filtered array iff it is in the input and accepted |
| `DonutApp.FilterAgreeing` | Screen/DonutApp.js:30-34 | two tests that agree on the input's elements filter it to the same array |
| `DonutApp.FilterAcceptingAll` | Screen/DonutApp.js:30-34 | a test accepting every element returns the input unchanged |
| `DonutApp.FilterConjunction` | Screen/DonutApp.js:30-34 | filtering by `f && g` equals filtering by `f` and then by `g` |
| `DonutApp.MatchesCategory` | Screen/DonutApp.js:31 | the sentinel "Donut" accepts every product; any other category accepts a product exactly when the category occurs, case-sensitively, at some index of its name |
| `DonutApp.MatchesSearch` | Screen/DonutApp.js:32 | a product matches exactly when the lower-cased search text occurs at some index of its lower-cased name; the empty search text matches every product |
| `DonutApp.Matches` | Screen/DonutApp.js:33 | under the sentinel category a product is kept iff it matches the search, and with empty search text iff it matches the category |
| `DonutApp.FilteredProducts` | Screen/DonutApp.js:30-34 | the displayed list is a subsequence of `products`, holds exactly the products passing both the category and the search test (soundness and completeness), and is no longer than `products` |
| `DonutApp.FilteredProductsCount` | Screen/DonutApp.js:30-34 | a matching product is displayed as often as it was fetched, a non-matching one never |
| `DonutApp.ShowAllIsSearchOnly` | Screen/DonutApp.js:31 | under the sentinel category `"Donut"` the displayed list equals search-only filtering |
| `DonutApp.EmptySearchIsCategoryOnly` | Screen/DonutApp.js:32 | with empty search text the displayed list equals category-only filtering |
| `DonutApp.InitialFilterShowsAll` | Screen/DonutApp.js:7-8 | with the initial category `"Donut"` and the initial empty search the whole product list is displayed |
| `DonutApp.FilterByCategoryThenSearch` | Screen/DonutApp.js:31-33 | the two tests are independent: applying them one after the other gives the displayed list |
| `DonutApp.CategoryIsCaseSensitiveSearchIsNot` | Screen/DonutApp.js:31-32 | a product named "pink donut" fails the case-sensitive "Pink Donut" category test but passes the case-insensitive search for "Pink Donut" |
| `DonutApp.Label` | Screen/DonutApp.js:75-100 | each category button selects one of "Donut", "Pink Donut", "Floating", and only the first button selects the sentinel |
| `DonutApp.CatalogScreen.constructor` | Screen/DonutApp.js:6-9 | the initial state: no products, empty search, category "Donut", loading, and the invariant holds |
| `DonutApp.CatalogScreen.SettleFetch` | Screen/DonutApp.js:14-24 | the one fetch settles while loading: on success `products` becomes the fetched list, on failure it is unchanged and therefore empty; loading becomes false either way; the other cells are unchanged |
| `DonutApp.CatalogScreen.SetSearchText` | Screen/DonutApp.js:66-71 | typing replaces the search text and nothing else; loading is not set back to true |
| `DonutApp.CatalogScreen.PressCategory` | Screen/DonutApp.js:75-100 | a button press sets the category to that button's label, which keeps it among the three labels; nothing else changes |
| `DonutApp.CatalogScreen.VisibleProducts` | Screen/DonutApp.js:30-34 | the displayed list for the current state is a subsequence of `products` holding exactly the matching products |
| `DonutApp.Mount` | Screen/DonutApp.js:12-27 | after mounting and the one fetch settling, loading is false, `products` is the fetched list or empty on failure, and the whole list is displayed |
| `ProductDetailScreen.DecreaseStep` | Screen/ProductDetailScreen.js:15-17 | the "-" update yields max(1, n - 1): at least 1, at least n - 1, and equal to one of them |
| `ProductDetailScreen.Step` | Screen/ProductDetailScreen.js:10-17 | from a quantity >= 1 one press keeps it >= 1, moves it by at most one, and raises it exactly when the press is "+" |
| `ProductDetailScreen.Run` | Screen/ProductDetailScreen.js:7-17 | any sequence of presses from a quantity >= 1 ends at a quantity >= 1 |
| `ProductDetailScreen.DecreaseOnlyAboveOne` | Screen/ProductDetailScreen.js:16 | from a valid quantity "-" goes down exactly when it is above 1 and stays put exactly at 1 |
| `ProductDetailScreen.IncreaseThenDecrease` | Screen/ProductDetailScreen.js:10-17 | "+" followed by "-" returns to n for every n >= 1 |
| `ProductDetailScreen.RepeatedDecreaseAtOne` | Screen/ProductDetailScreen.js:15-17 | pressing "-" any number of times at 1 leaves 1 |
| `ProductDetailScreen.RepeatedIncrease` | Screen/ProductDetailScreen.js:10-12 | "+" has no upper bound: k presses add exactly k |
| `ProductDetailScreen.RunBounds` | Screen/ProductDetailScreen.js:7-17 | after any presses the quantity is at most start plus the "+" count and at least start plus the "+" count minus the "-" count |
| `ProductDetailScreen.ProductDetail.constructor` | Screen/ProductDetailScreen.js:5-7 | the screen opens with the product handed over unchanged and quantity 1 |
| `ProductDetailScreen.ProductDetail.IncreaseQuantity` | Screen/ProductDetailScreen.js:10-12 | "+" adds one and keeps the invariant `quantity == Run(1, presses) && quantity >= 1` |
| `ProductDetailScreen.ProductDetail.DecreaseQuantity` | Screen/ProductDetailScreen.js:15-17 | "-" applies `DecreaseStep` and keeps the invariant `quantity >= 1` |

## Left out

- ToLower: lower-cases the ASCII letters A-Z only and maps every other character, non-ASCII letters included, to itself. JavaScript's `toLowerCase` also lower-cases non-ASCII letters and can change a string's length. So a name and a search text that differ only in the case of a non-ASCII letter ("Ä" and "ä") match in JavaScript but not in the model.
- MatchesSearch: compares with the ASCII-only `ToLower`, so it rejects a name and search text that differ only in the case of a non-ASCII letter, which JavaScript's search accepts.
- LowerCharIdentifies: states when two characters lower-case alike under ASCII-only lower-casing; two non-ASCII case variants ("Ä", "ä") lower-case differently here but alike in JavaScript.
- RepeatedIncrease: assumes the quantity is an unbounded integer. In JavaScript it is a Number (a double), and `prevQuantity + 1` stops increasing it at 2^53, which no user reaches by pressing a button.
- ProductDetail.IncreaseQuantity: likewise adds one to an unbounded integer; the 2^53 limit of JavaScript Numbers is not modelled.
- Strings are sequences of Dafny `char`; JavaScript strings are UTF-16 code units. The two agree on the ASCII range the model relies on.
- The HTTP request and `response.json()` (Screen/DonutApp.js:16-17): network I/O, replaced by the abstract `FetchOutcome`. The body is assumed to decode to a list of products; a body of another shape is not modelled.
- `console.error` on failure (Screen/DonutApp.js:21): logging only.
- The `useEffect` mount lifecycle and its asynchrony (Screen/DonutApp.js:12-27): framework scheduling. The fetch settling is one atomic transition, `SettleFetch`; `Mount` composes it with the constructor. A fetch settling after unmount is not modelled.
- All rendering: the busy indicator shown while loading, the JSX, `FlatList`, `Image`, icons and styles (Screen/DonutApp.js:36-111, 114-226; Screen/ProductDetailScreen.js:19-140).
- Navigation: `navigation.navigate` with the tapped product (Screen/DonutApp.js:37) and `navigation.goBack` behind "Add to cart" (Screen/ProductDetailScreen.js:53) call into a library outside this model. The hand-off is represented only by the `ProductDetail` constructor storing the product unchanged. App.js is navigator wiring and is not part of this model.
- The "+" button on each catalog card (Screen/DonutApp.js:45-47): it has no handler.
- A missing `route.params` (Screen/ProductDetailScreen.js:6): the source has no guard and its behaviour is undefined, so the model assumes a product is always passed.
- Product fields other than `name` are carried as opaque strings; `id` is a string though the endpoint may send a number.
