# Product listing utilities — a Dafny model

This project models the deterministic logic of `src/js/utils.js`, the browser
utility module of an admin product-listing page. Each value the code reads from
a `window.*` global or the DOM becomes a parameter. The model covers five parts:

- **Request parameters** (`Params`). `fetchProducts` builds the search query
  from the applied filters, the page, the page size, the sort column and the
  selected city. Each base parameter falls back to a default through
  JavaScript's `||`. Every truthy filter other than `search` is then copied in.
  A JavaScript object is modelled as an ordered list of key/value pairs
  (`Entries`): assigning to an existing key keeps its position, and assigning to
  a new key appends it. JavaScript values and their truthiness are in
  `JsValues`.
- **Sort mapping** (`Sorting`). `getSortParam` maps a column and a direction to
  one of the API's four sort values. The request builder never calls it: line
  26 sends the raw sort column.
- **Page count** (`Pagination`). `updatePaginationInfo` computes
  `Math.ceil(total / itemsPerPage)`. The model computes it exactly on integers,
  including the non-finite results of dividing by zero or by an unset page
  size.
- **Loading indicator** (`Loading`). The state is the number of
  `.loading-indicator` elements in the document. Show adds one only when none is
  present. Hide removes the first one found.
- **Fetch outcome** (`Fetch`). The page state holds the request inputs, the
  stored products and total, the indicator count, and one ordered log of
  effects. The effects are the request, toasts, renders, pagination updates and
  availability-loader calls. `Views` sorts a log by kind, and the views of two
  logs laid end to end combine the views of each (`Fetch.ViewsOfAppend`).
  `Begin` is the synchronous part of the call, up to the `await`. `Complete`
  handles the response through `StoreResult`, `StoreTotalOnly` and `Recover`,
  then the `finally`. Each step's contract states which effects it appends.

Each operation is paired with a statement about it: a read-after-write for
object assignment, value and key-order laws for the filter copy, if-and-only-if
cases for the sort mapping, least-ness for the page count, an invariant for the
indicator, and per-outcome postconditions for the fetch.

`Math.ceil(45 / 20)` is 3 (`Pagination.TotalPagesExample`).

## Model

| member | source | states |
|---|---|---|
| Entries.Assign | src/js/utils.js:33 | `params[key] = value`: afterwards the key reads as the value, every other key reads as before, and the key order is unchanged or has the new key appended at the end |
| Entries.AssignAppends | src/js/utils.js:31-35 | assigning a key the object lacks appends the pair after every existing property |
| Entries.AssignReplaces | src/js/utils.js:31-35 | assigning a key the object has replaces its value in the position it already holds |
| Entries.AssignDistinct | src/js/utils.js:33 | assignment never creates a second property with the same key |
| Params.BaseParams | src/js/utils.js:22-28 | the literal lists `q`, `page`, `limit`, `sort`, `city_id` in that order, with no key twice and no `search` key; no value is `undefined` or `null`, and every value is truthy except an empty `q` |
| Params.CopyFilters | src/js/utils.js:31-35 | the keys present before the loop stay at the front in their order, and every property afterwards was already present or is a filter entry that is truthy and not `search` |
| Params.BuildParams | src/js/utils.js:22-35 | the five base keys come first; no parameter is named `search`, and none is `undefined` or `null` |
| Params.CopyFiltersGet | src/js/utils.js:31-35 | after the copy loop, a key holds the filter's value when that filter is truthy and not `search`, and otherwise its value from before the loop |
| Params.CopyFiltersHasKey | src/js/utils.js:31-35 | a key is present after the loop if and only if it was present before or a truthy non-`search` filter has that key |
| Params.CopyFiltersKeys | src/js/utils.js:31-35 | the loop keeps existing keys in place and appends the newly copied keys in filter order |
| Params.CopyFiltersWellFormed | src/js/utils.js:31-35 | the loop keeps keys distinct and never adds an `undefined` or `null` value |
| Params.BaseParamsShape | src/js/utils.js:22-28 | reading each base key from the literal gives the value listed under that key |
| Params.ParamsQuery | src/js/utils.js:23-35 | `q` is the `search` filter when truthy and `''` otherwise, unless a truthy filter named `q` overwrites it; `search` is never a parameter |
| Params.ParamsDefaults | src/js/utils.js:24-35 | `page`, `limit`, `sort` and `city_id` are their input when it is set and truthy, and 1, 20, `'name'`, `'1'` otherwise (an unset global or a missing `#citySelect` included), unless a truthy filter of the same name overwrites them |
| Params.ParamsFilters | src/js/utils.js:31-35 | every truthy non-`search` filter is sent with its own value; a non-base key is sent if and only if it is such a filter |
| Params.ParamsShape | src/js/utils.js:22-35 | the parameter keys are the five base keys, then the extra filter keys in filter order (for keys that are not integer-like); no key repeats and no value is `undefined` or `null` |
| Params.BuildParamsSearchThenNew | src/js/utils.js:22-35 | filters holding `search` and then one truthy key that is not a base key give the base parameters followed by that one key |
| Params.ParamsExample | src/js/utils.js:22-35 | filters `{search:'milk', brand:'X'}` on page 2 of 20 give `q=milk, page=2, limit=20, sort=name, city_id=1, brand=X`, in that order |
| Sorting.GetSortParam | src/js/utils.js:70-80 | the result is always one of `price_asc`, `price_desc`, `name`, `relevance`: `price_asc` if and only if the column is `base_price` and the direction is `asc` or unset; `price_desc` if and only if the column is `base_price` and the direction is anything else; `name` if and only if the column is `name` or unset; `relevance` for every other column |
| Sorting.SortDirectionMattersOnlyForPrice | src/js/utils.js:75-79 | the direction changes the result only for the `base_price` column |
| Sorting.SortSentIsRawColumn | src/js/utils.js:70-80 | with no `sort` filter, the request (line 26) sends the column itself; this equals the mapped value if and only if the column is `name` or `relevance` |
| Pagination.CeilDiv | src/js/utils.js:83 | for a positive divisor, `q` is the ceiling of `t / d`: `q*d >= t` and `(q-1)*d < t` |
| Pagination.TotalPages | src/js/utils.js:83 | a positive page size gives the integer ceiling of `total / itemsPerPage`, and a negative one gives the ceiling with the inequalities flipped; a page size of 0 gives +Infinity, -Infinity or NaN according to the sign of the total |
| Pagination.TotalPagesIsLeast | src/js/utils.js:83 | for a positive page size, no page count smaller than the result holds every product |
| Pagination.TotalPagesZeroIff | src/js/utils.js:83 | with a positive page size and a non-negative total, the page count is non-negative, is 0 if and only if the total is 0, and is at most the total |
| Pagination.TotalPagesExample | src/js/utils.js:83 | 45 products at 20 per page give 3 pages |
| Pagination.UpdatePaginationInfo | src/js/utils.js:82-97 | the current page and the total are written as they are (an unset page stays unset); an unset page size gives NaN pages, a zero one gives ±Infinity or NaN, and a positive one the least page count that holds every product |
| Loading.Show | src/js/utils.js:99-110 | afterwards an indicator is present: exactly one when the document had none, and an existing indicator is not duplicated |
| Loading.Hide | src/js/utils.js:112-117 | removes exactly one indicator when one exists; with at most one present, none remains |
| Loading.ShowHideIdempotent | src/js/utils.js:99-117 | showing twice equals showing once; with at most one indicator, hiding twice equals hiding once |
| Loading.RunKeepsSingleIndicator | src/js/utils.js:99-117 | starting from at most one indicator, any sequence of shows and hides keeps at most one, and one is present if and only if the last operation was a show |
| Fetch.Begin | src/js/utils.js:18-38 | an indicator is shown, and an existing one is kept as it is; the log gains exactly the one request carrying the built parameters; the inputs, products and total are unchanged |
| Fetch.Classify | src/js/utils.js:38-58 | the `try` throws before storing anything if and only if the request fails, the status is not 2xx, the body is not JSON, `success` is falsy or `data` is missing; otherwise the total is `data.total`, and the products are stored as a list if and only if `data.products` is present |
| Fetch.StoreResult | src/js/utils.js:46-55 | the products and total become the response's; the log gains, in this order, one render, one pagination update for that total, and one availability call with the ids in list order exactly when the list is non-empty; the indicator and inputs are untouched |
| Fetch.StoreTotalOnly | src/js/utils.js:46-52 | with `data.products` missing, `productsData` becomes `undefined` and the total is still stored; the log gains one render and then one pagination update before the throw |
| Fetch.Recover | src/js/utils.js:59-64 | the products become the empty list and the total 0; the log gains the error toast `Ошибка загрузки товаров` and then one render, in that order |
| Fetch.Complete | src/js/utils.js:40-67 | no further request is made and the indicator is removed; for each outcome of `Classify`, the final products and total, and the effects of the `try` and `catch` blocks in source order (also counted by kind) |
| Fetch.FetchCommon | src/js/utils.js:18-67 | the indicator is shown while the response is pending; every outcome leaves the inputs unchanged, only appends to the effect log, sends exactly one request with the built parameters, and leaves no indicator when at most one existed before |
| Fetch.FetchLoaded | src/js/utils.js:38-55 | on success, products and total are the response's; the log gains the request, one render, one pagination update and, exactly when the list is non-empty, one availability call with the product ids in list order, in that order; no toast is shown |
| Fetch.FetchFailed | src/js/utils.js:38-64 | a network failure, non-2xx status, unparsable body, falsy `success` or missing `data` empties the products and zeroes the total; the log gains the request, one error toast and one render, in that order, and no pagination update or availability call |
| Fetch.FetchLoadedWithoutList | src/js/utils.js:38-64 | a successful body without `products` ends like a failure, but the log gains the request, a render and a pagination update with the server's total, then the error toast and a second render, in that order |
| Fetch.FailuresAreIndistinguishable | src/js/utils.js:40-64 | an HTTP error status, whatever its body, and a network failure leave the page exactly as `success: false` does |
| Fetch.UnsetPageSizeGivesNaN | src/js/utils.js:25-83 | with `itemsPerPage` unset, a successful call requests `limit=20` (line 25) but writes NaN pages (line 83) |

## Left out

- The DOM. Creating the toast and indicator elements, `innerHTML` templates, `querySelectorAll` text writes and the `#toastContainer`/`document.body` fallback are out. The toast and the pagination write appear only as effect-log entries.
- Toast removal. The 3-second `setTimeout` is driven by a timer.
- `showToast`. It is modelled only as the `ShowToast` effect that `fetchProducts` records. Its `isError = false` default and CSS class names are DOM details.
- Pagination text. Number-to-text conversion for `textContent` and the "Найдено товаров" string are out. The effect records the current page, the page count and the total.
- External calls. `fetch`, `response.json()` parsing, `URLSearchParams` percent-encoding and `console.error` are out. The response is an input datatype. The error message passed to `console.error` is not recorded.
- Overlapping calls. The race between overlapping `fetchProducts` calls is concurrency and is not modelled. Each call is `Begin` then `Complete`, with nothing in between.
- Collaborators. `renderProductsTable`, `loadAvailability` and the imported `ProductService` are outside this code. They appear as recorded calls and are assumed not to throw.
- Object key order. JavaScript lists integer-like keys first in `Object.entries`. The filters are taken in the order `Object.entries` returns, and new parameter keys are appended.
- Undefined filters. An undefined `appliedFilters` global would throw at line 23 and go straight to the `catch` with no request. The model assumes the filters are always an object with distinct keys.
- Number types. Numbers are integers: fractions, a NaN-valued global and string-to-number coercion are out. `currentPage` and `itemsPerPage` are optional, so an unset global stays unset both in the request (where `||` replaces it) and in the pagination (which reads it as it is). An unset `sortColumn` is represented by `''`, which `||` treats like `undefined`; nothing else reads it. A missing or non-numeric `data.total` is out.
- Odd response shapes. A `products` field that is present but is not an array is out.
- Fetch.StoreTotalOnly: the first render on this path sees `productsData` as `undefined`; `renderProductsTable` is assumed not to throw on it, as the render effect does not record what it reads.
- Pagination.TotalPages: JavaScript's signed zero (`Math.ceil` of a small negative quotient gives `-0`) is represented as 0.
