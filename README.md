# cloudPos point-of-sale core, modelled in Dafny

This project models the logic of the cloudPos storefront, a React point-of-sale front end for an ERPNext/Frappe back end. It covers four parts:

- **Catalog client** (`Catalog`, `catalog.dfy`). `fetchProducts` fetches the item report. The report comes back in columnar form, `{keys, values}`. The client checks it, pivots each row into a key/value dictionary (the last column of a repeated name wins) and projects that dictionary onto a product record. The price falls back to 0 and the image to the placeholder `/api/placeholder/200/200`. Errors are re-thrown unchanged.
- **Product search** (`ProductSearch`, `search.dfy`). `ProductList` shows a product when the lowered search term occurs in its lowered name, code or description. Null entries are dropped.
- **Cart state machine** (`Cart`, `cart.dfy`, and the class `PosInterface.Interface`, `pos.dfy`). The updaters `addToCart`, `removeFromCart` and `updateQuantity` are pure functions of the previous cart. `calculateTotal` sums price times quantity. The class holds the component state (`cartItems`, `isCartOpen`, `products`). Its methods assign that state the way the `setState` calls do.
- **Service worker** (`ServiceWorker`, `service_worker.dfy`, over `CacheApi`, `cache_api.dfy`). `install` stores the application shell in the cache `appV1`. `fetch` goes to the network first: a response is returned and put into `appV1`; on a network error it falls back to `caches.match`, then to an offline text response. `activate` deletes every cache whose name is not `appV1`. The browser Cache API these handlers rely on follows the W3C Service Workers specification: section 5.4 (`put`, `addAll`) and section 5.5 (`open`, `match`, `keys`, `delete`). It is modelled as the class `CacheApi.CacheStorage`: cache names in creation order, and a map from name to cache.

Each class method is proved against a specification function: `Opened`, `Stored`, `AddedAll`, `Deleted`, `MatchIn`, `Installed`, `FetchReply`, `Activated`. What the source promises is then proved about those functions as lemmas.

Inputs the code takes from the browser are parameters of the model:
- the network's answer to a fetch (`FetchResult`, and `net` for `addAll`);
- the HTTP result of the catalog request (`Result<Response, FetchError>`);
- `parseFloat` (`Parser`).

Points where the code is looser than one might expect; the model follows the code:

- **No sign check on prices.** The code keeps any parsed number, so a negative rate gives a negative price (`Catalog.NegativeRateKept`).
- **No strict schema check.** There is no error for a response with missing fields. The code only checks that `message` is truthy. Missing columns become `undefined` fields. A missing `values`, or a missing `keys` with at least one row, fails with the JavaScript TypeError that reading `.map` or `.forEach` of `undefined` raises. A missing `keys` with no rows gives the empty list, because the `forEach` is never reached (`Catalog.Normalize`).
- **Offline lookup searches every cache.** The fallback does not look only in the current cache generation: `caches.match` searches every cache in creation order, so before `activate` an older generation can answer (`ServiceWorker.MatchSearchesEveryCache`).
- **No local store.** There is no local structured store, connectivity monitor or synchroniser. The component's load logs the error and keeps the old products (`PosInterface.Interface.LoadProducts`).

## Model

| member | source | states |
|---|---|---|
| Catalog.KeyValueMap | src/api/endpoints.js:30-33 | computes the dictionary the `forEach` leaves: the entries of the keys assigned in index order, each later key overwriting an earlier one |
| Catalog.Column | src/api/endpoints.js:32 | computes the cell of the last column with the given name, `undefined` when there is none or the row is too short |
| Catalog.Record | src/api/endpoints.js:35-43 | computes the product record of a dictionary: the five copied fields, the parsed price and the image with its default |
| Catalog.RowRecord | src/api/endpoints.js:29-44 | computes the record of one row: its dictionary, then `Record` |
| Catalog.BuildKeyValueMap | src/api/endpoints.js:30-33 | the `keys.forEach` loop over indices builds exactly the dictionary `KeyValueMap` of the keys and the row |
| Catalog.LastIndexOf | src/api/endpoints.js:31-32 | the index returned holds the key, and no later index does |
| Catalog.KeyValueMapIsLastWriteWins | src/api/endpoints.js:30-33 | the dictionary holds exactly the row's keys; each key's entry is the cell at the last index of that key (`undefined` past the end of the row) |
| Catalog.DistinctKeysPivot | src/api/endpoints.js:31-32 | with no repeated key, the entry for `keys[i]` is `row[i]` |
| Catalog.Price | src/api/endpoints.js:40 | the price is the parsed rate; a missing rate or NaN gives 0 |
| Catalog.Image | src/api/endpoints.js:42 | a non-empty image string is kept; a missing or empty one becomes the placeholder |
| Catalog.Normalize | src/api/endpoints.js:24-44 | the result is `'Invalid response structure'` exactly when `message` is missing or falsy; it is a product list exactly when the report is well shaped; the list has one record per row |
| Catalog.FetchProducts | src/api/endpoints.js:14-50 | a failed request's error is re-thrown unchanged; a response is normalised |
| Catalog.NormalizedRecordFields | src/api/endpoints.js:35-43 | record `i` comes from row `i`: `id`, `name`, `code`, `description`, `uom` are the columns `name`, `item_name`, `item_code`, `description`, `stock_uom`; price and image get their defaults |
| Catalog.ShortRowDefaults | src/api/endpoints.js:31-32 | a row ending before the `standard_rate` and `image` columns gets price 0 and the placeholder image |
| Catalog.ShortRowOfRequestedFields | src/api/endpoints.js:19 | under the requested column order, a row of at most four cells gets price 0 and the placeholder image |
| Catalog.NegativeRateKept | src/api/endpoints.js:40 | a parsed negative rate gives a negative price |
| Catalog.ThreeColumnExample | src/api/endpoints.js:28-44 | one row `I1, Widget, 9.99` under keys `name, item_name, standard_rate` gives the single expected record |
| ProductSearch.Includes | src/components/pos/ProductList.jsx:8-10 | computes `includes`: the needle occurs at some position of the haystack |
| ProductSearch.Matches | src/components/pos/ProductList.jsx:5-11 | computes the filter's test: the entry is present and the lowered term occurs in its lowered name, code or description |
| ProductSearch.Filter | src/components/pos/ProductList.jsx:4-12 | the result is no longer than the input and every entry of it passes the test |
| ProductSearch.Lower | src/components/pos/ProductList.jsx:6 | lowering keeps the length and lowers each character |
| ProductSearch.FieldText | src/components/pos/ProductList.jsx:8-10 | a missing field reads as `""`; a present one is lowered |
| ProductSearch.FilterIsSubsequence | src/components/pos/ProductList.jsx:4 | the filtered list is an order-preserving subsequence of the products |
| ProductSearch.FilterCounts | src/components/pos/ProductList.jsx:4-12 | a matching entry is kept as many times as it occurs in the input; a non-matching one not at all |
| ProductSearch.FilterMembership | src/components/pos/ProductList.jsx:4-12 | an entry is in the result exactly when it is in the input, is present, and the lowered term occurs in its lowered name, code or description |
| ProductSearch.NoMissingEntries | src/components/pos/ProductList.jsx:5 | null or undefined entries are never in the result |
| ProductSearch.MatchesEmptyTerm | src/components/pos/ProductList.jsx:6-11 | every present product matches the empty term |
| ProductSearch.EmptyTermKeepsPresent | src/components/pos/ProductList.jsx:5-11 | with the empty term, an entry is kept exactly when it is present |
| ProductSearch.EmptyTermKeepsAll | src/components/pos/ProductList.jsx:4-12 | with no missing entries, the empty term returns the list unchanged |
| ProductSearch.LowerIdempotent | src/components/pos/ProductList.jsx:6 | lowering twice is lowering once |
| ProductSearch.CaseInsensitive | src/components/pos/ProductList.jsx:6 | two terms that lower to the same string give the same result |
| ProductSearch.LoweredTermSameResult | src/components/pos/ProductList.jsx:6 | searching for the lowered term gives the same result as searching for the term |
| ProductSearch.FilterIdempotent | src/components/pos/ProductList.jsx:4-12 | filtering the filtered list again with the same term changes nothing |
| Cart.AddToCart | src/components/pos/POSInterface.jsx:69-79 | afterwards some line carries the product's id |
| Cart.UpdateQuantity | src/components/pos/POSInterface.jsx:87-95 | length and every line's product are unchanged |
| Cart.RemoveFromCart | src/components/pos/POSInterface.jsx:84 | the result is no longer than the cart and no line of it carries the removed id |
| Cart.Amount | src/components/pos/POSInterface.jsx:100 | computes one line's price times quantity |
| Cart.Total | src/components/pos/POSInterface.jsx:99-102 | computes the `reduce`: 0, then each line's amount added from the left |
| Cart.Apply | src/components/pos/POSInterface.jsx:68-96 | computes the cart after one add, remove or set-quantity action |
| Cart.Replay | src/components/pos/POSInterface.jsx:68-96 | computes the cart after a sequence of actions applied in order |
| Cart.AddAbsentAppends | src/components/pos/POSInterface.jsx:78 | an absent id gets exactly one new line of quantity 1 at the end; earlier lines are untouched |
| Cart.AddPresentIncrements | src/components/pos/POSInterface.jsx:70-76 | a present id raises that line's quantity by exactly 1; length and every other line are unchanged |
| Cart.AddKeepsValid | src/components/pos/POSInterface.jsx:68-79 | `addToCart` keeps ids distinct and quantities at least 1 |
| Cart.RemoveFromCartSpec | src/components/pos/POSInterface.jsx:83-85 | no line with the id is left; the result is a subsequence of the cart; the lines kept are exactly those with another id |
| Cart.RemoveAbsent | src/components/pos/POSInterface.jsx:84 | removing an absent id changes nothing |
| Cart.RemoveDeletesOneLine | src/components/pos/POSInterface.jsx:84 | on a valid cart, removing line `j`'s id deletes exactly line `j` |
| Cart.RemoveKeepsValid | src/components/pos/POSInterface.jsx:83-85 | `removeFromCart` keeps the cart invariant |
| Cart.UpdateBelowOneIsNoOp | src/components/pos/POSInterface.jsx:88 | a new quantity below 1 leaves the cart exactly as it was |
| Cart.MinusOnSingleUnitIsNoOp | src/components/pos/Cart.jsx:56 | the minus button on a line of quantity 1 changes nothing |
| Cart.UpdateSetsQuantity | src/components/pos/POSInterface.jsx:89-95 | a quantity of at least 1 is set on the matching line; length, order and every other line are unchanged |
| Cart.UpdateKeepsValid | src/components/pos/POSInterface.jsx:87-96 | `updateQuantity` keeps the cart invariant |
| Cart.TotalAppend | src/components/pos/POSInterface.jsx:98-103 | the total of a concatenation is the sum of the totals |
| Cart.TotalOfOne | src/components/pos/POSInterface.jsx:100 | a single line totals its price times its quantity |
| Cart.TotalExample | src/components/pos/POSInterface.jsx:98-103 | 2 at 10 and 1 at 5.5 total 25.5 |
| Cart.TotalNonNegative | src/components/pos/POSInterface.jsx:98-103 | with non-negative prices and positive quantities the total is not negative |
| Cart.TotalSplit | src/components/pos/POSInterface.jsx:99-102 | the total is the total before line `j`, plus line `j`'s amount, plus the total after it |
| Cart.ReplaceLineTotal | src/components/pos/POSInterface.jsx:99-102 | replacing one line changes the total by the difference of the two amounts |
| Cart.AmountChange | src/components/pos/POSInterface.jsx:100 | two lines of one product differ in amount by the price times the change in quantity |
| Cart.IncrementTotal | src/components/pos/POSInterface.jsx:70-76 | raising one line alone by one unit raises the total by its price |
| Cart.ChangeQuantityTotal | src/components/pos/POSInterface.jsx:99-102 | changing only line `j`'s quantity to `n` changes the total by its price times the change |
| Cart.AddAbsentRaisesTotal | src/components/pos/POSInterface.jsx:68-103 | adding an absent product raises the total by its price |
| Cart.AddPresentRaisesTotal | src/components/pos/POSInterface.jsx:70-103 | adding a present product raises the total by that line's price |
| Cart.RemoveLowersTotal | src/components/pos/POSInterface.jsx:83-103 | removing line `j` lowers the total by that line's amount |
| Cart.UpdateChangesTotal | src/components/pos/POSInterface.jsx:87-103 | setting line `j` to `n >= 1` changes the total by its price times the change in quantity |
| Cart.ApplyKeepsValid | src/components/pos/POSInterface.jsx:68-96 | each cart action keeps the invariant |
| Cart.ReplayKeepsValid | src/components/pos/POSInterface.jsx:68-96 | any sequence of actions from a valid cart keeps ids distinct and quantities at least 1 |
| Cart.ReachableCartsValid | src/components/pos/POSInterface.jsx:68-96 | every cart reachable from the initial empty cart is valid |
| PosInterface.Interface.constructor | src/components/pos/POSInterface.jsx:9-11 | the initial state: empty cart, closed panel, no products |
| PosInterface.Interface.LoadProducts | src/components/pos/POSInterface.jsx:23-60 | on success `products` is replaced wholesale by the normalised list; on any error it is left unchanged; the cart invariant is kept |
| PosInterface.Interface.AddToCart | src/components/pos/POSInterface.jsx:68-81 | the cart becomes the `addToCart` update of the old cart, the invariant is kept, and the cart panel is open |
| PosInterface.Interface.RemoveFromCart | src/components/pos/POSInterface.jsx:83-85 | the cart becomes the `removeFromCart` update of the old cart; the invariant is kept |
| PosInterface.Interface.UpdateQuantity | src/components/pos/POSInterface.jsx:87-96 | below 1 the cart is untouched; the cart becomes the `updateQuantity` update of the old cart; the invariant is kept |
| PosInterface.Interface.CalculateTotal | src/components/pos/POSInterface.jsx:98-103 | the result is the `Cart.Total` of the cart; the empty cart totals 0; a valid cart with non-negative prices totals at least 0 |
| CacheApi.Opened | public/sw.js:6 | `open` keeps storage well formed; the named cache exists afterwards; an existing cache is reused; a new name is added, empty, after the existing names, whose order stays; no entry changes |
| CacheApi.Stored | public/sw.js:31 | `put` keeps the names; a GET request with a non-206 response is stored under its URL; every other entry is unchanged, and a rejected put changes nothing |
| CacheApi.AddedAll | public/sw.js:7-13 | `addAll` stores every fetched response when all URLs come back with status 200-299 other than 206, and otherwise changes nothing; other caches and URLs are unchanged |
| CacheApi.Deleted | public/sw.js:56 | `delete` removes the name and its cache; the other names keep their order (`Keep` of the old names); every other cache stays, with its contents unchanged; well formedness is kept |
| CacheApi.FirstHit | public/sw.js:38 | computes the response of the first listed cache, in order, that holds the URL |
| CacheApi.MatchIn | public/sw.js:38 | computes `caches.match`: nothing for a request other than GET, else the first hit over every cache in creation order |
| CacheApi.FirstHitSpec | public/sw.js:38 | the search fails exactly when no listed cache holds the URL; otherwise it answers from the first cache in order that does |
| CacheApi.MatchSpec | public/sw.js:38 | `match` fails exactly for a request other than GET or a URL no cache holds; otherwise it answers from the first cache, in creation order, that holds the URL |
| CacheApi.CacheStorage.constructor | public/sw.js:6 | storage starts with no caches |
| CacheApi.CacheStorage.Open | public/sw.js:30 | the new state is `Opened` of the old one |
| CacheApi.CacheStorage.Put | public/sw.js:31 | the new state is `Stored` of the old one; the result says whether the put was accepted |
| CacheApi.CacheStorage.AddAll | public/sw.js:7-13 | the new state is `AddedAll` of the old one; the result says whether every fetch came back ok and not partial (206) |
| CacheApi.CacheStorage.Match | public/sw.js:38 | the loop over the caches returns exactly `MatchIn` of the state |
| CacheApi.CacheStorage.Delete | public/sw.js:56 | the new state is `Deleted` of the old one; the result says whether the cache existed |
| ServiceWorker.Installed | public/sw.js:4-18 | install leaves `appV1` existing and well formed; with every shell URL fetched ok, all four are stored; otherwise no entry changes; entries outside `appV1`'s shell never change |
| ServiceWorker.Install | public/sw.js:4-18 | the new state is `Installed` of the old one; the error is logged exactly when some shell fetch failed, and the handler never rejects |
| ServiceWorker.InstallAllOrNothing | public/sw.js:7-15 | either all four shell URLs are in `appV1` or no cache entry changed; all four hold the network's responses when every fetch came back ok and not partial (206) |
| ServiceWorker.PartialShellRejected | public/sw.js:7-15 | a 206 answer for `/` makes `addAll` reject: the error is logged and no cache entry changes |
| ServiceWorker.FetchReply | public/sw.js:21-47 | online: the network response itself is returned, `appV1` exists and holds it for a storable request, and no other entry changes; offline: the storage is unchanged |
| ServiceWorker.FetchOffline | public/sw.js:36-44 | offline, a GET request some cache holds is answered from the first cache in creation order that holds it; otherwise the answer is the offline text response, never a rejection |
| ServiceWorker.MatchSearchesEveryCache | public/sw.js:38 | a URL held only by an older generation is still answered from it |
| ServiceWorker.HandleFetch | public/sw.js:21-47 | the response and the new state are those of `FetchReply` |
| ServiceWorker.DeleteStale | public/sw.js:52-59 | visiting names keeps storage well formed and never touches `appV1`'s entries |
| ServiceWorker.DeleteStaleShape | public/sw.js:54-58 | visiting names deletes, all at once, every visited name other than `appV1`, keeping the order of the rest |
| ServiceWorker.Activated | public/sw.js:50-62 | computes the storage after `activate`: every name of `caches.keys()` visited in order |
| ServiceWorker.ActivatedSpec | public/sw.js:50-62 | after activate only `appV1` remains, if it existed, with its contents unchanged; storage stays well formed |
| ServiceWorker.ActivateIdempotent | public/sw.js:52-58 | a second activate changes nothing |
| ServiceWorker.MatchAfterActivate | public/sw.js:38-62 | after activate, `match` of a GET request answers exactly what `appV1` holds |
| ServiceWorker.DeleteStaleStep | public/sw.js:54-58 | deleting the next visited name when it is stale, and skipping it otherwise, extends `DeleteStale` by that name |
| ServiceWorker.DeleteIfStale | public/sw.js:54-58 | the callback deletes the name exactly when it is not `appV1`; the new state is `Deleted` of the old one, or the old one |
| ServiceWorker.Activate | public/sw.js:50-62 | the loop over `caches.keys()` deleting the stale names leaves exactly `Activated` of the old state |

## Left out

- JSX rendering and presentation are not modelled. This covers `Cart.jsx` apart from the minus button's argument, the `toFixed(2)` formatting and the layout.
- The `searchTerm` state, its input field, and the toggle and close handlers of the cart panel are not modelled; they only assign a value from an event.
- HTTP plumbing is not modelled: axios, base URLs, the authorisation header and request parameters. The request's outcome is a parameter. `src/api/auth.js` and `src/api/config.js` are not part of this model.
- `Catalog.Price`: JavaScript numbers are not modelled. The price is a real, and `parseFloat`'s grammar is the `Parser` parameter (`None` for NaN).
- Log output (`console.log`, `console.error`) is not modelled; only the fact that an error is logged (`ServiceWorker.Install`) is.
- `ProductSearch.Lower`: `toLowerCase` is modelled for ASCII letters only; Unicode case mapping is not modelled.
- `null` and `undefined` are both modelled as `None`. A report cell of any JSON type is modelled as a string.
- The asynchrony of the service worker is not modelled: each handler is one atomic step, and the `put` that is not awaited completes before the response is returned.
- The `push` handler is not modelled: it only passes data to the notification API.
- The Cache API keys entries by URL. Request headers, `Vary` and URL resolution are not modelled, and neither are the fetches of opaque or non-HTTP schemes.
- An offline sync layer (local structured store, connectivity monitor, de-duplicating synchroniser) is not modelled: the code has none.
