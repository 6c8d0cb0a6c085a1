# Chizhik storefront: a verified model of its decision logic

The storefront is a browser front end for a retail catalogue. It asks a backend for a
city's category tree and for pages of products, and it keeps the chosen city and the
tree in `localStorage`. Three page scripts carry the logic modelled here:

- `src/app.js`, the home page. It holds the request loop `api`, the storage wrapper, the
  category-tree helpers (`flattenTree`, `extractMainCats`, `findPromoCategoryId`), the
  discount filter and the `state` object. The handlers `selectCity`, `loadTree`, `loadPromo`,
  `selectCategory`, `loadMore`, `initData` and `init` mutate that state.
- `src/js/category.js`, the category page. It reads the tree only from the cache, finds the
  category by its printed id, pages through its products with a more button, and fills a
  promo section of at most 12 products: the discounted ones when there are any, else all.
- `src/js/product.js`, the product page. It parses `/<city>/product/<id>` paths, cuts the
  breadcrumb title, and runs an image carousel with prev/next buttons, arrow keys and
  thumbnails that show which image is selected.

The Dafny modules follow these pieces:

- `Wrappers` holds Option, Subseq and Min.
- `Text` holds `isUUID`, `escapeHtml` with its decoding, `cleanBase` and `String(id)`.
- `CategoryTree` models the tree helpers.
- `Discounts` models `filterDiscounts`, the shown selection and `discountPct`.
- `Cache` models the `storage` object as a class over a key→record map.
- `Api` models the request loop.
- `Session` models the home page's `state` and handlers.
- `CategoryPage` models the category page.
- `ProductPage` models the product page.

The network, the clock and storage failures are parameters:

- every awaited `api(...)` becomes the result it settles to;
- `Date.now()` becomes `now`;
- an attempt of the loop becomes the response or network error it settles to.

Where the code is a loop or changes state in place, the model is a method or a class. The
loops, the storage wrapper and the home page's handlers are proved equal to functions that
state the same computation on values. The category page and the image carousel state their
new fields directly in their postconditions.

In three places the code does something other than what its own comments say. The model
follows the code:

- The comment at `src/app.js:35` says the attempts are for 202 and 503. A status outside the
  transient set (a 404, say) is retried too: it is thrown at `src/app.js:208` inside the
  loop's `try` and caught by its own `catch` (see Findings).
- The comment at `src/app.js:201` says a 202 means the tree is being built in the background
  and should be polled. A 202 is a 2xx status, so `r.ok` at `src/app.js:197` returns it first
  and it is never polled (see Findings).
- The comment at `src/app.js:213` speaks of network errors. The `catch` it heads waits and
  retries after any error, including the thrown non-transient status.

Other behaviour of the code that the model keeps:

- When the attempts run out the loop rejects with the last caught error itself, or with
  the generic "API error" when no attempt threw. There is no separate "exhausted" kind.
- A 2xx body that is not JSON rejects with the parse error of `r.json()`. That promise is
  returned unawaited, so the rejection escapes the loop without a retry; there is no
  content-type check.
- The sleeps use two formulas, `min(2500, 800+100i)` after a transient status and
  `min(2500, 500+120i)` after a caught error. Each formula is non-decreasing, but the
  sequence of sleeps is not: a 503 and then a network error sleep 900 ms and then 740 ms.
- `filterDiscounts` reads a null `price` as 0 through `Number(null)`. An item with an old
  price and a null price is therefore kept.
- A cache entry with time stamp 0 is a miss, because `!obj?.t` is true for 0.
- A cached or fetched tree is tested for truthiness, not for being an array. A falsy value
  (`0`, `""`, `false`) is treated as no tree, and `loadTree` fetches again. A truthy
  non-array is kept as a tree without categories.
- `isUUID` accepts any 8-4-4-4-12 hex string in either case. It does not check the UUID
  version.

## Model

| member | source | states |
|---|---|---|
| Text.JoinedGroupsAreUUID | src/app.js:57-62 | five hex groups of lengths 8, 4, 4, 4 and 12 joined by dashes pass the UUID check |
| Text.UUIDHasGroups | src/app.js:57-62 | conversely, every string that passes the check is exactly such five hex groups joined by dashes |
| Text.EscapeHtmlIsPerCharacter | src/app.js:45-51 | the chain of five `replaceAll` calls equals replacing each character by its own entity, since `&` goes first and no later pass touches an entity |
| Text.EscapeHtmlHasNoSpecials | src/js/category.js:21-27 | escaped text contains no raw `<`, `>`, `"` or `'` |
| Text.EscapeHtmlRoundTrip | src/js/category.js:21-27 | decoding the five entities of the escaped text gives back the original text |
| Text.EscapeHtmlValueSpec | src/app.js:45-51 | `escapeHtml(null)` and `escapeHtml(undefined)` give the empty string; any other text escapes to markup without special characters that decodes back to it |
| Text.CleanBase | src/app.js:53-55 | the result is a prefix of the input that does not end in `/`, and everything cut off is a slash |
| Text.CleanBaseUnique | src/app.js:53-55 | those three conditions determine the result: exactly the trailing run of slashes is removed |
| Text.CleanBaseIdempotent | src/app.js:53-55 | cleaning a cleaned base changes nothing |
| Text.NatToString | src/js/category.js:264 | the decimal text of a natural number is a non-empty run of digits, one digit long exactly below 10 |
| Text.IntToStringInjective | src/js/category.js:264 | `String(a) === String(b)` exactly when `a == b`, and the printed id is all digits exactly when the id is non-negative |
| CategoryTree.Walk | src/app.js:89-94 | `walk(arr)` leaves `out` as its old contents followed by the pre-order listing of `arr` |
| CategoryTree.FlattenTree | src/app.js:87-97 | `flattenTree` returns the pre-order listing of the roots, or nothing for a value that is not an array |
| CategoryTree.FlattenCountsEveryNode | src/app.js:87-97 | the listing has one entry per node of the forest |
| CategoryTree.FlattenIsPreorder | src/app.js:87-97 | every listed node is immediately followed by the listing of its own subtree |
| CategoryTree.RootsAreListed | src/app.js:87-97 | the roots appear in the listing in their order |
| CategoryTree.ChildrenAreListed | src/app.js:87-97 | a child of any listed node is listed too |
| CategoryTree.ExtractMainCats | src/app.js:99-105 | the loop with the mutated `seen` set computes the main categories of the tree |
| CategoryTree.FilterMainSpec | src/app.js:102 | the depth filter keeps, in order, exactly the nodes of depth 2 that are neither adult nor promo, each as often as it occurs |
| CategoryTree.DedupSpec | src/app.js:103-104 | the `seen` filter keeps a subsequence with distinct ids, exactly the ids not yet seen, each as the first node with that id, ordered by where each id first occurs |
| CategoryTree.FirstMainHeadsMainCats | src/app.js:99-105 | the first main category in pre-order heads `extractMainCats` |
| CategoryTree.MainCatsSpec | src/app.js:99-105 | `extractMainCats` is a subsequence of the flattened tree, made of main categories only, one per id, each the first main node with its id, covering every main id, and ordered by where each id first occurs among the main nodes |
| CategoryTree.FindById | src/app.js:103-104 | `find` by id returns a node with that id at an index before which no node has it, which is the node the dedup keeps, and returns nothing exactly when no node has it |
| CategoryTree.FindByKey | src/js/category.js:264 | `find` by printed id returns a node whose `String(id)` is the key at an index before which no node's printed id is the key, and returns nothing exactly when none has it |
| CategoryTree.FindByKeyOfId | src/js/category.js:264 | looking up the printed form of an id finds the same node as looking up the id |
| CategoryTree.InoutIndex | src/app.js:519 | the index of the first promo (`is_inout`) node in pre-order, or the length when there is none |
| CategoryTree.SlugIndex | src/app.js:522 | the index of the first child with the current-week slug, or the length when there is none |
| CategoryTree.PromoPriority | src/app.js:517-530 | the promo id is the first current-week child of the first promo node, else its first child, else the promo node itself; without a promo node it is the first main category in pre-order, and there is an id exactly when a main category exists |
| CategoryTree.PromoIdIsTreeNode | src/app.js:517-530 | a chosen promo id always names a node of the tree |
| CategoryTree.PromoVariantsAgree | src/js/category.js:236-247 | the category page's promo chain agrees with the home page's whenever a promo node exists; without one it finds nothing, while the home page falls back to the first main category |
| Discounts.FilterDiscountsSpec | src/app.js:111-113 | `filterDiscounts` keeps an order-preserving subsequence holding every discounted item as often as it occurs and nothing else |
| Discounts.FilterDiscountsExamples | src/app.js:111-113 | of prices 100/150, 100/90 and 100/null only the first is kept, while a null price under an old price of 5 is kept |
| Discounts.ProductsToShowSpec | src/app.js:584-587 | the shown list is the discounted items, in order, when any exist, else the first items as received; it is cut to the limit and empty exactly when there are no items or the limit is 0 |
| Discounts.DiscountPctGuards | src/js/category.js:40-45 | `discountPct` is null exactly when an argument is null or undefined, a value is NaN, or the old price is not above the price |
| Discounts.PercentImpliesDiscounted | src/app.js:80-85 | a product with a badge percentage passes `filterDiscounts` |
| Discounts.DiscountedHasPercentUnlessPriceNull | src/app.js:80-85 | a discounted product with a non-null price has a percentage; with a null price it is discounted but has none |
| Discounts.PercentInRange | src/js/category.js:44 | for a non-negative price below the old price the percentage is a number in 0..100 |
| Cache.Storage.constructor | src/app.js:118 | the store starts empty |
| Cache.Storage.GetCity | src/app.js:119-127 | `getCity` returns the saved record only when its id is a UUID and it has a non-empty name |
| Cache.Storage.SetCity | src/app.js:128-130 | `setCity` replaces the city record and nothing else |
| Cache.Storage.GetCached | src/app.js:153-158 | `getCached` returns the payload of the key's entry as the lookup defines it, and changes nothing |
| Cache.Storage.SetCached | src/app.js:146-161 | `setCached` writes `{t: now, d: data}` under the key, or leaves the store as it was when storage refuses the write |
| Cache.SetThenGet | src/app.js:153-161 | a value written at a non-zero time is read back at that time under any TTL of at least 0 |
| Cache.ZeroStampIsAMiss | src/app.js:155 | an entry written at time 0 is never read back |
| Cache.ExpiredIsAMiss | src/app.js:155-156 | an entry older than the TTL, or one with a null payload, is a miss |
| Cache.HitIsStoredPayload | src/app.js:153-158 | a lookup hits exactly when the entry has a truthy time stamp, a payload and an age within the TTL, and then it returns that payload |
| Cache.SetLeavesOtherKeys | src/app.js:159-161 | writing one cache key changes no other key's lookups and not the saved city |
| Cache.SetCityThenGetCity | src/app.js:119-130 | the city written by `setCity` is the one `getCity` returns, exactly when its id is a UUID and its name is non-empty |
| Api.TransientDelay | src/app.js:203 | the sleep after a transient status is at most 2500 ms, and at least 900 ms from attempt 1 |
| Api.ErrorDelay | src/app.js:214 | the sleep after a caught error is at most 2500 ms, and at least 620 ms from attempt 1 |
| Api.Call | src/app.js:184-218 | the `for` loop with `lastErr` produces the result, fetch count and sleeps of the attempt-by-attempt definition |
| Api.DefaultRetriesBound | src/app.js:35-36 | with the default of 20 attempts a call fetches 1 to 20 times and sleeps at most 20 times, 50 seconds in all |
| Api.CallsBounded | src/app.js:188 | there are at most `retries` fetches and none when `retries` is below 1; a sleep follows every fetch except a successful last one |
| Api.StopsAtFirstSuccess | src/app.js:197 | the loop stops at the first 2xx response and returns what its body parses to, after exactly that many fetches |
| Api.ExhaustedFailsWithLastError | src/app.js:209-217 | without a 2xx response every attempt is made, and the call fails with the last caught error, else with "API error" |
| Api.AllPollsIsGenericError | src/app.js:202-217 | if every attempt answers 502, 503 or 504, all attempts are made and the error is "API error" |
| Api.DelaysFollowFormulas | src/app.js:202-215 | each sleep follows a failed attempt, uses that attempt's formula and lies in 620..2500 ms |
| Api.DelayFormulasMonotone | src/app.js:203-214 | each formula alone is non-decreasing in the attempt number |
| Api.DelaysCanDecrease | src/app.js:203-214 | a 503 and then a network error sleep 900 ms and then 740 ms |
| Api.WarmUpThenOk | src/app.js:197-205 | two 503s and then a 200 give its body after three fetches and sleeps of 900 and 1000 ms |
| Api.MalformedSuccessIsNotRetried | src/app.js:197 | a 2xx body that does not parse fails at once with the parse error, after one fetch |
| Api.AcceptedNeverPolls | src/app.js:197-202 | the transient branch only ever sees 502, 503 and 504: a 202 counts as success |
| Api.AcceptedIsReturned | src/app.js:197 | a 202 ends the loop at once with whatever its body parses to |
| Api.NotFoundIsRetried | src/app.js:207-215 | three 404s cost three fetches and sleeps of 620, 740 and 860 ms, then fail with the 404 |
| Api.IntendedPollsAccepted | src/app.js:199-205 | in the corrected loop a 202 is polled and the following 200 is returned |
| Api.IntendedFailsFast | src/app.js:207-208 | in the corrected loop the first non-transient error status ends the call with its HTTP error, after that many fetches |
| Api.IntendedAgreesOtherwise | src/app.js:184-218 | the corrected loop and the loop as written agree whenever no attempt answers 202 or a non-transient error status |
| Session.ChooseCity | src/app.js:683-701 | `init` picks a valid city: the URL's UUID (named as saved when the saved id matches, else "Город"); without a UUID in the URL exactly the saved city, and without one either exactly the default Moscow city |
| Session.DefaultCityIsCity | src/app.js:27-30 | the default city's id is a UUID |
| Session.InitialIsValid | src/app.js:480-489 | the declared state satisfies the state invariant |
| Session.SelectCityKeepsValid | src/app.js:491-515 | `selectCity` keeps the state invariant |
| Session.LoadTreeTruthiness | src/app.js:537-543 | a falsy cached value is treated as a miss and the tree is fetched; a truthy non-array is used as a tree without categories |
| Session.LoadTreeKeepsValid | src/app.js:532-558 | `loadTree` keeps the state invariant |
| Session.ReceiveKeepsValid | src/app.js:580-594 | recording a products response keeps the state invariant |
| Session.LoadPromoKeepsValid | src/app.js:560-595 | `loadPromo` keeps the state invariant |
| Session.SelectCategoryKeepsValid | src/app.js:597-621 | `selectCategory` keeps the state invariant |
| Session.LoadMoreKeepsValid | src/app.js:623-654 | `loadMore` keeps the state invariant |
| Session.SelectCityResets | src/app.js:491-507 | `selectCity` ignores a missing or non-UUID id; otherwise it names the city ("Город" by default) and resets tree, main categories, selection, promo id, page and mode |
| Session.SelectCityThenPromoSkips | src/app.js:560-561 | right after `selectCity` the promo shelf cannot load, because the tree is cleared |
| Session.LoadPromoRequest | src/app.js:560-595 | `loadPromo` asks for its page (1 after a reset) of the kept promo id when truthy, else of the tree heuristic; it selects promo mode, appends exactly when not resetting, and reports a missing promo category exactly when the id is falsy |
| Session.PromoIdIsKept | src/app.js:567 | a truthy promo id survives a change of tree |
| Session.LoadMoreAdvancesOnePage | src/app.js:623-654 | `loadMore` advances the page by exactly one, requests that page of the selected category or the promo shelf, and appends |
| Session.SelectCategoryStartsOver | src/app.js:597-621 | `selectCategory` selects the category, enters category mode and requests page 1 without appending |
| Session.ReceiveShows | src/app.js:580-594 | a successful response is recorded and its discounts-first selection of at most 24 is shown, with the more button hidden exactly when there is no next page; a failure changes nothing |
| Session.OpenedCategoryById | src/app.js:664-672 | the `cat` parameter opens a tree node whose printed id it is, and that id is non-negative; the printed id of a non-negative id opens the first node with that id |
| Session.Session.constructor | src/app.js:480-489 | the state object starts as declared |
| Session.Session.Init | src/app.js:679-701 | `init` sets the chosen city, and stores it unless the saved city was used; afterwards the saved city is the state's city |
| Session.Session.SelectCity | src/app.js:491-515 | the handler performs the `selectCity` step and saves the new city |
| Session.Session.LoadTree | src/app.js:532-558 | the handler performs the `loadTree` step and caches a fetched tree, stamped with the clock after the fetch, when storage accepts it |
| Session.Session.Show | src/app.js:580-594 | recording a response follows the receive step |
| Session.Session.LoadPromo | src/app.js:560-595 | the handler performs the `loadPromo` step |
| Session.Session.SelectCategory | src/app.js:597-621 | the handler performs the `selectCategory` step |
| Session.Session.LoadMore | src/app.js:623-654 | the handler performs the `loadMore` step |
| Session.Session.InitData | src/app.js:659-677 | the handler loads the tree, then opens the URL's category or else the promo shelf; a failed tree load stops it; apart from the unmodelled offers entry, the store changes exactly by the fetched tree's entry when the cache missed and storage accepts it |
| CategoryPage.Enter | src/js/category.js:12-19 | the page opens exactly when both `city` and `cat` parameters are non-empty, and then uses them; otherwise it redirects |
| CategoryPage.NoPromoNodeNoRequest | src/js/category.js:237-247 | without a promo node no promo request is made; a falsy cached value counts as no tree |
| CategoryPage.PromoRequestMatchesHomePage | src/js/category.js:239-249 | with a promo node the section requests page 1 of the same category the home page would choose |
| CategoryPage.PromoShelfContents | src/js/category.js:171-254 | the section shows discounted items when any exist, else the first items, 1 to 12 of them, and is hidden exactly when the response has no items |
| CategoryPage.CategoryPage.constructor | src/js/category.js:51-58 | the page state is the saved city or an unnamed one with the URL's id, no category, no subcategories, page 1 and no more pages |
| CategoryPage.CategoryPage.LoadCategory | src/js/category.js:260-292 | the category is looked up by printed id in a cached tree, its children become the subcategories only when non-empty, page `page` is requested and appended when above 1, `hasMore` follows `data.next`, and then the promo section loads |
| CategoryPage.CategoryPage.LoadPromoProducts | src/js/category.js:231-258 | the promo section is computed from the cached tree and the response without changing page state |
| CategoryPage.CategoryPage.More | src/js/category.js:301-304 | the more button advances the page by exactly one before requesting it; the category, subcategories, `hasMore` and the rendered grid are those of `loadCategory` for the new page, always appended, and a failed request leaves `hasMore` and the advanced page |
| ProductPage.Split | src/js/product.js:23 | splitting on `/` gives at least one piece and no piece contains a slash |
| ProductPage.JoinSplit | src/js/product.js:23 | joining the pieces with `/` gives the path back |
| ProductPage.SplitJoin | src/js/product.js:23 | splitting joined slash-free pieces gives the pieces back |
| ProductPage.NonEmptySpec | src/js/product.js:23 | `.filter(Boolean)` keeps an order-preserving subsequence of exactly the non-empty pieces, each as often as it occurs |
| ProductPage.RouteSpec | src/js/product.js:22-31 | the path is accepted exactly when the first non-empty piece is there, the second is "product" and the third is there; the city and product are then pieces 0 and 2 |
| ProductPage.ProductPathRoutes | src/js/product.js:22-31 | `/<city>/product/<id>`, alone or followed by more of the path, routes to that city and product |
| ProductPage.BreadcrumbTitle | src/js/product.js:185 | a title of at most 50 characters is shown unchanged; a longer one is cut to its first 50 characters with "..." appended, and "..." appears exactly then; "Товар" when there is no title |
| ProductPage.LayoutOf | src/js/product.js:44-60 | zero images give the placeholder, one image gives a single picture without controls, two or more give the carousel |
| ProductPage.NextIndex | src/js/product.js:127-129 | next moves to the following index, wrapping the last one to 0 |
| ProductPage.PrevIndex | src/js/product.js:122-124 | prev stays in range and gives the last index exactly from 0 |
| ProductPage.PrevNextInverse | src/js/product.js:122-130 | prev undoes next and next undoes prev |
| ProductPage.AdvanceWithinTurn | src/js/product.js:127-129 | k presses of next, for k up to n, move k places round the ring |
| ProductPage.FullTurn | src/js/product.js:127-129 | n presses of next come back to the start |
| ProductPage.Gallery.constructor | src/js/product.js:82-106 | the carousel starts on image 0, with thumbnail 0 selected and the others plain |
| ProductPage.Gallery.ShowImage | src/js/product.js:108-120 | `showImage(k)` makes k current, shows k+1 in the counter, and repaints so that exactly thumbnail k is selected |
| ProductPage.Gallery.Next | src/js/product.js:127-130 | the next button shows the next index and repaints so that only its thumbnail is selected |
| ProductPage.Gallery.Prev | src/js/product.js:122-125 | the prev button shows the previous index and repaints so that only its thumbnail is selected |
| ProductPage.Gallery.Key | src/js/product.js:132-138 | ArrowLeft presses prev and ArrowRight presses next, each repainting so that only the new current thumbnail is selected; other keys change neither the index, the counter nor any thumbnail |
| ProductPage.Gallery.Hover | src/js/product.js:94-98 | entering a thumbnail greys its border unless it is the current one |
| ProductPage.Gallery.Leave | src/js/product.js:99-103 | leaving a thumbnail clears its border unless it is the current one |

## Left out

- DOM construction, `innerHTML` templates, CSS, hint texts, the city picker modal and its
  search (`searchCity`, `findAndSelectCity`) and event wiring. These only display the data
  the modelled functions hand over.
- Session.Session.InitData: starts after the offers banner. In the code `initData` first
  awaits `renderOffersBanner` (src/app.js:433-451, called at :660). That function makes its own
  `api("/offers/active")` request with its retries and sleeps, and writes `offers:active` with
  `setCached` (:446). It draws a cached value outside its `try` (:439-441), so a throw in
  `drawOffers` (a non-string `description` at :458, say) rejects `initData` before `loadTree`.
  None of this is modelled. The store clause of `InitData` covers only the tree entry.
- `rub` and the value of `Math.round((1 - p/o) * 100)` beyond its range. Prices are modelled
  as reals without floating-point rounding, and `Infinity` prices are not modelled.
- `fetch`, `AbortController` and the per-attempt timeout. A timed-out attempt is one more
  `NetworkError` outcome. The base URL built with `cleanBase` is not part of the loop model.
- `JSON.parse` and `JSON.stringify`. Stored text is modelled by what it parses to, and a
  response body by what `r.json()` settles to.
- `localStorage` quota errors in `setCached`. They are the `accepted` flag of `SetCached`.
- Cache.Storage.SetCity: always writes. In the code `setCity` (src/app.js:128-130) has no
  `try`, so a quota error there rejects `init` or `selectCity` before anything is loaded. The
  model does not capture that rejection.
- `clearCity` and `del`, which no modelled handler calls.
- `getParams`, `setParam` and `history.pushState`. URL parameters are inputs, and writing
  them is not modelled.
- The background city-name lookup that `init` fires and ignores (src/app.js:691-694).
- The products response's `data` being null. `ProductsPage` is always an object; `items ||
  []` and `!!next` are folded into its fields.
- Concurrency between handlers. Each handler is one atomic step, but in the code handlers
  interleave at their `await`s. `selectCity` starts `initData()` without awaiting it
  (src/app.js:510), so a second city switch while `loadTree` is pending lets the first
  response set `state.tree` to the old city's tree under the new city (src/app.js:551). The
  model does not capture that interleaving.
- `loadCategory` reads the cache twice, once itself and once in `loadPromoProducts`. The
  model gives both reads the same `now`.
- The category page's `state.promoCatId`, which is declared and never used.
- `substring(0, 50)` counts UTF-16 code units. The model counts characters of `seq<char>`.

## Findings

| source | as written | input that shows it | evidently intended | confidence | as-written member | corrected member |
|---|---|---|---|---|---|---|
| src/app.js:197-205 | the `r.ok` test comes before the transient-status test, and `r.ok` holds for every 2xx status | a first attempt answering 202 (tree still being built) with a JSON body | a 202 is polled like 502/503/504, as the comment above API_RETRIES and the comment in `loadTree` say | not executed | Api.AcceptedIsReturned | Api.IntendedPollsAccepted |
| src/app.js:207-215 | an HTTP error is thrown inside the `try`, so its own `catch`, meant for network errors, records it and retries | three attempts that each answer 404 | a non-transient error status rejects at once, after one fetch | not executed | Api.NotFoundIsRetried | Api.IntendedFailsFast |

Both corrections are the function `Api.RunIntended`. `Api.IntendedAgreesOtherwise` proves it
agrees with the loop as written whenever neither defect is triggered.
