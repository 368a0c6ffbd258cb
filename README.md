# list-ninja in Dafny

list-ninja is a grocery price-comparison web app. A signed-in user does three things:

- keeps a grocery list;
- picks up to four delivery platforms (Blinkit, Zepto, Swiggy Instamart) and a six-digit Indian pincode;
- starts a comparison.

A comparison stores the selection and clears the user's previous results. It then calls the `scrape-blinkit` edge function once per selected platform. For each grocery item, that function asks an extraction service for the products on the platform's search page and stores them as rows of `scraped_results`. The results page reads the rows ordered by price, groups them by grocery item keeping three per item, and marks the first of each group "Best Price" and every unavailable one "Out of Stock".

This project models that pipeline and the grocery-list editor, and proves their rules.

**Modules.** One module per source file, plus `Common`, which holds `Option`, the id synonyms and `Platform`:

- `PlatformToggle` (`platform_toggle.dfy`): the `togglePlatform` updater, as pure functions over the selected list.
- `ComparePrices` (`compare_prices.dfy`):
  - `validatePincode`, as an anchored character-class matcher equivalent to `^[1-9][0-9]{5}$`;
  - `handleComparePrices`, as methods whose `ensures` equate their output with the specification functions `Run` and `TryBlock`.

  The store and `functions.invoke` are a `Backend` value holding what each request answers. The handler returns an `Outcome`, the list of requests it made (`Call`), and which branch each invocation took (`ScrapeReport`).
- `ScrapeFunction` (`scrape_function.dfy`): the edge function's request handler.
  - It covers the bearer token (`split('Bearer ')[1]`), the user and platform guards, the per-platform search URL, and the item loop with its try/catch/continue.
  - It maps each product to a row and accumulates `results`.
  - The user lookup, the platform lookup and `encodeURIComponent` are function parameters.
  - What the extraction service and the row insert answer for each item is an `ItemOracle`.
  - The methods `HandleRequest`, `ScrapeItems` and `ScrapeItem` are proved equal to the functions `Handle`, `Contributions`/`LoopCalls` and `Contribution`/`ItemCalls`.
- `ComparisonResults` (`comparison_results.dfy`):
  - the grouping `reduce`, as a loop over a `map` accumulator with its keys kept in first-seen order;
  - the same `reduce` as the code runs it on a plain `{}`, where an item named after an inherited property misbehaves;
  - the two display predicates.
- `GroceryList` (`grocery_list.dfy`):
  - the ECMAScript `trim`;
  - the list transforms (append, `filter`, `map`) as functions;
  - the component, as the class `GroceryListEditor`, whose fields are the component's state and which has one method per handler.

## Model

| member | source | states |
|---|---|---|
| PlatformToggle.Without | src/hooks/usePlatformSelection.ts:35 | The filter drops every occurrence of the id. It keeps every other id with its multiplicity, and shortens the list when the id was present. |
| PlatformToggle.WithoutAbsent | src/hooks/usePlatformSelection.ts:35 | Filtering out an id that is not in the list returns the list unchanged. |
| PlatformToggle.WithoutAppend | src/hooks/usePlatformSelection.ts:35 | The filter distributes over concatenation, so the kept ids stay in their original order. |
| PlatformToggle.WithoutMembers | src/hooks/usePlatformSelection.ts:35 | An id is kept exactly when it was in the list and differs from the removed id. |
| PlatformToggle.Toggle | src/hooks/usePlatformSelection.ts:32-43 | The "up to 4" error is reported exactly when the id is new and four or more are selected, and then the list is unchanged. A present id is removed, every occurrence of it. A new id under the cap is appended at the end. |
| PlatformToggle.ToggleRemovesInPlace | src/hooks/usePlatformSelection.ts:34-36 | Toggling a selected id gives the ids before it followed by the ids after it, with no error reported. |
| PlatformToggle.ToggleKeepsCap | src/hooks/usePlatformSelection.ts:37-41 | From at most four selected ids, a toggle leaves at most four. |
| PlatformToggle.ToggleKeepsNoDuplicates | src/hooks/usePlatformSelection.ts:34-41 | From a duplicate-free selection, a toggle leaves a duplicate-free selection. |
| PlatformToggle.ToggleTwice | src/hooks/usePlatformSelection.ts:32-43 | From at most four ids, toggling the same id twice restores the set of selected ids. When the id was absent, it restores the exact list, whether or not the cap stopped the first toggle. |
| ComparePrices.MatchesAnchored | src/pages/PlatformSelection.tsx:23 | An anchored pattern of character ranges matches exactly the strings of its length whose every character lies in the range at the same position. |
| ComparePrices.ValidatePincode | src/pages/PlatformSelection.tsx:22-25 | Accepts exactly the strings of length 6 whose first character is '1'..'9' and whose other five are '0'..'9'. |
| ComparePrices.PincodeExamples | src/pages/PlatformSelection.tsx:22-25 | "400001" is accepted. "04000", "004001", "abcdef" and "4000011" are rejected. |
| ComparePrices.FindPlatform | src/pages/PlatformSelection.tsx:85 | `find` returns a platform of the list with the requested id, or nothing exactly when no platform has that id. |
| ComparePrices.KnownIds | src/pages/PlatformSelection.tsx:84-86 | The ids the loop does not skip are at most as many as the selected ids. Which ids they are is fixed by `KnownIdsCount`, and their order by `KnownIdsAppend`. |
| ComparePrices.KnownIdsAppend | src/pages/PlatformSelection.tsx:84-86 | Skipping unknown ids distributes over concatenation, so the ids that are kept stay in selection order. |
| ComparePrices.KnownIdsCount | src/pages/PlatformSelection.tsx:84-86 | Each id known to `platforms` is kept as often as it is selected; an unknown id is never kept. |
| ComparePrices.KnownIdsAllKnown | src/pages/PlatformSelection.tsx:84-86 | When every selected id is known, no id is skipped. |
| ComparePrices.Invocations | src/pages/PlatformSelection.tsx:91-100 | One invocation per id, in order. Each carries the same pincode, the full list of item names, and its own platform id. |
| ComparePrices.Reports | src/pages/PlatformSelection.tsx:104-113 | One report per invoked id, in order, naming that id. |
| ComparePrices.ScrapeSelectedPlatforms | src/pages/PlatformSelection.tsx:84-114 | The loop invokes exactly the known selected ids, in selection order, and records which branch each answer took. An error answer only moves on to the next id. |
| ComparePrices.RunTryBlock | src/pages/PlatformSelection.tsx:38-120 | The `try` block as a method equals `TryBlock`. A missing user or a failed insert, fetch or delete ends the run with the requests made so far. No item names stops after the fetch. Otherwise the run deletes, then invokes, then navigates. |
| ComparePrices.HandleComparePrices | src/pages/PlatformSelection.tsx:27-124 | The whole handler equals `Run`: the pincode check, then the platform-count check, then the `try` block. |
| ComparePrices.RejectionsCallNothing | src/pages/PlatformSelection.tsx:28-36 | An invalid pincode is rejected first, whatever the selection. An empty selection is rejected next. Neither rejection makes any request. |
| ComparePrices.EmptyListStopsBeforeDelete | src/pages/PlatformSelection.tsx:48-81 | With no item names, the run stops after the selection insert. It neither deletes previous results nor invokes scraping. |
| ComparePrices.DeleteBeforeScrape | src/pages/PlatformSelection.tsx:76-84 | Every invocation comes after the delete of the user's previous results. |
| ComparePrices.InvocationsFollowSelection | src/pages/PlatformSelection.tsx:84-100 | A navigating run first makes the four setup requests: the user lookup, the selection insert, the item fetch and the delete. Then it makes exactly one request per known selected id, in selection order, with the same pincode and item names. |
| ComparePrices.ScrapeErrorsDoNotStopRun | src/pages/PlatformSelection.tsx:104-117 | Whatever each invocation answers, the run makes the same requests and ends the same way, so one platform's error does not stop the others or the navigation. |
| ComparePrices.NavigatesExactlyWhenSetupSucceeds | src/pages/PlatformSelection.tsx:42-120 | The run navigates exactly when every guard passes: a valid pincode, a non-empty selection, a user, no insert error, no fetch error, item names, and no delete error. |
| ScrapeFunction.IndexOf | supabase/functions/scrape-blinkit/index.ts:38 | The first occurrence of the separator at or after the start position, or none when there is no occurrence there. |
| ScrapeFunction.SecondPiece | supabase/functions/scrape-blinkit/index.ts:38 | Element 1 of `split('Bearer ')`: the text after the first separator up to the second one or the end, or nothing when there is no separator. |
| ScrapeFunction.BearerToken | supabase/functions/scrape-blinkit/index.ts:38-44 | A token is used only when it is non-empty. An empty piece counts as no header, as it is falsy. |
| ScrapeFunction.BearerTokenOfWellFormedHeader | supabase/functions/scrape-blinkit/index.ts:38 | `Bearer <t>`, with `t` non-empty and free of the separator, yields exactly `t`. |
| ScrapeFunction.NoTokenWithoutSeparator | supabase/functions/scrape-blinkit/index.ts:38-44 | A missing header, or one without `Bearer `, yields no token. |
| ScrapeFunction.SearchPrefix | supabase/functions/scrape-blinkit/index.ts:81-91 | The search prefix of Blinkit, Zepto and Swiggy Instamart; nothing for any other platform name. |
| ScrapeFunction.SearchUrl | supabase/functions/scrape-blinkit/index.ts:81-91 | `Some(prefix + encode(item))` with the Blinkit, Zepto and Swiggy Instamart prefixes; `None` for any other name. |
| ScrapeFunction.SearchUrlPerPlatform | supabase/functions/scrape-blinkit/index.ts:82-87 | Blinkit's URL is `https://blinkit.com/s/?q=` followed by the encoded item, Zepto's `https://www.zepto.in/search?q=`, and Swiggy Instamart's `https://www.swiggy.com/search?query=`. |
| ScrapeFunction.SearchUrlShape | supabase/functions/scrape-blinkit/index.ts:81-91 | Exactly Blinkit, Zepto and Swiggy Instamart have a URL. Every URL is an `https` address that ends in the encoded item. |
| ScrapeFunction.SearchUrlDeterminesItem | supabase/functions/scrape-blinkit/index.ts:81-87 | On one platform, two items get the same URL only when they encode alike. |
| ScrapeFunction.SearchUrlDistinct | supabase/functions/scrape-blinkit/index.ts:81-87 | Two different platforms never get the same URL for an item. |
| ScrapeFunction.RowsFor | supabase/functions/scrape-blinkit/index.ts:118-126 | One row per product, in order. Each row carries the user, the requested platform and the current item. Name, price and unit size are copied, and `isAvailable` is the negation of `outOfStock`. |
| ScrapeFunction.ScrapeItem | supabase/functions/scrape-blinkit/index.ts:81-140 | One loop body equals `Contribution` and `ItemCalls`. With no URL, nothing is requested. An exception or an unsuccessful answer adds nothing. An array answer is inserted and appended. |
| ScrapeFunction.ScrapeItems | supabase/functions/scrape-blinkit/index.ts:78-141 | The item loop equals `Contributions` and `LoopCalls`: the per-item results concatenated in item order, and the per-item requests in item order. |
| ScrapeFunction.HandleRequest | supabase/functions/scrape-blinkit/index.ts:38-153 | The handler equals `Handle`. No token and no user each give 401. No platform gives 500 "Platform not found". Otherwise it answers success with the loop's results. |
| ScrapeFunction.AuthFailuresAnswer401 | supabase/functions/scrape-blinkit/index.ts:38-52 | A missing token or a failed user lookup gives 401. At most the user lookup is requested, with no platform lookup and no extraction. |
| ScrapeFunction.UnknownPlatformAnswers500 | supabase/functions/scrape-blinkit/index.ts:63-65 | An unknown platform gives the 500 response "Platform not found", with no extraction and no insert. |
| ScrapeFunction.FailedItemIsSkipped | supabase/functions/scrape-blinkit/index.ts:136-140 | An item whose extraction throws, is unsuccessful, or has non-array data adds nothing; the other items contribute as before. |
| ScrapeFunction.AllItemsFailing | supabase/functions/scrape-blinkit/index.ts:108-140 | When every item throws, is unsuccessful or has data that is not an array, the loop collects no results. |
| ScrapeFunction.AllItemsFailingAnswersSuccess | supabase/functions/scrape-blinkit/index.ts:143-146 | An authenticated request for a known platform whose every item fails still answers 200, success with empty data. |
| ScrapeFunction.UnsupportedPlatformSkipsAll | supabase/functions/scrape-blinkit/index.ts:88-91 | An unsupported platform name skips every item: no results, no extraction, no insert. |
| ScrapeFunction.InsertErrorsOnlyLogged | supabase/functions/scrape-blinkit/index.ts:128-134 | What the inserts report changes neither the results nor the requests. |
| ScrapeFunction.LoopCallsWellFormed | supabase/functions/scrape-blinkit/index.ts:96-126 | Every extraction uses the search URL of a requested item and the cookie `location=<pincode>`. Every inserted row belongs to the user, the requested platform and a requested item. |
| ComparisonResults.Matching | src/pages/ComparisonResults.tsx:61-67 | The rows of one item: exactly the input rows with that grocery item. |
| ComparisonResults.MatchingAppend | src/pages/ComparisonResults.tsx:61-67 | Selecting one item's rows distributes over concatenation, so the rows of an item stay in input order. |
| ComparisonResults.FirstThree | src/pages/ComparisonResults.tsx:64-67 | The first three rows, or all of them when there are fewer; its size and prefix property are stated by `GroupShape`. |
| ComparisonResults.DistinctItems | src/pages/ComparisonResults.tsx:61-63 | The keys are exactly the grocery items that occur, each once, and there are none for no rows. |
| ComparisonResults.DistinctItemsFirstSeen | src/pages/ComparisonResults.tsx:61-63 | The keys come in first-seen order: the first row of an earlier key precedes the first row of a later key. |
| ComparisonResults.GroupByItem | src/pages/ComparisonResults.tsx:59-69 | The `reduce` yields the distinct items as keys, in first-seen order. Each key holds the first three rows of its item. |
| ComparisonResults.GroupResults | src/pages/ComparisonResults.tsx:59-69 | One group per distinct item, in first-seen order, each with the first three rows of its item. The "No results" state shows exactly when the data is null or empty. |
| ComparisonResults.PushAsWritten | src/pages/ComparisonResults.tsx:60-68 | The callback on a plain `{}`: an inherited method name throws, `__proto__` leaves the accumulator as it is, any other key is pushed by `PushOwn`. |
| ComparisonResults.PushOwn | src/pages/ComparisonResults.tsx:61-67 | On an own key: create the empty array if the key is missing, then push the row while fewer than three are held. |
| ComparisonResults.ReduceAsWritten | src/pages/ComparisonResults.tsx:59-69 | The callback applied row after row from `{}`, stopping at the first throw. |
| ComparisonResults.CardCountAsWritten | src/pages/ComparisonResults.tsx:59-75 | The number of cards shown: none when the reduce throws, as the catch skips `setGroupedResults`; otherwise one per own key. |
| ComparisonResults.PrototypeKeyHidesResults | src/pages/ComparisonResults.tsx:59-75 | With the reduce as written over `{}`, a row whose item is `toString` makes the page show no card at all, and a row whose item is `__proto__` is dropped. Grouping by item gives both of them cards. |
| ComparisonResults.ReduceAsWrittenAwayFromPrototypeKeys | src/pages/ComparisonResults.tsx:59-69 | When no item is the name of a property `{}` inherits, the reduce as written never throws and groups by item: keys in first-seen order, each with the first three rows of its item. |
| ComparisonResults.GroupShape | src/pages/ComparisonResults.tsx:64-67 | A group holds min(3, n) rows, all of its item. They are the first rows of that item, in input order. |
| ComparisonResults.UnavailableRowsAreGrouped | src/pages/ComparisonResults.tsx:59-69 | Every row, available or not, is among the rows of its item, and its item is a key. |
| ComparisonResults.AvailabilityKeepsKeys | src/pages/ComparisonResults.tsx:59-69 | Changing one row's availability changes none of the keys. |
| ComparisonResults.AvailabilityDoesNotFilter | src/pages/ComparisonResults.tsx:59-69 | Changing one row's availability switches its "Out of Stock" label. For every item, the same rows, by id, stay at the same positions. |
| ComparisonResults.ShowsOutOfStock | src/pages/ComparisonResults.tsx:150 | The label is shown exactly for a row that is not available. |
| ComparisonResults.ShowsBestPrice | src/pages/ComparisonResults.tsx:132 | The badge is shown exactly on the result at index 0 of a card. |
| ComparisonResults.ShowsNoResults | src/pages/ComparisonResults.tsx:112 | The "No results found" state is shown exactly when there is no group. |
| ComparisonResults.MatchingSorted | src/pages/ComparisonResults.tsx:49 | Rows in ascending price keep ascending price within an item. |
| ComparisonResults.GroupHoldsCheapest | src/pages/ComparisonResults.tsx:132-136 | For price-ascending input, each group is ascending and costs no more than the rows it drops. The result with the "Best Price" badge costs no more than any row of its item. |
| GroceryList.IsJsWhitespace | src/components/GroceryList.tsx:20 | The ECMAScript WhiteSpace and LineTerminator characters, which `trim` removes. |
| GroceryList.TrimStart | src/components/GroceryList.tsx:20 | Drops exactly the leading ECMAScript white space. |
| GroceryList.TrimEnd | src/components/GroceryList.tsx:20 | Drops exactly the trailing ECMAScript white space. |
| GroceryList.Trim | src/components/GroceryList.tsx:20 | The trim has no white space at either end, and is empty exactly when the string is all white space. |
| GroceryList.TrimIsSlice | src/components/GroceryList.tsx:20 | The trim is a slice of the string: only white space lies before it and after it. |
| GroceryList.TrimIdempotent | src/components/GroceryList.tsx:23 | Trimming a trimmed name changes nothing. |
| GroceryList.AddItem | src/components/GroceryList.tsx:19-27 | `[...items, newItem]` with the fresh id and the trimmed name when the trim is not empty, else the items unchanged; its properties are stated by `AddItemSpec`, `AddItemKeepsNames` and `AddItemKeepsUniqueIds`. |
| GroceryList.RemoveId | src/components/GroceryList.tsx:40 | The filter keeps exactly the items whose id differs. |
| GroceryList.RemoveIdAppend | src/components/GroceryList.tsx:40 | The delete distributes over concatenation, so the other items keep their order. |
| GroceryList.RemoveAbsentId | src/components/GroceryList.tsx:40 | Deleting an id no item has changes nothing. |
| GroceryList.RenameId | src/components/GroceryList.tsx:51-55 | Same length and ids. Exactly the items with the id get the new name. |
| GroceryList.AddItemSpec | src/components/GroceryList.tsx:19-31 | A blank name adds nothing. Otherwise exactly one item is appended, with the fresh id and the trimmed name, after the unchanged items. |
| GroceryList.AddItemKeepsNames | src/components/GroceryList.tsx:20-24 | An add keeps every stored name trimmed and non-empty. |
| GroceryList.AddItemKeepsUniqueIds | src/components/GroceryList.tsx:22 | An add with an id no item has keeps the ids unique. |
| GroceryList.RemoveIdKeepsNames | src/components/GroceryList.tsx:40 | A delete keeps every stored name trimmed and non-empty. |
| GroceryList.RemoveIdKeepsUniqueIds | src/components/GroceryList.tsx:40 | A delete keeps the ids unique. |
| GroceryList.RenameIdKeepsInvariant | src/components/GroceryList.tsx:50-55 | A rename to a trimmed, non-empty name keeps every stored name valid and the ids unique. |
| GroceryList.GroceryListEditor.constructor | src/components/GroceryList.tsx:14-17 | Starts with no items, empty boxes and nothing being edited. |
| GroceryList.GroceryListEditor.SetInputValue | src/components/GroceryList.tsx:81 | The add box takes the typed text; nothing else changes, and the names stay valid. |
| GroceryList.GroceryListEditor.SetEditValue | src/components/GroceryList.tsx:105 | The edit box takes the typed text; nothing else changes, and the names stay valid. |
| GroceryList.GroceryListEditor.HandleAddItem | src/components/GroceryList.tsx:19-31 | The items become `AddItem` of the old items. The add box is cleared exactly when the trimmed name is non-blank. The names stay valid. |
| GroceryList.GroceryListEditor.HandleKeyPress | src/components/GroceryList.tsx:33-37 | Enter adds the text of the add box; any other key changes nothing. |
| GroceryList.GroceryListEditor.HandleDelete | src/components/GroceryList.tsx:39-42 | The items become the old ones without that id; nothing else changes. |
| GroceryList.GroceryListEditor.StartEdit | src/components/GroceryList.tsx:44-47 | The edited id and the edit box become the item's id and name. The items and the add box do not change, and the names stay valid. |
| GroceryList.GroceryListEditor.HandleEdit | src/components/GroceryList.tsx:49-59 | A non-blank edit renames the items with the id to the trimmed text and closes the editor. A blank edit changes nothing and keeps the editor open. |
| GroceryList.GroceryListEditor.RenameEdit | src/components/GroceryList.tsx:50-56 | The non-blank branch: it renames and closes the editor, and the names stay valid. |
| GroceryList.GroceryListEditor.HandleSave | src/components/GroceryList.tsx:61-68 | Saving succeeds exactly when the list is non-empty, and changes nothing. |

## Left out

- `fetchPlatforms` (src/hooks/usePlatformSelection.ts) is a store read. The platform list is a parameter of the handler.
- Toasts, `console.log` and the `loading`/`scraping` flags are left out. They only affect what is displayed. The per-invocation toasts of the loop are replaced by the `ScrapeReport` branches.
- Supabase store reads and writes and `functions.invoke` are replaced by the `Backend` value: what each request answers is an input. `invoke` has one answer per selected entry and is consulted only for the entries that are invoked.
- `encodeURIComponent` throws a `URIError` on a lone surrogate. That call is outside the inner `try`, so the edge function would answer 500. Dafny strings cannot hold a lone surrogate, so `encode` is total and this path is not modelled.
- `encodeURIComponent`, the user lookup (`auth.getUser`) and the platform lookup (`platforms` by id, `.single()`) are function parameters of the edge-function model. Their internals are not modelled.
- The extraction call (`app.extract`), its prompt text and its Zod schema are reduced to three possible answers per item: it throws, it is unsuccessful, or it succeeds with data that is or is not an array. The products are taken as the schema describes them.
- `req.json()` parsing, the CORS preflight (`OPTIONS`), the response headers and body encoding, and `Deno.env` are left out. The request is given already parsed.
- The code inserts the selection row before it fetches and checks the grocery items, so an empty list stops the run after that insert; the model keeps this order.
- The code puts no cap on the number of extracted products stored per item; "top 3" appears only in the prompt text, so the model has no cap either.
- The code does not strip price strings or map field aliases, and the model does neither. The products arrive with the schema's fields.
- The results page's own `getUser`, the ordered store query and its error path are left out. Rows arrive already price-ordered, and that order is a precondition (`SortedByPrice`) where it matters.
- The results page's grouping is modelled twice. `PushAsWritten`/`ReduceAsWritten` follow the code on a plain `{}`, including the inherited property names (see "## Findings"). `GroupByItem` groups by item with a `map`, as the code evidently intends, and the rest of the model uses it.
- `Object.entries` lists integer-like keys in ascending numeric order before the other keys. The model uses first-seen order for every key.
- The `createdAt`/`updatedAt` dates of a grocery item are not modelled, and neither is `formatPrice`, which formats a floating-point number. Prices are `real`.
- `crypto.randomUUID` is replaced by the fresh id passed to `HandleAddItem`/`HandleKeyPress`. Uniqueness of ids is proved to be preserved when that id is fresh.
- React's asynchronous state updates are modelled as immediate field updates.
- PlatformToggle.ToggleTwice: it restores the set of ids only from a selection of at most four ids. A present id removed from a longer list would not be re-added under the cap.

## Findings

| source | as written | input that shows it | evidently intended | confidence | as-written member | corrected member |
|---|---|---|---|---|---|---|
| src/pages/ComparisonResults.tsx:59-75 | The `reduce` groups into a plain `{}`, which inherits the properties of `Object.prototype`. For an item named like an inherited method, `acc[key]` is a function: no array is created and `push` throws, so the `catch` skips `setGroupedResults` and the page shows "No results found". An item named `__proto__` is silently dropped. | Rows for `milk` and `toString`: the page shows no card. One row for `__proto__`: no card. | One card per distinct grocery item, whatever its name (an object without a prototype, or a `Map`). | not executed; follows from the ECMAScript semantics of property lookup | ComparisonResults.PrototypeKeyHidesResults | ComparisonResults.GroupByItem |
