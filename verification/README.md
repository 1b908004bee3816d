# bravo: grocery-specials tracker, modelled in Dafny

bravo tracks the weekly specials of two Australian supermarkets, Woolworths
and Coles. A Python scraper collects the products on special from each
retailer. An orchestrator then reconciles them with four database tables:

- `specials`: what is on special now;
- `special_history`: dated on-special intervals;
- `special_intel`: per-product sale-frequency statistics;
- `products`: the catalogue.

A Next.js web app reads those tables. It lets a shopper keep a watchlist
("My List"), see which watched items are on special, shop from them store by
store, browse and search the current specials, and read a sale-frequency
signal for each product.

This project models the decision logic of both halves:

- how each retailer's raw results become normalised products;
- the first-occurrence-wins de-duplication and the paging loops with their stop conditions;
- the discount, special-type, image and category rules;
- the history statistics (`compute_intel`): average gap, frequency class and expected days;
- what the orchestrator writes to each table and in which batches;
- the watchlist store;
- the client-side joins, filters, sorts, strips, paging, recent searches, check marks and swipe gesture of the pages;
- the presentation rules of the utility library and of the sale signal.

## Layout

One module per source file, plus shared modules:

- `common.dfy` (`Common`): options, stores, frequency classes, truthiness.
- `text.dfy` (`Text`): decimal rendering, strip/trim, ASCII case mapping, split/join, string order.
- `records.dfy` (`Records`): the table rows and their keys.
- `discount.dfy` (`Discount`) and `dedup.dfy` (`Dedup`): rules both scrapers share.
- `coles.dfy`, `woolworths.dfy`, `intelligence.dfy`, `pipeline.dfy`: the scraper side.
- `utils.dfy`, `sale_signal.dfy`, `watchlist.dfy` (`MyList`), `joins.dfy`, `home.dfy`, `watching.dfy`,
  `shop.dfy`, `browse.dfy`, `search.dfy`, `swipe.dfy`: the web side.

Modelling conventions:

- **Where state lives.** Component state that a handler updates in place is a `class`: the watchlist
  store, the swipe row, the browse paging controls, the shop check marks, the watching page's expanded
  row, the search page and its recent-search list. Every other operation is a function over values.
- **Loops.** Each source loop is a `method` proved equal to a recursive specification function:
  - the scrape loops;
  - the merge into `seen_ids`;
  - `_compute_avg_gap`;
  - the row-building loops of the orchestrator;
  - the batch split;
  - `saveRecentSearch`.
- **Dates and time.** Dates are day numbers. `today` and the clock are parameters.
- **Database I/O.** Queries appear as the rows they return. Writes appear as the rows and batches the
  orchestrator sends.

Two facts about the code that the model follows:

- `predictionText` answers "Expected back within a week" for 4 to 7 expected days, so 5 days gives that
  text (`Utils.PredictionExamples`).
- The watching page imports a `computeVerdict` whose module is not part of this model. No verdict engine
  and no two-source fusion of search results appears in the code, so neither is modelled.

## Model

| member | source | states |
|---|---|---|
| Common.StoreCode | web/src/lib/utils.ts:18 | the stored code is "woolworths" exactly for Woolworths and "coles" exactly for Coles |
| Common.StrOr | scraper/coles.py:95 | Python `a or b`: a truthy first operand wins, otherwise the second |
| Text.NatToStringRoundTrip | scraper/woolworths.py:83 | reading back the decimal digits of `str(n)` gives `n` |
| Text.IntToStringInjective | web/src/lib/utils.ts:15 | different integers render as different text |
| Text.Strip | scraper/woolworths.py:60 | `strip()` removes exactly the leading and trailing whitespace run; the result starts and ends with non-whitespace |
| Text.Upper | scraper/woolworths.py:60 | `upper()` maps every character and leaves no lower-case letter |
| Text.Title | scraper/woolworths.py:110 | `title()` upper-cases a letter that starts a word and lower-cases one that follows a letter |
| Text.Split | web/src/app/search/page.tsx:129 | `split(" ")` yields at least one part |
| Text.SplitNoSpace | web/src/app/search/page.tsx:129 | no part of `split(" ")` holds a space |
| Text.JoinSplit | web/src/app/search/page.tsx:282 | joining the parts of a split with spaces gives back the string |
| Text.JoinSplitPrefix | web/src/app/search/page.tsx:282 | joining the first n parts of a split gives a prefix of the string |
| Text.StrLessTransitive | web/src/app/browse/page.tsx:38 | the default string order of `sort()` is transitive |
| Text.StrLessTotal | web/src/app/browse/page.tsx:38 | two different strings are always ordered one way or the other |
| Utils.FormatDiscount | web/src/lib/utils.ts:13-16 | empty exactly for an absent or zero percentage, otherwise the number followed by "%" |
| Utils.FormatDiscountInjective | web/src/lib/utils.ts:13-16 | two shown percentages with the same text are equal |
| Utils.StoreDisplayName | web/src/lib/utils.ts:20-22 | "Woolworths" for Woolworths, "Coles" otherwise |
| Utils.FrequencyLabel | web/src/lib/utils.ts:24-29 | each ranked class has its own label; the label is empty exactly for "never" or no class |
| Utils.FrequencyColor | web/src/lib/utils.ts:31-36 | the default colour is used exactly for "never" or no class |
| Utils.FrequencyBg | web/src/lib/utils.ts:38-43 | the default background is used exactly for "never" or no class |
| Utils.FrequencyStylesDistinct | web/src/lib/utils.ts:24-43 | different ranked classes get different labels, colours and backgrounds; unranked ones share the defaults |
| Utils.Predict | web/src/lib/utils.ts:45-55 | which of the six messages applies, by inclusive day thresholds 0, 3, 7, 14, and "hard to predict" when either input is null |
| Utils.PredictionText | web/src/lib/utils.ts:49 | a null input always gives "Hard to predict" |
| Utils.MessageInjective | web/src/lib/utils.ts:49-54 | every message text comes from exactly one branch and day count |
| Utils.PredictionExamples | web/src/lib/utils.ts:50-54 | the texts at 0, 3, 5, 14 and 20 days and for a null input |
| Discount.RoundHalfEvenReal | scraper/coles.py:80 | Python `round`: the nearest integer, a tie going to the even one |
| Discount.RoundNonNegative | scraper/coles.py:80 | rounding a non-negative ratio never gives a negative percentage |
| Discount.DiscountPct | scraper/coles.py:77-80 | a non-zero discount needs a positive was-price and a positive saving, and is then the rounded percentage saved |
| Discount.EmittedDiscount | scraper/coles.py:105 | the emitted discount is present exactly when positive |
| Discount.OriginalPrice | scraper/coles.py:104 | the original price is the was-price, present exactly when positive |
| Discount.DiscountNeedsOriginal | scraper/woolworths.py:66-68 | a product that shows a discount always has an original price |
| Discount.DiscountExamples | scraper/woolworths.py:66-68 | half off is 50%, a 48.5% saving rounds to 48, a missing price gives 0 |
| Dedup.IdsMembers | scraper/coles.py:152 | the id set holds exactly the product ids of the list |
| Dedup.IdsAppend | scraper/coles.py:197-201 | the ids of a concatenation are the union of the ids |
| Dedup.Merge | scraper/coles.py:196-201 | merging only appends: the collected list is a prefix of the result, which grows by at most the batch |
| Dedup.FirstOccurrencesIds | scraper/coles.py:196-201 | the kept products cover every id of the batch not seen before |
| Dedup.MergeIsFirstOccurrences | scraper/coles.py:196-201 | the merge loop equals the reference "keep the first product of each unseen id" |
| Dedup.MergeIds | scraper/coles.py:196-201 | after a merge the seen ids are the old ones together with the batch's |
| Dedup.MergeNothingNew | scraper/coles.py:205 | a batch whose ids were all seen adds nothing |
| Dedup.MergeDistinct | scraper/coles.py:196-201 | a list with distinct ids keeps distinct ids through a merge |
| Dedup.MergeNew | scraper/coles.py:196-201 | the loop's collected list, seen set and new-product count agree with the merge |
| Dedup.MergeAll | scraper/woolworths.py:248-257 | merging category after category only appends |
| Dedup.MergeAllDistinct | scraper/woolworths.py:248-257 | the merged list across categories has distinct ids |
| Dedup.MergeCategories | scraper/coles.py:424-427 | the loop over categories equals the merge and yields distinct ids |
| Coles.ColesSpecialType | scraper/coles.py:82-83 | half price exactly from a 48% discount up, otherwise reduced exactly when a promotion type is set, otherwise none |
| Coles.ColesImage | scraper/coles.py:85-90 | an image exactly when the first image has a non-empty uri, then the CDN prefix followed by the uri |
| Coles.ColesCategory | scraper/coles.py:92-95 | the first heir's sub-category, else its category, and none without an object heir |
| Coles.ParseColesResult | scraper/coles.py:67-110 | a product exactly for a "PRODUCT" result with a now-price; its fields follow the pricing, image, category and URL rules |
| Coles.ColesHalfPriceShowsDiscount | scraper/coles.py:83 | a product marked half price shows a discount of at least 48% |
| Coles.ParseAll | scraper/coles.py:66-110 | every emitted product comes from some result |
| Coles.ParseAllMembers | scraper/coles.py:66-110 | the products are exactly the parses of the results that parse |
| Coles.ParseAllAppend | scraper/coles.py:66-110 | products come out in result order |
| Coles.ExtractProducts | scraper/coles.py:60-112 | the page's products in result order, the stated total, all from Coles |
| Coles.CollectPage | scraper/coles.py:194-206 | a decoded page's new products are merged in, ids stay distinct, and the loop stops at the total or when nothing was new |
| Coles.ScrapeColes | scraper/coles.py:145-206 | the paging loop equals its specification run and yields distinct ids |
| Coles.SpecialsRunExtends | scraper/coles.py:196-201 | products already collected are never dropped |
| Coles.ParsedPageResetsFailures | scraper/coles.py:193 | after a parsed page the earlier failure count no longer matters |
| Coles.ThreeFailuresStop | scraper/coles.py:163-191 | three failed pages in a row end the run with nothing more collected |
| Coles.TwoFailuresThenParsed | scraper/coles.py:163-193 | two failed pages followed by a parsed one do not stop the run |
| Coles.NothingNewStops | scraper/coles.py:205-206 | a parsed page that adds no new id ends the run |
| Woolworths.ExtractCategory | scraper/woolworths.py:97-116 | the first decoded department, else the title-cased SAP category, else the title-cased SAP department, else none |
| Woolworths.SapDepartment | scraper/woolworths.py:60 | the stripped, upper-cased department holds no lower-case letter |
| Woolworths.WoolSpecialType | scraper/woolworths.py:70-71 | half price exactly for the half-price flag, reduced exactly for the on-special flag alone |
| Woolworths.WoolImage | scraper/woolworths.py:73-76 | the medium image when non-empty, otherwise the CDN image of the stock code when there is one |
| Woolworths.WoolProductId | scraper/woolworths.py:83 | the product id is empty exactly without a stock code |
| Woolworths.ParseWoolworths | scraper/woolworths.py:48-94 | rejected exactly for marketplace, vendor or third-party items, a missing price, or a non-grocery department; otherwise the normalised product |
| Woolworths.DepartmentFilter | scraper/woolworths.py:60-62 | an accepted product's department is empty or a grocery department |
| Woolworths.SpecialTypeIgnoresPrices | scraper/woolworths.py:70-71 | the special type does not depend on the prices |
| Woolworths.CategoryAlwaysSet | scraper/woolworths.py:78 | with a named browse category, every accepted product has a category |
| Woolworths.ParseList | scraper/woolworths.py:185-186 | at most one product per raw product, all from Woolworths |
| Woolworths.ParseListMembers | scraper/woolworths.py:185-186 | the products are exactly the parses of the raw products that parse |
| Woolworths.ParseListAppend | scraper/woolworths.py:185-186 | products come out in raw order |
| Woolworths.PageProductsMembers | scraper/woolworths.py:184-186 | a page's products are exactly those of its bundles, all from Woolworths |
| Woolworths.PageProductsAppend | scraper/woolworths.py:184-186 | bundles are read in order, each bundle's products together |
| Woolworths.ParseBundle | scraper/woolworths.py:185-190 | the loop over one bundle equals the parsed list |
| Woolworths.ParsePage | scraper/woolworths.py:184-190 | the loop over the bundles equals the page's products |
| Woolworths.ScrapeCategory | scraper/woolworths.py:164-205 | the paging loop equals its specification run and yields distinct ids |
| Woolworths.CategoryRunExtends | scraper/woolworths.py:187-190 | products already collected are never dropped |
| Woolworths.CategoryResults | scraper/woolworths.py:248-253 | one result per category, in order |
| Woolworths.ScrapeWoolworths | scraper/woolworths.py:234-265 | nothing without a session; otherwise the merge of the category runs, with distinct ids |
| Intelligence.InsertByFirstSeen | scraper/intelligence.py:34 | inserting into a list ordered by first_seen keeps it ordered and one longer |
| Intelligence.InsertByFirstSeenPerm | scraper/intelligence.py:34 | inserting keeps the same rows plus the inserted one |
| Intelligence.SortByFirstSeen | scraper/intelligence.py:34 | the sort is ordered by first_seen and a permutation of the history |
| Intelligence.InsertStable | scraper/intelligence.py:34 | an inserted row goes ahead of the rows starting on its own day |
| Intelligence.SortByFirstSeenStable | scraper/intelligence.py:34 | the sort is stable: rows starting on the same day keep their history order |
| Intelligence.LastSortedIsLatest | scraper/intelligence.py:34-39 | the last sorted row is a history row that starts no earlier than any other, and (the sort being stable) the last such row in history order |
| Intelligence.InsertLast | scraper/intelligence.py:34 | inserting changes the last sorted row only for a row that starts strictly later |
| Intelligence.RoundHalfEven | scraper/intelligence.py:83 | Python `round` of a quotient: nearest integer, ties to even |
| Intelligence.Gaps | scraper/intelligence.py:73-80 | every kept gap exceeds one day, and there are fewer gaps than intervals |
| Intelligence.AvgGapAtLeastTwo | scraper/intelligence.py:78-83 | an average gap, when there is one, is at least two days |
| Intelligence.ComputeAvgGap | scraper/intelligence.py:67-83 | the loop gives none for fewer than two intervals or no qualifying gap, otherwise the rounded mean of the gaps |
| Intelligence.ClassifyFrequency | scraper/intelligence.py:86-95 | "never" exactly for zero total; none exactly without an average; otherwise frequent up to 21 days, sometimes up to 56, rare beyond |
| Intelligence.ClassifyMonotone | scraper/intelligence.py:91-95 | a longer average gap never gives a more frequent class |
| Intelligence.ParseDate | scraper/intelligence.py:98-106 | none for a null or empty value, a date kept as is, text parsed from its first ten characters |
| Intelligence.ParseDateReadsTenChars | scraper/intelligence.py:104 | two texts that share their first ten characters parse alike |
| Intelligence.IntelFromSorted | scraper/intelligence.py:34-64 | total count, average, class, days since, expected days and last discount of a non-empty history |
| Intelligence.ComputeIntel | scraper/intelligence.py:9-64 | the empty-history answer, and for a non-empty history the statistics of the sorted history |
| Intelligence.SingleIntervalHasNoPrediction | scraper/intelligence.py:69-70 | one past interval and no sale now give no average, no class and no expected days |
| Intelligence.LastDiscountFromLatestInterval | scraper/intelligence.py:51-53 | without a current discount the last discount comes from the latest-starting interval |
| SaleSignal.ClassOf | web/src/components/sale-signal.tsx:24 | the class of the intel row, null without one |
| SaleSignal.TotalTimes | web/src/components/sale-signal.tsx:25 | the total count of the intel row, 0 without one |
| SaleSignal.AvgDays | web/src/components/sale-signal.tsx:26 | the average gap of the intel row, null without one |
| SaleSignal.Filled | web/src/components/sale-signal.tsx:29 | three dots exactly for frequent, two for sometimes, one for rare, none otherwise |
| SaleSignal.DotColor | web/src/components/sale-signal.tsx:30-37 | the unfilled colour exactly for an unranked class |
| SaleSignal.LabelColor | web/src/components/sale-signal.tsx:72-80 | the default label colour exactly for an unranked class |
| SaleSignal.Label | web/src/components/sale-signal.tsx:39-47 | "Just spotted" exactly for a new product or an unranked class; one label per ranked class |
| SaleSignal.Detail | web/src/components/sale-signal.tsx:49-54 | the no-history line for a new product, "Every ~Nd" with a truthy average, otherwise nothing |
| SaleSignal.NewHasNoDots | web/src/components/sale-signal.tsx:27-47 | a new product shows no filled dot and "Just spotted" |
| SaleSignal.TiersAgree | web/src/components/sale-signal.tsx:29-37 | dot count, dot colour and label colour agree on which classes look alike |
| SaleSignal.NeverClassShowsDefault | web/src/components/sale-signal.tsx:27-54 | a "never" row shows no dots and "Just spotted", and is not new |
| MyList.Without | web/src/hooks/use-my-list.ts:38-40 | the items kept are exactly those without the key |
| MyList.WithoutAppend | web/src/hooks/use-my-list.ts:38-40 | the kept items stay in list order |
| MyList.Watchlist.constructor | web/src/hooks/use-my-list.ts:25 | the store starts empty |
| MyList.Watchlist.AddItem | web/src/hooks/use-my-list.ts:26-35 | a present key leaves the list alone; a new key is appended; keys stay distinct |
| MyList.Watchlist.RemoveItem | web/src/hooks/use-my-list.ts:36-41 | every item with the key is dropped, the rest kept in order |
| MyList.Watchlist.ToggleItem | web/src/hooks/use-my-list.ts:42-58 | removes a present key, appends an absent one, and flips membership |
| MyList.Watchlist.HasItem | web/src/hooks/use-my-list.ts:59-60 | true exactly when some item has the key |
| MyList.Watchlist.Clear | web/src/hooks/use-my-list.ts:61 | the list becomes empty |
| MyList.WithoutRemovesKey | web/src/hooks/use-my-list.ts:36-41 | after a removal the key is gone and every other key is as before |
| MyList.WithoutAbsent | web/src/hooks/use-my-list.ts:36-41 | removing an absent key changes nothing |
| MyList.ToggleTwiceRestores | web/src/hooks/use-my-list.ts:42-58 | toggling an absent item in and out gives back the list |
| MyList.WithoutPreservesNoDuplicates | web/src/hooks/use-my-list.ts:36-41 | removal keeps the keys distinct |
| MyList.AppendPreservesNoDuplicates | web/src/hooks/use-my-list.ts:26-35 | appending a new key keeps the keys distinct |
| Pipeline.Batches | scraper/main.py:86-87 | the batches concatenate back to the rows; each holds 1 to `size` rows and all but the last are full |
| Pipeline.UpsertSpecials | scraper/main.py:62-87 | no call for no products; one row per product valid from today, sent in batches of 200 |
| Pipeline.UpsertProducts | scraper/main.py:238-259 | no call for no products; one catalogue row per product seen today, in batches of 200 |
| Pipeline.Expired | scraper/main.py:101 | exactly the store's specials whose id is no longer scraped |
| Pipeline.ArchiveExpired | scraper/main.py:92-127 | one history row per expired special, ending today, inserted in batches; its id deleted |
| Pipeline.ArchivedIntervalsEndToday | scraper/main.py:117-118 | every archived row ends today and, with no future valid_from, never starts after it ends |
| Pipeline.FirstWithKey | scraper/main.py:143-147 | the first row with the key, present exactly when some row has it |
| Pipeline.LatestByKeyIsFirst | scraper/main.py:143-147 | the map holds the first row of each key met |
| Pipeline.FirstWithKeyIsNewest | scraper/main.py:139-147 | in newest-first order the first row of a key has the latest last_seen |
| Pipeline.LatestByKeyIsNewest | scraper/main.py:136-147 | the row kept for a key is its row with the latest last_seen |
| Pipeline.BuildLatestByKey | scraper/main.py:143-147 | the loop builds the first-row-per-key map |
| Pipeline.NewHistoryRow | scraper/main.py:158-167 | the new row has the product's key, name and prices and an interval of today only |
| Pipeline.UpdateIds | scraper/main.py:152-156 | at most one id per product |
| Pipeline.UpdateIdsMembers | scraper/main.py:152-156 | the ids are exactly the latest-row ids of the products whose key has history |
| Pipeline.InsertRows | scraper/main.py:152-167 | a new row opens and closes today, only for keys without history |
| Pipeline.InsertRowsMembers | scraper/main.py:152-167 | the rows are exactly the new rows of the products whose key has no history |
| Pipeline.UpdateInsertPartition | scraper/main.py:152-167 | each product lands in exactly one of the two lists: its latest id when its key has history, its new row otherwise |
| Pipeline.RecordCurrentToHistory | scraper/main.py:132-177 | the update ids and new rows of the partition, in batches of 50 and 200 |
| Pipeline.KeySetMembers | scraper/main.py:185 | the key set holds exactly the listed keys |
| Pipeline.UniqueKeys | scraper/main.py:185 | each key of the list once |
| Pipeline.ProductMap | scraper/main.py:186 | the map's keys are exactly the scraped keys |
| Pipeline.ProductMapLastWins | scraper/main.py:186 | a key maps to the last scraped product with that key |
| Pipeline.HistoryFor | scraper/main.py:190-193 | exactly the history rows of the key |
| Pipeline.LatestEntry | scraper/main.py:213 | a row of the history whose last_seen is not exceeded |
| Pipeline.LatestEntryIsFirstMax | scraper/main.py:213 | on ties `max` keeps the first row with the greatest last_seen |
| Pipeline.HistoryKeysHaveRows | scraper/main.py:210 | every history key has at least one row |
| Pipeline.CurrentIntel | scraper/main.py:199-206 | a scraped key's row carries that key and takes name, category and image from the scraped product, and its statistics are `compute_intel` of the key's history, on special, with the product's discount |
| Pipeline.HistoricalIntel | scraper/main.py:213-219 | a history-only key's row carries that key and has no category or image, and its statistics are `compute_intel` of the key's history, not on special, without a discount |
| Pipeline.CurrentRowsShape | scraper/main.py:198-208 | one row per scraped key, in order, all marked on special now |
| Pipeline.HistoricalRowsShape | scraper/main.py:210-220 | one row per unprocessed history key, in order, none on special now |
| Pipeline.IntelPlanKeys | scraper/main.py:198-220 | the rows' keys are the scraped keys followed by the history keys not scraped |
| Pipeline.IntelPlanFlags | scraper/main.py:201-214 | a row is marked on special now exactly when its key was scraped |
| Pipeline.IntelPlanStats | scraper/main.py:195-220 | every written row's statistics are `compute_intel` of its key's history, on special with the scraped discount exactly when the key was scraped |
| Pipeline.IntelPlanCoversKeys | scraper/main.py:181-220 | one row per key in the union of scraped and history keys, no key twice |
| Pipeline.HistoricalRowNamedByLatest | scraper/main.py:213-219 | a history-only row is named after the first history entry with the greatest last_seen, and has no category or image |
| Pipeline.EmitCurrent | scraper/main.py:198-208 | the loop over scraped keys yields their rows and marks them processed |
| Pipeline.EmitHistorical | scraper/main.py:210-220 | the loop over history keys skips processed keys and yields the rest |
| Pipeline.RecomputeIntel | scraper/main.py:181-226 | the plan's rows, sent in batches of 200 |
| Pipeline.NeverOnSpecial | scraper/main.py:273-278 | exactly the catalogue rows with no intel row |
| Pipeline.NeverIntel | scraper/main.py:285-292 | class "never", zero count, not on special, no statistics and no last discount |
| Pipeline.NeverOnSpecialIntel | scraper/main.py:264-298 | a "never" row per catalogue product without intel, in batches |
| Joins.FindSpecial | web/src/app/page.tsx:31-33 | none exactly when no row has the key, otherwise the first row with it |
| Joins.FindIntel | web/src/app/page.tsx:34-36 | none exactly when no row has the key, otherwise the first row with it |
| Joins.FindSpecialIsFirst | web/src/app/watching/page.tsx:30-31 | the lookup returns the row at the first index with the key |
| Joins.ItemKey | web/src/app/shop/page.tsx:42 | the row key is the store code, a colon and the product id |
| Joins.ItemKeyInjective | web/src/app/watching/page.tsx:85 | different items never share a row key |
| Joins.Enrich | web/src/app/page.tsx:30-38 | one entry per watched item, in order, carrying its lookups |
| Joins.EnrichedOnSpecial | web/src/app/watching/page.tsx:36-40 | an entry has a special exactly when a specials row has its key |
| Joins.OnSpecial | web/src/app/page.tsx:40 | exactly the entries with a special |
| Joins.NotOnSpecial | web/src/app/watching/page.tsx:43 | exactly the entries without a special |
| Joins.SpecialPartition | web/src/app/watching/page.tsx:42-43 | the two filters split the list: lengths add up and contents union to it |
| Joins.OnSpecialAppend | web/src/app/page.tsx:40 | the filter keeps the order |
| Joins.NotOnSpecialAppend | web/src/app/page.tsx:41-42 | the filter keeps the order |
| Home.ExpectedOr999 | web/src/app/page.tsx:44-45 | the expected days until the next special, 999 without intel or without an expectation |
| Home.OnSpecialList | web/src/app/page.tsx:40 | exactly the enriched items with a special |
| Home.WaitingList | web/src/app/page.tsx:41-47 | exactly the enriched items without a special, ordered by expected days |
| Home.InsertByExpected | web/src/app/page.tsx:43-47 | inserting keeps the order by expected days and the same entries plus one |
| Home.SortByExpected | web/src/app/page.tsx:41-47 | the waiting list is ordered by expected days (999 without intel) and a permutation |
| Home.HomeListsPartition | web/src/app/page.tsx:40-47 | the on-special and waiting lists split the watchlist |
| Home.HeaderText | web/src/app/page.tsx:77-81 | nothing for an empty list, "N on special today" or "Nothing on special right now" otherwise |
| Home.BannerText | web/src/app/page.tsx:105-110 | the banner appears exactly for a non-empty list with something on special |
| Home.BannerPlural | web/src/app/page.tsx:110 | the plural is used exactly when more than one item is on special |
| Watching.OnSale | web/src/app/watching/page.tsx:42 | exactly the enriched items with a special |
| Watching.Waiting | web/src/app/watching/page.tsx:43 | exactly the enriched items without a special |
| Watching.WatchingPartition | web/src/app/watching/page.tsx:36-43 | every watched item is on sale or waiting, never both |
| Watching.ExpandAfterClick | web/src/app/watching/page.tsx:92 | a click collapses the expanded row, otherwise expands only the clicked one |
| Watching.ClickTwice | web/src/app/watching/page.tsx:92 | two clicks on a collapsed row leave nothing expanded |
| Watching.WatchingView.Click | web/src/app/watching/page.tsx:85-92 | the expanded row after a click |
| Watching.WatchingView.IsExpanded | web/src/app/watching/page.tsx:86 | true exactly for the expanded row |
| Watching.TrackedText | web/src/app/watching/page.tsx:61 | "1 item tracked", else "N items tracked" |
| Shop.ShopItems | web/src/app/shop/page.tsx:34-44 | the watched items with a special, each with its first special and its check mark |
| Shop.ShopItemsAppend | web/src/app/shop/page.tsx:34-44 | the rows keep watchlist order |
| Shop.Section | web/src/app/shop/page.tsx:46-47 | exactly the rows of the store |
| Shop.SectionAppend | web/src/app/shop/page.tsx:46-47 | a section keeps the rows' order |
| Shop.SectionsSplit | web/src/app/shop/page.tsx:46-47 | the two store sections hold all the rows between them |
| Shop.SavingsSnoc | web/src/app/shop/page.tsx:59-64 | each row adds original minus current price when its original price is truthy, nothing otherwise |
| Shop.SavingsSplit | web/src/app/shop/page.tsx:59-64 | the total saving is the sum of the two sections' savings |
| Shop.SavingsNonNegative | web/src/app/shop/page.tsx:59-64 | no special above its original price means no negative saving |
| Shop.Toggled | web/src/app/shop/page.tsx:50-55 | the key flips membership, every other key stays |
| Shop.ToggleTwice | web/src/app/shop/page.tsx:49-57 | toggling twice gives the set back |
| Shop.ToggleOtherItems | web/src/app/shop/page.tsx:49-57 | toggling one item never changes another item's mark |
| Shop.ShopView.ToggleCheck | web/src/app/shop/page.tsx:49-57 | the check set after the toggle |
| Shop.CheckedCount | web/src/app/shop/page.tsx:93 | at most the section size, and equal exactly when every row is checked |
| Browse.PassesIndependent | web/src/app/browse/page.tsx:57-60 | the store and category filters act independently, and with both off everything passes |
| Browse.Filtered | web/src/app/browse/page.tsx:55-63 | exactly the specials of the chosen store and category |
| Browse.FilteredNoFilter | web/src/app/browse/page.tsx:58-59 | with "all" and "All" every special shows, in order |
| Browse.FilteredAppend | web/src/app/browse/page.tsx:57 | the filter keeps the order |
| Browse.DistinctCategories | web/src/app/browse/page.tsx:34-37 | each non-empty category once |
| Browse.InsertString | web/src/app/browse/page.tsx:38 | inserting keeps the list strictly ascending |
| Browse.SortStrings | web/src/app/browse/page.tsx:38 | the sorted list is strictly ascending with the same strings |
| Browse.Categories | web/src/app/browse/page.tsx:34-38 | the chips are strictly ascending and are exactly the non-empty categories |
| Browse.StrictlySortedDistinct | web/src/app/browse/page.tsx:34-38 | no chip appears twice |
| Browse.Take | web/src/app/browse/page.tsx:65 | `slice(0, n)` is the prefix of length min(n, length) |
| Browse.TopDeals | web/src/app/browse/page.tsx:65 | the first eight filtered specials, or all when fewer |
| Browse.RareOnly | web/src/app/browse/page.tsx:66-67 | exactly the filtered specials classed rare |
| Browse.RareOnlyAppend | web/src/app/browse/page.tsx:66-67 | the rare strip keeps the filtered order |
| Browse.RareDeals | web/src/app/browse/page.tsx:66-68 | the first eight rare specials, all from the filtered list |
| Browse.VisibleSpecials | web/src/app/browse/page.tsx:69 | the first `visibleCount` filtered specials |
| Browse.HasMore | web/src/app/browse/page.tsx:70 | "Show more" appears exactly while part of the list is hidden |
| Browse.BrowseControls.constructor | web/src/app/browse/page.tsx:16-19 | one page, all stores, all categories |
| Browse.BrowseControls.ShowMore | web/src/app/browse/page.tsx:210 | one more page, filters unchanged |
| Browse.BrowseControls.SetStore | web/src/app/browse/page.tsx:45-47 | a changed store goes back to the first page |
| Browse.BrowseControls.SetCategory | web/src/app/browse/page.tsx:45-47 | a changed category goes back to the first page |
| Search.Without | web/src/app/search/page.tsx:44 | exactly the earlier entries other than the query |
| Search.WithoutAppend | web/src/app/search/page.tsx:44 | the earlier entries keep their order |
| Search.SaveRecent | web/src/app/search/page.tsx:43-50 | the query first, then the earlier entries without it in order, at most five |
| Search.SaveRecentIdempotent | web/src/app/search/page.tsx:43-50 | saving the same query again changes nothing |
| Search.SaveRecentDistinct | web/src/app/search/page.tsx:43-50 | a list without repeats stays without repeats |
| Search.RecentSearches.Save | web/src/app/search/page.tsx:43-50 | the loop stores the saved list |
| Search.RecentSearches.Clear | web/src/app/search/page.tsx:52-54 | the list becomes empty |
| Text.JsLength | web/src/app/search/page.tsx:86 | JavaScript `length` in UTF-16 code units: between one and two per character, one each when all lie in the Basic Multilingual Plane |
| Search.AstralCharIsSearched | web/src/app/search/page.tsx:86 | a lone character outside the Basic Multilingual Plane is two code units long and is searched |
| Search.PlanSearch | web/src/app/search/page.tsx:86-103 | no query exactly for a trimmed text under two UTF-16 code units; otherwise a substring pattern of the trimmed text, the store and 60 rows |
| Search.CategoryTerm | web/src/app/search/page.tsx:129-130 | the first word of the category query: no space, a prefix, the whole query when it has no space |
| Search.TrendingQuery | web/src/app/search/page.tsx:282 | the first two words of the name, a prefix of it |
| Search.SearchPage.DoSearch | web/src/app/search/page.tsx:84-113 | a query under two trimmed UTF-16 code units clears and issues nothing; otherwise the answer is shown and the trimmed query saved |
| Search.SearchPage.ClearQuery | web/src/app/search/page.tsx:173-177 | empty query, no results, not searched |
| Search.SearchPage.CategoryTap | web/src/app/search/page.tsx:128-132 | the box holds the category's first word |
| Search.SearchPage.RecentTap | web/src/app/search/page.tsx:134-135 | the box holds the recent query |
| Search.SearchPage.TrendingTap | web/src/app/search/page.tsx:282 | the box holds the trending query |
| Swipe.MoveOffset | web/src/components/swipe-to-remove.tsx:24-32 | the offset stays in [0, 100]: a leftward drag follows the finger, a rightward drag closes an open row |
| Swipe.Release | web/src/components/swipe-to-remove.tsx:34-42 | open at 100 exactly from the 80 threshold, shut otherwise |
| Swipe.ReleaseSettles | web/src/components/swipe-to-remove.tsx:34-42 | releasing twice is releasing once |
| Swipe.DragThenRelease | web/src/components/swipe-to-remove.tsx:24-42 | a drag from shut opens the row exactly when it reaches the threshold |
| Swipe.SwipeToRemove.TouchStart | web/src/components/swipe-to-remove.tsx:19-22 | both positions become the touch position |
| Swipe.SwipeToRemove.TouchMove | web/src/components/swipe-to-remove.tsx:24-32 | the offset after the move, still in [0, 100] |
| Swipe.SwipeToRemove.TouchEnd | web/src/components/swipe-to-remove.tsx:34-42 | the released state |
| Swipe.SwipeToRemove.Remove | web/src/components/swipe-to-remove.tsx:44-48 | shut, and one more removal |

## Left out

- Network and browser I/O: curl and Playwright fetches, stealth delays, session breaks, bot-challenge
  back-off sleeps, `__NEXT_DATA__` and JSON parsing, and logging. Fetched pages enter the model as already
  decoded outcomes, one per page.
- Coles catalogue browsing (`_scrape_catalogue_category`, the response capture and the DOM fallback): only
  its first-occurrence merge across categories is modelled (`Dedup.MergeCategories`).
- Woolworths `pages_since_break` counter: it only chooses between two kinds of delay.
- `run_specials`, `run_catalogue`, `run_intel` and the command line: orchestration of the modelled steps
  and database reads.
- Database semantics: upserts, deletes, `ilike` matching and ordering are not modelled. The rows and
  batches sent are modelled. `DoSearch` takes the database answer as a parameter.
- `scraper/items.py`, `scraper/logger.py`, `scraper/stealth.py` and `scraper/seed_demo.py` are not part of
  this model.
- `computeVerdict` and the Supabase client module are not part of this model.
- Floating point: prices, savings and ratios are exact reals, so float rounding error in `round()` and in
  the savings sum is not captured.
- Unicode: `strip`, `upper`, `title` and `trim` are modelled on ASCII and the listed whitespace characters.
  String lengths are counted in UTF-16 code units (`Text.JsLength`) only for the search guard.
  JavaScript's `sort()` compares UTF-16 code units, while the model compares Dafny characters.
- Dates are day numbers. ISO date parsing is an abstract parameter of `Intelligence.ParseDate`.
- `compute_intel` on rows whose dates do not parse: `Intelligence.ComputeIntel` takes parsed day numbers,
  so the `None` paths of `last_seen` are covered only by `Intelligence.ParseDate`.
- Python set and dict iteration order in `_recompute_intel`: modelled as first-occurrence order of the
  scraped products and of the history.
- A JSON `null` in a Coles `name` or Woolworths `DisplayName`/`Name`: names are modelled as strings, with
  an absent name read as empty.
- Persistence of the watchlist (zustand `persist`) and of recent searches (`localStorage`), JSON
  (de)serialisation of them, and the `addedAt` clock, which is a parameter.
- The 300 ms search debounce, loading flags, input focus, routing, the trending and intel queries of the
  search page, and all rendering, styling and `formatPrice`.
- Home.SortByExpected: the stability of JavaScript's sort (equal keys keep watchlist order) is not stated
  as a contract; sortedness and permutation are.
- Swipe.SwipeToRemove.TouchMove: React reads `revealed` and `offset` from the last render; the model reads
  the current fields, as if every state update had been applied before the next event.
