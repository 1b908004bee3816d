/** The reconciliation planning of the scraper's orchestrator: which rows go to
    the specials, history, intel and catalogue tables after a scrape. Database
    reads are input snapshots, writes are the returned row lists, and every
    write is split into batches. `today` is a day number. */
module Pipeline {
  import opened Common
  import opened Records
  import opened Intelligence

  /** Rows per upsert or insert call. */
  const BATCH := 200
  /** Ids per `last_seen` update call. */
  const UPDATE_BATCH := 50

  // ---------------------------------------------------------------------------
  // Batching: `for i in range(0, len(rows), BATCH): rows[i:i + BATCH]`
  // ---------------------------------------------------------------------------

  function Flatten<T>(bs: seq<seq<T>>): seq<T> {
    if bs == [] then [] else Flatten(bs[..|bs| - 1]) + bs[|bs| - 1]
  }

  /** Splits `rows` into consecutive slices of `size`; only the last may be
      shorter, none is empty, and together they are `rows` again. */
  method Batches<T>(rows: seq<T>, size: nat) returns (batches: seq<seq<T>>)
    requires size > 0
    ensures Flatten(batches) == rows
    ensures forall k :: 0 <= k < |batches| ==> 0 < |batches[k]| <= size
    ensures forall k :: 0 <= k < |batches| - 1 ==> |batches[k]| == size
  {
    batches := [];
    var i := 0;
    while i < |rows|
      invariant 0 <= i <= |rows|
      invariant Flatten(batches) == rows[..i]
      invariant forall k :: 0 <= k < |batches| ==> 0 < |batches[k]| <= size
      invariant forall k :: 0 <= k < |batches| ==> |batches[k]| == size || (k == |batches| - 1 && i == |rows|)
      decreases |rows| - i
    {
      var j := if i + size <= |rows| then i + size else |rows|;
      assert rows[..j] == rows[..i] + rows[i..j];
      assert (batches + [rows[i..j]])[..|batches|] == batches;
      batches := batches + [rows[i..j]];
      i := j;
    }
    assert rows[..|rows|] == rows;
  }

  // ---------------------------------------------------------------------------
  // _upsert_specials and _upsert_products
  // ---------------------------------------------------------------------------

  /** A specials row carries the product's fields and is valid from today
      with no end. */
  predicate IsSpecialRowOf(s: Special, p: Product, today: int) {
    SpecialKey(s) == ProductKey(p) && s.name == p.name && s.brand == p.brand
    && s.category == p.category && s.currentPrice == p.currentPrice
    && s.originalPrice == p.originalPrice && s.discountPct == p.discountPct
    && s.imageUrl == p.imageUrl && s.productUrl == p.productUrl
    && s.specialType == p.specialType
    && s.validFrom == Some(today) && s.validTo.None?
  }

  /** `_upsert_specials`: no call at all for no products; otherwise one row per
      product, in order, sent in batches. */
  method UpsertSpecials(products: seq<Product>, today: int) returns (rows: seq<Special>, batches: seq<seq<Special>>)
    ensures products == [] ==> batches == []
    ensures |rows| == |products|
    ensures forall i :: 0 <= i < |rows| ==> IsSpecialRowOf(rows[i], products[i], today)
    ensures Flatten(batches) == rows
    ensures forall k :: 0 <= k < |batches| ==> 0 < |batches[k]| <= BATCH
  {
    rows, batches := [], [];
    if products == [] {
      return;
    }
    var i := 0;
    while i < |products|
      invariant 0 <= i <= |products|
      invariant |rows| == i
      invariant forall k :: 0 <= k < i ==> IsSpecialRowOf(rows[k], products[k], today)
    {
      var p := products[i];
      rows := rows + [Special(p.store, p.productId, p.name, p.brand, p.category, p.currentPrice,
                              p.originalPrice, p.discountPct, p.imageUrl, p.productUrl,
                              p.specialType, Some(today), None)];
      i := i + 1;
    }
    batches := Batches(rows, BATCH);
  }

  /** A catalogue row carries the product's fields, its current price as the
      regular price, and today as last seen. */
  predicate IsCatalogueRowOf(c: CatalogueRow, p: Product, today: int) {
    CatalogueKey(c) == ProductKey(p) && c.name == p.name && c.brand == p.brand
    && c.category == p.category && c.regularPrice == p.currentPrice
    && c.imageUrl == p.imageUrl && c.productUrl == p.productUrl && c.lastSeen == today
  }

  /** `_upsert_products`. */
  method UpsertProducts(products: seq<Product>, today: int) returns (rows: seq<CatalogueRow>, batches: seq<seq<CatalogueRow>>)
    ensures products == [] ==> batches == []
    ensures |rows| == |products|
    ensures forall i :: 0 <= i < |rows| ==> IsCatalogueRowOf(rows[i], products[i], today)
    ensures Flatten(batches) == rows
    ensures forall k :: 0 <= k < |batches| ==> 0 < |batches[k]| <= BATCH
  {
    rows, batches := [], [];
    if products == [] {
      return;
    }
    var i := 0;
    while i < |products|
      invariant 0 <= i <= |products|
      invariant |rows| == i
      invariant forall k :: 0 <= k < i ==> IsCatalogueRowOf(rows[k], products[k], today)
    {
      var p := products[i];
      rows := rows + [CatalogueRow(p.store, p.productId, p.name, p.brand, p.category,
                                   p.currentPrice, p.imageUrl, p.productUrl, today)];
      i := i + 1;
    }
    batches := Batches(rows, BATCH);
  }

  // ---------------------------------------------------------------------------
  // _archive_expired
  // ---------------------------------------------------------------------------

  /** The specials of `store` whose product id is no longer scraped, in order. */
  function Expired(existing: seq<Special>, store: Store, currentIds: set<string>): (r: seq<Special>)
    ensures forall s :: s in r <==> s in existing && s.store == store && s.productId !in currentIds
  {
    if existing == [] then []
    else
      var s := existing[|existing| - 1];
      Expired(existing[..|existing| - 1], store, currentIds)
        + (if s.store == store && s.productId !in currentIds then [s] else [])
  }

  /** The history row an expired special becomes: its interval ran from its
      `valid_from` (today when absent) to today. */
  predicate IsArchiveRowOf(h: HistoryRow, s: Special, today: int) {
    HistoryKey(h) == SpecialKey(s) && h.name == s.name
    && h.currentPrice == Some(s.currentPrice) && h.originalPrice == s.originalPrice
    && h.discountPct == s.discountPct
    && h.firstSeen == s.validFrom.GetOr(today) && h.lastSeen == today
  }

  /** `_archive_expired`: history rows to insert (in batches) and product ids
      to delete, one of each per expired special; nothing when none expired. */
  method ArchiveExpired(existing: seq<Special>, store: Store, currentIds: set<string>, today: int)
    returns (historyRows: seq<HistoryRow>, deleteIds: seq<string>, batches: seq<seq<HistoryRow>>)
    ensures var ex := Expired(existing, store, currentIds);
      |historyRows| == |ex| && |deleteIds| == |ex|
      && (forall i :: 0 <= i < |ex| ==> IsArchiveRowOf(historyRows[i], ex[i], today))
      && (forall i :: 0 <= i < |ex| ==> deleteIds[i] == ex[i].productId)
    ensures Flatten(batches) == historyRows
    ensures forall k :: 0 <= k < |batches| ==> 0 < |batches[k]| <= BATCH
  {
    var expired := Expired(existing, store, currentIds);
    historyRows, deleteIds, batches := [], [], [];
    if expired == [] {
      return;
    }
    var i := 0;
    while i < |expired|
      invariant 0 <= i <= |expired|
      invariant |historyRows| == i && |deleteIds| == i
      invariant forall k :: 0 <= k < i ==> IsArchiveRowOf(historyRows[k], expired[k], today)
      invariant forall k :: 0 <= k < i ==> deleteIds[k] == expired[k].productId
    {
      var s := expired[i];
      historyRows := historyRows + [HistoryRow(s.store, s.productId, s.name, Some(s.currentPrice),
                                               s.originalPrice, s.discountPct,
                                               s.validFrom.GetOr(today), today)];
      deleteIds := deleteIds + [s.productId];
      i := i + 1;
    }
    batches := Batches(historyRows, BATCH);
  }

  /** Every row `ArchiveExpired` writes is an interval that ends today and
      starts no later than it ends, when no special's `valid_from` is in the
      future. */
  lemma ArchivedIntervalsEndToday(existing: seq<Special>, store: Store, currentIds: set<string>, today: int,
                                  historyRows: seq<HistoryRow>)
    requires forall s :: s in existing && s.validFrom.Some? ==> s.validFrom.value <= today
    requires var ex := Expired(existing, store, currentIds);
      |historyRows| == |ex| && forall i :: 0 <= i < |ex| ==> IsArchiveRowOf(historyRows[i], ex[i], today)
    ensures forall h :: h in historyRows ==> h.lastSeen == today && h.firstSeen <= h.lastSeen
  {
    var ex := Expired(existing, store, currentIds);
    forall h | h in historyRows ensures h.lastSeen == today && h.firstSeen <= h.lastSeen {
      var i :| 0 <= i < |historyRows| && historyRows[i] == h;
      assert IsArchiveRowOf(h, ex[i], today) && ex[i] in ex;
    }
  }

  // ---------------------------------------------------------------------------
  // _record_current_to_history
  // ---------------------------------------------------------------------------

  function StoredKey(h: StoredHistory): Key {
    HistoryKey(h.row)
  }

  /** The first row of `hist` with key `k`, scanning from the front. */
  function FirstWithKey(hist: seq<StoredHistory>, k: Key): (r: Option<StoredHistory>)
    ensures r.Some? <==> exists i :: 0 <= i < |hist| && StoredKey(hist[i]) == k
    ensures r.Some? ==> r.value in hist && StoredKey(r.value) == k
  {
    if hist == [] then None
    else if StoredKey(hist[0]) == k then Some(hist[0])
    else
      var r := FirstWithKey(hist[1..], k);
      assert forall i :: 0 <= i < |hist| - 1 ==> hist[1..][i] == hist[i + 1];
      r
  }

  /** `latest_by_key` after the loop over `hist`: a key is entered the first
      time it is met and never replaced. */
  function LatestByKey(hist: seq<StoredHistory>): map<Key, StoredHistory> {
    if hist == [] then map[]
    else
      var m := LatestByKey(hist[..|hist| - 1]);
      var h := hist[|hist| - 1];
      if StoredKey(h) in m then m else m[StoredKey(h) := h]
  }

  lemma {:induction false} FirstWithKeySnoc(hist: seq<StoredHistory>, h: StoredHistory, k: Key)
    ensures FirstWithKey(hist + [h], k)
         == if FirstWithKey(hist, k).Some? then FirstWithKey(hist, k)
            else if StoredKey(h) == k then Some(h) else None
  {
    if hist != [] {
      assert (hist + [h])[1..] == hist[1..] + [h];
      FirstWithKeySnoc(hist[1..], h, k);
    }
  }

  /** The map holds, for each key met, the first row with that key. */
  lemma {:induction false} LatestByKeyIsFirst(hist: seq<StoredHistory>)
    ensures forall k :: k in LatestByKey(hist) <==> FirstWithKey(hist, k).Some?
    ensures forall k :: k in LatestByKey(hist) ==> LatestByKey(hist)[k] == FirstWithKey(hist, k).value
  {
    if hist != [] {
      var init := hist[..|hist| - 1];
      var h := hist[|hist| - 1];
      assert hist == init + [h];
      LatestByKeyIsFirst(init);
      forall k ensures FirstWithKey(hist, k) == FirstWithKey(init + [h], k) {
      }
      forall k {
        FirstWithKeySnoc(init, h, k);
      }
    }
  }

  /** Rows ordered by `last_seen`, newest first (the query's order). */
  predicate NewestFirst(hist: seq<StoredHistory>) {
    forall i, j :: 0 <= i < j < |hist| ==> hist[i].row.lastSeen >= hist[j].row.lastSeen
  }

  lemma {:induction false} FirstWithKeyIsNewest(hist: seq<StoredHistory>, k: Key)
    requires NewestFirst(hist) && FirstWithKey(hist, k).Some?
    ensures forall h :: h in hist && StoredKey(h) == k ==> h.row.lastSeen <= FirstWithKey(hist, k).value.row.lastSeen
  {
    if StoredKey(hist[0]) != k {
      assert NewestFirst(hist[1..]);
      FirstWithKeyIsNewest(hist[1..], k);
      forall h | h in hist && StoredKey(h) == k ensures h in hist[1..] {
        var i :| 0 <= i < |hist| && hist[i] == h;
        assert hist[1..][i - 1] == h;
      }
    } else {
      forall h | h in hist && StoredKey(h) == k ensures h.row.lastSeen <= hist[0].row.lastSeen {
        var i :| 0 <= i < |hist| && hist[i] == h;
      }
    }
  }

  /** With the history newest first, the row kept for a key is one of the
      key's rows with the latest `last_seen`. */
  lemma LatestByKeyIsNewest(hist: seq<StoredHistory>, k: Key)
    requires NewestFirst(hist) && k in LatestByKey(hist)
    ensures LatestByKey(hist)[k] in hist && StoredKey(LatestByKey(hist)[k]) == k
    ensures forall h :: h in hist && StoredKey(h) == k ==> h.row.lastSeen <= LatestByKey(hist)[k].row.lastSeen
  {
    LatestByKeyIsFirst(hist);
    FirstWithKeyIsNewest(hist, k);
  }

  /** The loop that fills `latest_by_key`. */
  method BuildLatestByKey(hist: seq<StoredHistory>) returns (latest: map<Key, StoredHistory>)
    ensures latest == LatestByKey(hist)
  {
    latest := map[];
    var i := 0;
    while i < |hist|
      invariant 0 <= i <= |hist|
      invariant latest == LatestByKey(hist[..i])
    {
      assert hist[..i + 1][..i] == hist[..i];
      var key := StoredKey(hist[i]);
      if key !in latest {
        latest := latest[key := hist[i]];
      }
      i := i + 1;
    }
    assert hist[..|hist|] == hist;
  }

  /** The row inserted for a product first seen today: its key, name and
      prices, with an interval that opens and closes today. */
  function NewHistoryRow(p: Product, today: int): (h: HistoryRow)
    ensures HistoryKey(h) == ProductKey(p) && h.name == p.name
    ensures h.currentPrice == Some(p.currentPrice) && h.originalPrice == p.originalPrice
    ensures h.discountPct == p.discountPct
    ensures h.firstSeen == today && h.lastSeen == today
  {
    HistoryRow(p.store, p.productId, p.name, Some(p.currentPrice), p.originalPrice, p.discountPct, today, today)
  }

  /** The ids whose `last_seen` is moved to today: one per product whose key
      already has history, in product order. */
  function UpdateIds(products: seq<Product>, latest: map<Key, StoredHistory>): (ids: seq<nat>)
    ensures |ids| <= |products|
  {
    if products == [] then []
    else
      var p := products[|products| - 1];
      UpdateIds(products[..|products| - 1], latest)
        + (if ProductKey(p) in latest then [latest[ProductKey(p)].id] else [])
  }

  /** The new history rows: one per product whose key has no history, opening
      an interval today. */
  function InsertRows(products: seq<Product>, latest: map<Key, StoredHistory>, today: int): (rows: seq<HistoryRow>)
    ensures |rows| <= |products|
    ensures forall h :: h in rows ==> h.firstSeen == today && h.lastSeen == today && HistoryKey(h) !in latest
  {
    if products == [] then []
    else
      var p := products[|products| - 1];
      InsertRows(products[..|products| - 1], latest, today)
        + (if ProductKey(p) in latest then [] else [NewHistoryRow(p, today)])
  }

  /** The updated ids are exactly the ids of the latest rows of the products
      that already have history. */
  lemma {:induction false} UpdateIdsMembers(products: seq<Product>, latest: map<Key, StoredHistory>)
    ensures forall id :: id in UpdateIds(products, latest) <==>
      exists p :: p in products && ProductKey(p) in latest && latest[ProductKey(p)].id == id
  {
    if products != [] {
      var init, e := products[..|products| - 1], products[|products| - 1];
      UpdateIdsMembers(init, latest);
      assert products == init + [e];
      assert forall p :: p in products <==> p in init || p == e;
    }
  }

  /** The inserted rows are exactly the new rows of the products without
      history. */
  lemma {:induction false} InsertRowsMembers(products: seq<Product>, latest: map<Key, StoredHistory>, today: int)
    ensures forall h :: h in InsertRows(products, latest, today) <==>
      exists p :: p in products && ProductKey(p) !in latest && h == NewHistoryRow(p, today)
  {
    if products != [] {
      var init, e := products[..|products| - 1], products[|products| - 1];
      InsertRowsMembers(init, latest, today);
      assert products == init + [e];
      assert forall p :: p in products <==> p in init || p == e;
    }
  }

  /** Each product lands in exactly one of the two lists: the update list
      when its key has history, the insert list otherwise. */
  lemma {:induction false} UpdateInsertPartition(products: seq<Product>, latest: map<Key, StoredHistory>, today: int)
    ensures |UpdateIds(products, latest)| + |InsertRows(products, latest, today)| == |products|
    ensures forall p :: p in products && ProductKey(p) in latest ==>
      latest[ProductKey(p)].id in UpdateIds(products, latest)
    ensures forall p :: p in products && ProductKey(p) !in latest ==>
      NewHistoryRow(p, today) in InsertRows(products, latest, today)
  {
    if products != [] {
      UpdateInsertPartition(products[..|products| - 1], latest, today);
    }
    UpdateIdsMembers(products, latest);
    InsertRowsMembers(products, latest, today);
  }

  /** `_record_current_to_history`: the ids to update (in batches of 50) and
      the rows to insert (in batches of 200). */
  method RecordCurrentToHistory(products: seq<Product>, history: seq<StoredHistory>, today: int)
    returns (toUpdate: seq<nat>, toInsert: seq<HistoryRow>,
             updateBatches: seq<seq<nat>>, insertBatches: seq<seq<HistoryRow>>)
    ensures toUpdate == UpdateIds(products, LatestByKey(history))
    ensures toInsert == InsertRows(products, LatestByKey(history), today)
    ensures Flatten(updateBatches) == toUpdate
    ensures forall k :: 0 <= k < |updateBatches| ==> 0 < |updateBatches[k]| <= UPDATE_BATCH
    ensures Flatten(insertBatches) == toInsert
    ensures forall k :: 0 <= k < |insertBatches| ==> 0 < |insertBatches[k]| <= BATCH
  {
    var latest := BuildLatestByKey(history);
    toUpdate, toInsert := [], [];
    var i := 0;
    while i < |products|
      invariant 0 <= i <= |products|
      invariant toUpdate == UpdateIds(products[..i], latest)
      invariant toInsert == InsertRows(products[..i], latest, today)
    {
      assert products[..i + 1][..i] == products[..i];
      var p := products[i];
      var key := ProductKey(p);
      if key in latest {
        toUpdate := toUpdate + [latest[key].id];
      } else {
        toInsert := toInsert + [NewHistoryRow(p, today)];
      }
      i := i + 1;
    }
    assert products[..|products|] == products;
    updateBatches := Batches(toUpdate, UPDATE_BATCH);
    insertBatches := Batches(toInsert, BATCH);
  }

  // ---------------------------------------------------------------------------
  // _recompute_intel
  // ---------------------------------------------------------------------------

  /** No key occurs twice. */
  predicate DistinctKeys(ks: seq<Key>) {
    forall i, j :: 0 <= i < j < |ks| ==> ks[i] != ks[j]
  }

  /** The set of keys of a list. */
  function KeySet(ks: seq<Key>): set<Key> {
    if ks == [] then {} else KeySet(ks[..|ks| - 1]) + {ks[|ks| - 1]}
  }

  lemma {:induction false} KeySetMembers(ks: seq<Key>)
    ensures forall k :: k in KeySet(ks) <==> k in ks
  {
    if ks != [] {
      KeySetMembers(ks[..|ks| - 1]);
      assert ks == ks[..|ks| - 1] + [ks[|ks| - 1]];
    }
  }

  /** The keys of a list in first-occurrence order, each once. */
  function UniqueKeys(keys: seq<Key>): (r: seq<Key>)
    ensures forall k :: k in r <==> k in keys
    ensures DistinctKeys(r)
  {
    if keys == [] then []
    else
      var u := UniqueKeys(keys[..|keys| - 1]);
      var k := keys[|keys| - 1];
      if k in u then u else u + [k]
  }

  function ProductKeys(products: seq<Product>): (ks: seq<Key>)
    ensures |ks| == |products|
    ensures forall i :: 0 <= i < |products| ==> ks[i] == ProductKey(products[i])
  {
    seq(|products|, i requires 0 <= i < |products| => ProductKey(products[i]))
  }

  function HistoryKeys(history: seq<HistoryRow>): (ks: seq<Key>)
    ensures |ks| == |history|
    ensures forall i :: 0 <= i < |history| ==> ks[i] == HistoryKey(history[i])
  {
    seq(|history|, i requires 0 <= i < |history| => HistoryKey(history[i]))
  }

  /** `product_map`: a later product with the same key replaces an earlier one. */
  function ProductMap(products: seq<Product>): (m: map<Key, Product>)
    ensures forall k :: k in m <==> k in ProductKeys(products)
  {
    if products == [] then map[]
    else
      var p := products[|products| - 1];
      var init := products[..|products| - 1];
      assert ProductKeys(products) == ProductKeys(init) + [ProductKey(p)];
      ProductMap(init)[ProductKey(p) := p]
  }

  /** The history rows of one key, in table order (`history_by_key[key]`). */
  function HistoryFor(history: seq<HistoryRow>, k: Key): (h: seq<HistoryRow>)
    ensures forall x :: x in h <==> x in history && HistoryKey(x) == k
    ensures |h| <= |history|
  {
    if history == [] then []
    else
      var x := history[|history| - 1];
      HistoryFor(history[..|history| - 1], k) + (if HistoryKey(x) == k then [x] else [])
  }

  /** `max(hist, key=last_seen)`: the first row with the greatest `last_seen`. */
  function LatestEntry(hist: seq<HistoryRow>): (r: HistoryRow)
    requires hist != []
    ensures r in hist
    ensures forall x :: x in hist ==> x.lastSeen <= r.lastSeen
  {
    if |hist| == 1 then hist[0]
    else
      var m := LatestEntry(hist[..|hist| - 1]);
      var x := hist[|hist| - 1];
      assert forall y :: y in hist ==> y in hist[..|hist| - 1] || y == x;
      if x.lastSeen > m.lastSeen then x else m
  }

  /** `hist[i]` is the first row with the greatest `last_seen`. */
  predicate FirstLatest(hist: seq<HistoryRow>, i: int) {
    0 <= i < |hist|
    && (forall j :: 0 <= j < |hist| ==> hist[j].lastSeen <= hist[i].lastSeen)
    && (forall j :: 0 <= j < i ==> hist[j].lastSeen < hist[i].lastSeen)
  }

  /** On ties `max` keeps the earliest row: every row before the chosen one
      ended strictly earlier. */
  lemma {:induction false} LatestEntryIsFirstMax(hist: seq<HistoryRow>)
    requires hist != []
    ensures exists i :: FirstLatest(hist, i) && LatestEntry(hist) == hist[i]
  {
    if |hist| == 1 {
      assert LatestEntry(hist) == hist[0];
      assert FirstLatest(hist, 0);
    } else {
      var init := hist[..|hist| - 1];
      LatestEntryIsFirstMax(init);
      var k :| FirstLatest(init, k) && LatestEntry(init) == init[k];
      FirstLatestStep(hist, k);
    }
  }

  /** Appending a row to `hist[..n-1]` whose first latest row is at `k`: the
      new row is the first latest one when it ends strictly later, otherwise
      `k` still is. */
  lemma FirstLatestStep(hist: seq<HistoryRow>, k: int)
    requires |hist| > 1 && FirstLatest(hist[..|hist| - 1], k)
    ensures hist[|hist| - 1].lastSeen > hist[k].lastSeen ==> FirstLatest(hist, |hist| - 1)
    ensures hist[|hist| - 1].lastSeen <= hist[k].lastSeen ==> FirstLatest(hist, k)
  {
    var init := hist[..|hist| - 1];
    assert forall j :: 0 <= j < |init| ==> hist[j] == init[j];
  }

  /** The intel row of a key that is on special now. */
  function CurrentIntel(k: Key, pmap: map<Key, Product>, history: seq<HistoryRow>, today: int): (r: SpecialIntel)
    requires k in pmap
    ensures IntelKey(r) == k && r.stats.isOnSpecialNow
    ensures r.name == pmap[k].name && r.category == pmap[k].category && r.imageUrl == pmap[k].imageUrl
    ensures r.stats == ComputeIntel(HistoryFor(history, k), true, pmap[k].discountPct, today)
  {
    var p := pmap[k];
    SpecialIntel(k.store, k.productId, p.name, p.category, p.imageUrl,
                 ComputeIntel(HistoryFor(history, k), true, p.discountPct, today))
  }

  /** The intel row of a key that only has history. */
  function HistoricalIntel(k: Key, history: seq<HistoryRow>, today: int): (r: SpecialIntel)
    requires HistoryFor(history, k) != []
    ensures IntelKey(r) == k && !r.stats.isOnSpecialNow
    ensures r.category.None? && r.imageUrl.None?
    ensures r.stats == ComputeIntel(HistoryFor(history, k), false, None, today)
  {
    var hist := HistoryFor(history, k);
    SpecialIntel(k.store, k.productId, LatestEntry(hist).name, None, None,
                 ComputeIntel(hist, false, None, today))
  }

  function CurrentRows(keys: seq<Key>, pmap: map<Key, Product>, history: seq<HistoryRow>, today: int): (rows: seq<SpecialIntel>)
    requires forall k :: k in keys ==> k in pmap
    ensures |rows| == |keys|
  {
    seq(|keys|, i requires 0 <= i < |keys| => CurrentIntel(keys[i], pmap, history, today))
  }

  function HistoricalRows(keys: seq<Key>, processed: set<Key>, history: seq<HistoryRow>, today: int): (rows: seq<SpecialIntel>)
    requires forall k :: k in keys ==> HistoryFor(history, k) != []
    ensures |rows| <= |keys|
  {
    if keys == [] then []
    else
      var k := keys[|keys| - 1];
      HistoricalRows(keys[..|keys| - 1], processed, history, today)
        + (if k in processed then [] else [HistoricalIntel(k, history, today)])
  }

  lemma HistoryKeysHaveRows(history: seq<HistoryRow>)
    ensures forall k :: k in UniqueKeys(HistoryKeys(history)) ==> HistoryFor(history, k) != []
  {
    forall k | k in UniqueKeys(HistoryKeys(history)) ensures HistoryFor(history, k) != [] {
      var i :| 0 <= i < |history| && HistoryKeys(history)[i] == k;
      assert history[i] in HistoryFor(history, k);
    }
  }

  /** What `_recompute_intel` writes: a row per scraped key (set iteration
      taken in first-occurrence order), then a row per key that only has
      history, in the order the history first shows it. */
  function IntelPlan(products: seq<Product>, history: seq<HistoryRow>, today: int): seq<SpecialIntel> {
    var pmap := ProductMap(products);
    var current := UniqueKeys(ProductKeys(products));
    HistoryKeysHaveRows(history);
    CurrentRows(current, pmap, history, today)
      + HistoricalRows(UniqueKeys(HistoryKeys(history)), KeySet(current), history, today)
  }

  function IntelKeys(rows: seq<SpecialIntel>): (ks: seq<Key>)
    ensures |ks| == |rows|
    ensures forall i :: 0 <= i < |rows| ==> ks[i] == IntelKey(rows[i])
  {
    seq(|rows|, i requires 0 <= i < |rows| => IntelKey(rows[i]))
  }

  lemma CurrentRowsShape(keys: seq<Key>, pmap: map<Key, Product>, history: seq<HistoryRow>, today: int)
    requires forall k :: k in keys ==> k in pmap
    ensures IntelKeys(CurrentRows(keys, pmap, history, today)) == keys
    ensures forall r :: r in CurrentRows(keys, pmap, history, today) ==> r.stats.isOnSpecialNow
  {
    var rows := CurrentRows(keys, pmap, history, today);
    assert forall i :: 0 <= i < |keys| ==> IntelKey(rows[i]) == keys[i];
  }

  lemma CurrentRowsSnoc(keys: seq<Key>, k: Key, pmap: map<Key, Product>, history: seq<HistoryRow>, today: int)
    requires forall k :: k in keys ==> k in pmap
    requires k in pmap
    ensures CurrentRows(keys + [k], pmap, history, today)
         == CurrentRows(keys, pmap, history, today) + [CurrentIntel(k, pmap, history, today)]
  {
    assert forall i :: 0 <= i < |keys| ==> (keys + [k])[i] == keys[i];
  }

  /** The keys not yet processed, in order. */
  function Unprocessed(keys: seq<Key>, processed: set<Key>): (r: seq<Key>)
    ensures forall k :: k in r <==> k in keys && k !in processed
  {
    if keys == [] then []
    else
      var k := keys[|keys| - 1];
      Unprocessed(keys[..|keys| - 1], processed) + (if k in processed then [] else [k])
  }

  lemma {:induction false} HistoricalRowsShape(keys: seq<Key>, processed: set<Key>, history: seq<HistoryRow>, today: int)
    requires forall k :: k in keys ==> HistoryFor(history, k) != []
    ensures IntelKeys(HistoricalRows(keys, processed, history, today)) == Unprocessed(keys, processed)
    ensures forall r :: r in HistoricalRows(keys, processed, history, today) ==>
      !r.stats.isOnSpecialNow && r.category.None? && r.imageUrl.None?
  {
    if keys != [] {
      var init := keys[..|keys| - 1];
      var k := keys[|keys| - 1];
      HistoricalRowsShape(init, processed, history, today);
      var before := HistoricalRows(init, processed, history, today);
      if k !in processed {
        IntelKeysSnoc(before, HistoricalIntel(k, history, today));
      } else {
        assert IntelKeys(HistoricalRows(keys, processed, history, today)) == IntelKeys(before);
      }
    }
  }

  lemma IntelKeysSnoc(rows: seq<SpecialIntel>, row: SpecialIntel)
    ensures IntelKeys(rows + [row]) == IntelKeys(rows) + [IntelKey(row)]
  {
  }

  lemma IntelKeysAppend(a: seq<SpecialIntel>, b: seq<SpecialIntel>)
    ensures IntelKeys(a + b) == IntelKeys(a) + IntelKeys(b)
  {
  }

  /** The plan's keys: the scraped keys, then the history keys not scraped. */
  lemma IntelPlanKeys(products: seq<Product>, history: seq<HistoryRow>, today: int)
    ensures var current := UniqueKeys(ProductKeys(products));
      IntelKeys(IntelPlan(products, history, today))
        == current + Unprocessed(UniqueKeys(HistoryKeys(history)), KeySet(current))
  {
    var pmap := ProductMap(products);
    var current := UniqueKeys(ProductKeys(products));
    var hkeys := UniqueKeys(HistoryKeys(history));
    HistoryKeysHaveRows(history);
    var a := CurrentRows(current, pmap, history, today);
    var b := HistoricalRows(hkeys, KeySet(current), history, today);
    assert IntelPlan(products, history, today) == a + b;
    CurrentRowsShape(current, pmap, history, today);
    HistoricalRowsShape(hkeys, KeySet(current), history, today);
    IntelKeysAppend(a, b);
  }

  lemma FlagsOfParts(a: seq<SpecialIntel>, b: seq<SpecialIntel>, scraped: seq<Key>)
    requires forall r :: r in a ==> r.stats.isOnSpecialNow
    requires forall r :: r in b ==> !r.stats.isOnSpecialNow
    requires forall k :: k in IntelKeys(a) ==> k in scraped
    requires forall k :: k in IntelKeys(b) ==> k !in scraped
    ensures forall r :: r in a + b ==> (r.stats.isOnSpecialNow <==> IntelKey(r) in scraped)
  {
    forall r | r in a ensures IntelKey(r) in scraped {
      var i :| 0 <= i < |a| && a[i] == r;
      assert IntelKeys(a)[i] == IntelKey(r);
    }
    forall r | r in b ensures IntelKey(r) !in scraped {
      var i :| 0 <= i < |b| && b[i] == r;
      assert IntelKeys(b)[i] == IntelKey(r);
    }
  }

  /** The plan's rows marked on special now are exactly the scraped keys'. */
  lemma IntelPlanFlags(products: seq<Product>, history: seq<HistoryRow>, today: int)
    ensures forall r :: r in IntelPlan(products, history, today) ==>
      (r.stats.isOnSpecialNow <==> IntelKey(r) in ProductKeys(products))
  {
    var pmap := ProductMap(products);
    var current := UniqueKeys(ProductKeys(products));
    var hkeys := UniqueKeys(HistoryKeys(history));
    var processed := KeySet(current);
    KeySetMembers(current);
    HistoryKeysHaveRows(history);
    var a := CurrentRows(current, pmap, history, today);
    var b := HistoricalRows(hkeys, processed, history, today);
    assert IntelPlan(products, history, today) == a + b;
    CurrentRowsShape(current, pmap, history, today);
    HistoricalRowsShape(hkeys, processed, history, today);
    FlagsOfParts(a, b, ProductKeys(products));
  }

  /** The statistics of a plan row for a given key and flag. */
  predicate StatsFor(r: SpecialIntel, history: seq<HistoryRow>, onSpecial: bool, discount: Option<int>, today: int) {
    r.stats == ComputeIntel(HistoryFor(history, IntelKey(r)), onSpecial, discount, today)
  }

  lemma CurrentRowsStats(keys: seq<Key>, pmap: map<Key, Product>, history: seq<HistoryRow>, today: int)
    requires forall k :: k in keys ==> k in pmap
    ensures forall r :: r in CurrentRows(keys, pmap, history, today) ==>
      IntelKey(r) in pmap && StatsFor(r, history, true, pmap[IntelKey(r)].discountPct, today)
  {
    var rows := CurrentRows(keys, pmap, history, today);
    forall r | r in rows
      ensures IntelKey(r) in pmap && StatsFor(r, history, true, pmap[IntelKey(r)].discountPct, today)
    {
      var i :| 0 <= i < |rows| && rows[i] == r;
      assert r == CurrentIntel(keys[i], pmap, history, today);
    }
  }

  lemma {:induction false} HistoricalRowsStats(keys: seq<Key>, processed: set<Key>, history: seq<HistoryRow>, today: int)
    requires forall k :: k in keys ==> HistoryFor(history, k) != []
    ensures forall r :: r in HistoricalRows(keys, processed, history, today) ==>
      StatsFor(r, history, false, None, today)
  {
    if keys != [] {
      HistoricalRowsStats(keys[..|keys| - 1], processed, history, today);
    }
  }

  /** Every plan row carries `compute_intel` of its key's history: flagged on
      special with the scraped product's discount when the key was scraped,
      otherwise not on special and without a discount. */
  lemma IntelPlanStats(products: seq<Product>, history: seq<HistoryRow>, today: int)
    ensures forall r :: r in IntelPlan(products, history, today) ==>
      var onSpecial := IntelKey(r) in ProductKeys(products);
      (onSpecial ==> IntelKey(r) in ProductMap(products))
      && r.stats == ComputeIntel(HistoryFor(history, IntelKey(r)), onSpecial,
                                 if onSpecial then ProductMap(products)[IntelKey(r)].discountPct else None, today)
  {
    var pmap := ProductMap(products);
    var current := UniqueKeys(ProductKeys(products));
    var hkeys := UniqueKeys(HistoryKeys(history));
    HistoryKeysHaveRows(history);
    var a := CurrentRows(current, pmap, history, today);
    var b := HistoricalRows(hkeys, KeySet(current), history, today);
    assert IntelPlan(products, history, today) == a + b;
    CurrentRowsStats(current, pmap, history, today);
    HistoricalRowsStats(hkeys, KeySet(current), history, today);
    IntelPlanFlags(products, history, today);
  }

  /** Two key lists without repeats and without a common key concatenate to
      a list without repeats. */
  lemma ConcatDistinct(xs: seq<Key>, ys: seq<Key>)
    requires DistinctKeys(xs) && DistinctKeys(ys)
    requires forall k :: k in ys ==> k !in xs
    ensures DistinctKeys(xs + ys)
  {
    var zs := xs + ys;
    forall i, j | 0 <= i < j < |zs| ensures zs[i] != zs[j] {
      if i < |xs| <= j {
        assert zs[j] == ys[j - |xs|] && zs[j] in ys;
      } else if |xs| <= i {
        assert zs[i] == ys[i - |xs|] && zs[j] == ys[j - |xs|];
      }
    }
  }

  /** One intel row per key in the union of the scraped keys and the history
      keys, no key twice; the scraped keys are the ones marked on special now. */
  lemma IntelPlanCoversKeys(products: seq<Product>, history: seq<HistoryRow>, today: int)
    ensures var ks := IntelKeys(IntelPlan(products, history, today));
      (forall k :: k in ks <==> k in ProductKeys(products) || k in HistoryKeys(history))
      && DistinctKeys(ks)
    ensures forall r :: r in IntelPlan(products, history, today) ==>
      (r.stats.isOnSpecialNow <==> IntelKey(r) in ProductKeys(products))
  {
    var current := UniqueKeys(ProductKeys(products));
    var hkeys := UniqueKeys(HistoryKeys(history));
    var processed := KeySet(current);
    KeySetMembers(current);
    IntelPlanKeys(products, history, today);
    var un := Unprocessed(hkeys, processed);
    UnprocessedDistinct(hkeys, processed);
    ConcatDistinct(current, un);
    IntelPlanFlags(products, history, today);
  }

  lemma {:induction false} UnprocessedDistinct(keys: seq<Key>, processed: set<Key>)
    requires DistinctKeys(keys)
    ensures DistinctKeys(Unprocessed(keys, processed))
  {
    if keys != [] {
      var init := keys[..|keys| - 1];
      var k := keys[|keys| - 1];
      assert DistinctKeys(init);
      UnprocessedDistinct(init, processed);
      var u := Unprocessed(init, processed);
      var r := Unprocessed(keys, processed);
      if k !in processed {
        assert r == u + [k];
        forall i, j | 0 <= i < j < |r| ensures r[i] != r[j] {
          if j == |r| - 1 {
            assert r[i] == u[i] && u[i] in u;
            assert u[i] in init;
            var m :| 0 <= m < |init| && init[m] == u[i];
            assert keys[m] != keys[|keys| - 1];
          } else {
            assert r[i] == u[i] && r[j] == u[j];
          }
        }
      } else {
        assert r == u;
      }
    }
  }

  /** A history-only row is named after the key's most recent history entry. */
  lemma HistoricalRowNamedByLatest(k: Key, history: seq<HistoryRow>, today: int)
    requires HistoryFor(history, k) != []
    ensures var r := HistoricalIntel(k, history, today);
      exists h :: h in history && HistoryKey(h) == k && r.name == h.name
        && (forall x :: x in history && HistoryKey(x) == k ==> x.lastSeen <= h.lastSeen)
    ensures var r := HistoricalIntel(k, history, today);
      var hist := HistoryFor(history, k);
      exists i :: FirstLatest(hist, i) && r.name == hist[i].name
    ensures var r := HistoricalIntel(k, history, today);
      r.category.None? && r.imageUrl.None?
  {
    var h := LatestEntry(HistoryFor(history, k));
    assert h in history && HistoryKey(h) == k;
    LatestEntryIsFirstMax(HistoryFor(history, k));
  }

  /** A scraped key's row takes the last scraped product with that key. */
  lemma {:induction false} ProductMapLastWins(products: seq<Product>, i: nat)
    requires i < |products|
    requires forall j :: i < j < |products| ==> ProductKey(products[j]) != ProductKey(products[i])
    ensures ProductMap(products)[ProductKey(products[i])] == products[i]
  {
    if i < |products| - 1 {
      ProductMapLastWins(products[..|products| - 1], i);
    }
  }

  /** The loop over the scraped keys. */
  method EmitCurrent(current: seq<Key>, pmap: map<Key, Product>, history: seq<HistoryRow>, today: int)
    returns (rows: seq<SpecialIntel>, processed: set<Key>)
    requires forall k :: k in current ==> k in pmap
    ensures rows == CurrentRows(current, pmap, history, today)
    ensures processed == KeySet(current)
  {
    rows, processed := [], {};
    var i := 0;
    while i < |current|
      invariant 0 <= i <= |current|
      invariant rows == CurrentRows(current[..i], pmap, history, today)
      invariant processed == KeySet(current[..i])
    {
      var k := current[i];
      assert current[..i + 1] == current[..i] + [k];
      CurrentRowsSnoc(current[..i], k, pmap, history, today);
      rows := rows + [CurrentIntel(k, pmap, history, today)];
      processed := processed + {k};
      i := i + 1;
    }
    assert current[..|current|] == current;
  }

  /** The loop over the history keys, skipping those already processed. */
  method EmitHistorical(hkeys: seq<Key>, processed: set<Key>, history: seq<HistoryRow>, today: int)
    returns (rows: seq<SpecialIntel>)
    requires forall k :: k in hkeys ==> HistoryFor(history, k) != []
    ensures rows == HistoricalRows(hkeys, processed, history, today)
  {
    rows := [];
    var j := 0;
    while j < |hkeys|
      invariant 0 <= j <= |hkeys|
      invariant rows == HistoricalRows(hkeys[..j], processed, history, today)
    {
      assert hkeys[..j + 1][..j] == hkeys[..j];
      var k := hkeys[j];
      if k !in processed {
        rows := rows + [HistoricalIntel(k, history, today)];
      }
      j := j + 1;
    }
    assert hkeys[..|hkeys|] == hkeys;
  }

  /** `_recompute_intel`: the rows of the plan, sent in batches. */
  method RecomputeIntel(products: seq<Product>, history: seq<HistoryRow>, today: int)
    returns (rows: seq<SpecialIntel>, batches: seq<seq<SpecialIntel>>)
    ensures rows == IntelPlan(products, history, today)
    ensures Flatten(batches) == rows
    ensures forall k :: 0 <= k < |batches| ==> 0 < |batches[k]| <= BATCH
  {
    var pmap := ProductMap(products);
    var current := UniqueKeys(ProductKeys(products));
    var hkeys := UniqueKeys(HistoryKeys(history));
    HistoryKeysHaveRows(history);
    var head, processed := EmitCurrent(current, pmap, history, today);
    var tail := EmitHistorical(hkeys, processed, history, today);
    rows := head + tail;
    batches := Batches(rows, BATCH);
  }

  // ---------------------------------------------------------------------------
  // _compute_never_on_special_intel
  // ---------------------------------------------------------------------------

  /** The catalogue rows that have no intel row yet, in order. */
  function NeverOnSpecial(catalogue: seq<CatalogueRow>, intelKeys: set<Key>): (r: seq<CatalogueRow>)
    ensures forall c :: c in r <==> c in catalogue && CatalogueKey(c) !in intelKeys
  {
    if catalogue == [] then []
    else
      var c := catalogue[|catalogue| - 1];
      NeverOnSpecial(catalogue[..|catalogue| - 1], intelKeys)
        + (if CatalogueKey(c) in intelKeys then [] else [c])
  }

  lemma NeverOnSpecialKeys(catalogue: seq<CatalogueRow>, intelKeys: set<Key>)
    ensures var never := NeverOnSpecial(catalogue, intelKeys);
      forall i :: 0 <= i < |never| ==> CatalogueKey(never[i]) !in intelKeys
  {
    var never := NeverOnSpecial(catalogue, intelKeys);
    forall i | 0 <= i < |never| ensures CatalogueKey(never[i]) !in intelKeys {
      assert never[i] in never;
    }
  }

  /** The intel row of a catalogue product never seen on special: the
      statistics of an empty history with the class overwritten by "never". */
  function NeverIntel(c: CatalogueRow, today: int): (r: SpecialIntel)
    ensures IntelKey(r) == CatalogueKey(c)
    ensures r.stats.frequencyClass == Some(Never)
    ensures r.stats.totalTimesOnSpecial == 0 && !r.stats.isOnSpecialNow
    ensures r.stats.avgFrequencyDays.None? && r.stats.expectedDaysUntilNext.None?
    ensures r.stats.daysSinceLastSpecial.None? && r.stats.lastSpecialDate.None?
    ensures r.stats.lastDiscountPct.None?
  {
    var stats := ComputeIntel([], false, None, today);
    SpecialIntel(c.store, c.productId, c.name, c.category, c.imageUrl,
                 stats.(frequencyClass := Some(Never)))
  }

  /** `_compute_never_on_special_intel`: a "never" row for every catalogue
      product without intel, sent in batches; nothing when there are none. */
  method NeverOnSpecialIntel(catalogue: seq<CatalogueRow>, intelKeys: set<Key>, today: int)
    returns (rows: seq<SpecialIntel>, batches: seq<seq<SpecialIntel>>)
    ensures var never := NeverOnSpecial(catalogue, intelKeys);
      |rows| == |never| && forall i :: 0 <= i < |rows| ==> rows[i] == NeverIntel(never[i], today)
    ensures forall r :: r in rows ==> IntelKey(r) !in intelKeys && r.stats.frequencyClass == Some(Never)
    ensures Flatten(batches) == rows
    ensures forall k :: 0 <= k < |batches| ==> 0 < |batches[k]| <= BATCH
  {
    var never := NeverOnSpecial(catalogue, intelKeys);
    rows, batches := [], [];
    if never == [] {
      return;
    }
    var i := 0;
    while i < |never|
      invariant 0 <= i <= |never|
      invariant |rows| == i
      invariant forall k :: 0 <= k < i ==> rows[k] == NeverIntel(never[k], today)
    {
      rows := rows + [NeverIntel(never[i], today)];
      i := i + 1;
    }
    NeverOnSpecialKeys(catalogue, intelKeys);
    forall r | r in rows ensures IntelKey(r) !in intelKeys && r.stats.frequencyClass == Some(Never) {
      var k :| 0 <= k < |rows| && rows[k] == r;
    }
    batches := Batches(rows, BATCH);
  }
}
