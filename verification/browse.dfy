/** The browse page: the specials filtered by store and category, the
    category chips, the "top deals" and "rarely on sale" strips, and paging
    through the filtered list thirty at a time. */
module Browse {
  import opened Common
  import opened Records
  import opened Text
  import opened Joins

  /** Rows added by each "Show more". */
  const PAGE_SIZE := 30
  /** Length of the two strips. */
  const STRIP_SIZE := 8
  /** The category chip that disables the category filter. */
  const ALL_CATEGORIES := "All"

  // ---------------------------------------------------------------------------
  // filtered
  // ---------------------------------------------------------------------------

  /** A special passes the store filter (`None` is "all") and the category
      filter ("All" passes everything). */
  predicate Passes(s: Special, store: Option<Store>, category: string) {
    (store.None? || s.store == store.value)
    && (category == ALL_CATEGORIES || s.category == Some(category))
  }

  /** The two filters act independently: passing both is passing each with
      the other switched off, and with both off everything passes. */
  lemma PassesIndependent(s: Special, store: Option<Store>, category: string)
    ensures Passes(s, store, category) <==> Passes(s, store, ALL_CATEGORIES) && Passes(s, None, category)
    ensures Passes(s, None, ALL_CATEGORIES)
  {
  }

  /** `filtered`: the passing specials, in order. */
  function Filtered(specials: seq<Special>, store: Option<Store>, category: string): (r: seq<Special>)
    ensures forall s :: s in r <==> s in specials && Passes(s, store, category)
    ensures |r| <= |specials|
  {
    if specials == [] then []
    else
      var s := specials[|specials| - 1];
      Filtered(specials[..|specials| - 1], store, category) + (if Passes(s, store, category) then [s] else [])
  }

  /** With both filters off every special is shown, in its order. */
  lemma {:induction false} FilteredNoFilter(specials: seq<Special>)
    ensures Filtered(specials, None, ALL_CATEGORIES) == specials
  {
    if specials != [] {
      FilteredNoFilter(specials[..|specials| - 1]);
      assert specials == specials[..|specials| - 1] + [specials[|specials| - 1]];
    }
  }

  /** Filtering keeps the order: the filter of a concatenation is the
      concatenation of the filters. */
  lemma {:induction false} FilteredAppend(a: seq<Special>, b: seq<Special>, store: Option<Store>, category: string)
    ensures Filtered(a + b, store, category) == Filtered(a, store, category) + Filtered(b, store, category)
    decreases |b|
  {
    if b == [] {
      assert a + b == a;
    } else {
      var init, s := b[..|b| - 1], b[|b| - 1];
      var x := if Passes(s, store, category) then [s] else [];
      assert b == init + [s];
      calc {
        Filtered(a + b, store, category);
        { assert a + b == (a + init) + [s]; }
        Filtered((a + init) + [s], store, category);
        { FilteredSnoc(a + init, s, store, category); }
        Filtered(a + init, store, category) + x;
        { FilteredAppend(a, init, store, category); }
        (Filtered(a, store, category) + Filtered(init, store, category)) + x;
        Filtered(a, store, category) + (Filtered(init, store, category) + x);
        { FilteredSnoc(init, s, store, category); }
        Filtered(a, store, category) + Filtered(b, store, category);
      }
    }
  }

  lemma FilteredSnoc(specials: seq<Special>, s: Special, store: Option<Store>, category: string)
    ensures Filtered(specials + [s], store, category)
         == Filtered(specials, store, category) + (if Passes(s, store, category) then [s] else [])
  {
    assert (specials + [s])[..|specials|] == specials;
  }

  // ---------------------------------------------------------------------------
  // categories
  // ---------------------------------------------------------------------------

  /** `[...new Set(specials.map(s => s.category).filter(Boolean))]`: the
      non-empty categories in first-occurrence order, each once. */
  function DistinctCategories(specials: seq<Special>): (r: seq<string>)
    ensures forall c :: c in r <==> exists s :: s in specials && s.category == Some(c) && c != ""
    ensures forall i, j :: 0 <= i < j < |r| ==> r[i] != r[j]
  {
    if specials == [] then []
    else
      var init := specials[..|specials| - 1];
      var s := specials[|specials| - 1];
      var r0 := DistinctCategories(init);
      assert forall x :: x in specials <==> x in init || x == s;
      if StrTruthy(s.category) && s.category.value !in r0 then r0 + [s.category.value] else r0
  }

  predicate StrictlySorted(xs: seq<string>) {
    forall i, j :: 0 <= i < j < |xs| ==> StrLess(xs[i], xs[j])
  }

  /** Inserts a new string at its place in a strictly sorted list. */
  function InsertString(x: string, sorted: seq<string>): (r: seq<string>)
    requires StrictlySorted(sorted) && x !in sorted
    ensures StrictlySorted(r)
    ensures forall y :: y in r <==> y == x || y in sorted
    ensures |r| == |sorted| + 1
  {
    if sorted == [] then [x]
    else if StrLess(x, sorted[0]) then
      assert forall j :: 0 <= j < |sorted| ==> StrLess(x, sorted[j]) by {
        forall j | 0 <= j < |sorted| ensures StrLess(x, sorted[j]) {
          if j > 0 {
            StrLessTransitive(x, sorted[0], sorted[j]);
          }
        }
      }
      [x] + sorted
    else
      StrLessTotal(x, sorted[0]);
      var t := InsertString(x, sorted[1..]);
      assert forall y :: y in sorted <==> y == sorted[0] || y in sorted[1..];
      assert forall y :: y in t ==> StrLess(sorted[0], y);
      [sorted[0]] + t
  }

  /** JavaScript's default `sort` of distinct strings (code-unit order). */
  function SortStrings(xs: seq<string>): (r: seq<string>)
    requires forall i, j :: 0 <= i < j < |xs| ==> xs[i] != xs[j]
    ensures StrictlySorted(r)
    ensures forall y :: y in r <==> y in xs
    ensures |r| == |xs|
  {
    if xs == [] then []
    else
      assert xs[0] !in xs[1..];
      assert forall y :: y in xs <==> y == xs[0] || y in xs[1..];
      InsertString(xs[0], SortStrings(xs[1..]))
  }

  /** The category chips: every non-empty category of the loaded specials
      exactly once, in ascending order. */
  function Categories(specials: seq<Special>): (r: seq<string>)
    ensures StrictlySorted(r)
    ensures forall c :: c in r <==> exists s :: s in specials && s.category == Some(c) && c != ""
  {
    SortStrings(DistinctCategories(specials))
  }

  /** A strictly ascending list has no repeats. */
  lemma StrictlySortedDistinct(xs: seq<string>)
    requires StrictlySorted(xs)
    ensures forall i, j :: 0 <= i < j < |xs| ==> xs[i] != xs[j]
  {
    forall i, j | 0 <= i < j < |xs| ensures xs[i] != xs[j] {
      StrLessIrreflexive(xs[i]);
    }
  }

  // ---------------------------------------------------------------------------
  // Strips and paging
  // ---------------------------------------------------------------------------

  /** `list.slice(0, n)` for a non-negative `n`. */
  function Take<T>(xs: seq<T>, n: nat): (r: seq<T>)
    ensures |r| == Min(n, |xs|)
    ensures r == xs[..|r|]
  {
    if n < |xs| then xs[..n] else xs
  }

  /** `topDeals`: the first eight filtered specials. */
  function TopDeals(filtered: seq<Special>): (r: seq<Special>)
    ensures |r| <= STRIP_SIZE && |r| <= |filtered| && r == filtered[..|r|]
    ensures |filtered| >= STRIP_SIZE ==> |r| == STRIP_SIZE
    ensures |filtered| < STRIP_SIZE ==> r == filtered
  {
    Take(filtered, STRIP_SIZE)
  }

  /** The filtered specials whose intel row says "rare". */
  function RareOnly(filtered: seq<Special>, intel: seq<SpecialIntel>): (r: seq<Special>)
    ensures forall s :: s in r <==> s in filtered && IsRare(s, intel)
    ensures |r| <= |filtered|
  {
    if filtered == [] then []
    else
      var s := filtered[|filtered| - 1];
      RareOnly(filtered[..|filtered| - 1], intel) + (if IsRare(s, intel) then [s] else [])
  }

  lemma RareOnlySnoc(filtered: seq<Special>, e: Special, intel: seq<SpecialIntel>)
    ensures RareOnly(filtered + [e], intel) == RareOnly(filtered, intel) + (if IsRare(e, intel) then [e] else [])
  {
    assert (filtered + [e])[..|filtered|] == filtered;
  }

  /** The rare specials keep the filtered order: the rare part of a
      concatenation is the rare part of each piece. */
  lemma {:induction false} RareOnlyAppend(a: seq<Special>, b: seq<Special>, intel: seq<SpecialIntel>)
    ensures RareOnly(a + b, intel) == RareOnly(a, intel) + RareOnly(b, intel)
    decreases |b|
  {
    if b == [] {
      assert a + b == a;
    } else {
      var init, e := b[..|b| - 1], b[|b| - 1];
      assert b == init + [e];
      calc {
        RareOnly(a + b, intel);
        { assert a + b == (a + init) + [e]; }
        RareOnly((a + init) + [e], intel);
        { RareOnlySnoc(a + init, e, intel); }
        RareOnly(a + init, intel) + (if IsRare(e, intel) then [e] else []);
        { RareOnlyAppend(a, init, intel); }
        (RareOnly(a, intel) + RareOnly(init, intel)) + (if IsRare(e, intel) then [e] else []);
        RareOnly(a, intel) + (RareOnly(init, intel) + (if IsRare(e, intel) then [e] else []));
        { RareOnlySnoc(init, e, intel); }
        RareOnly(a, intel) + RareOnly(b, intel);
      }
    }
  }

  predicate IsRare(s: Special, intel: seq<SpecialIntel>) {
    var i := FindIntel(intel, s.store, s.productId);
    i.Some? && i.value.stats.frequencyClass == Some(Rare)
  }

  /** `rareDeals`: the first eight filtered specials classed "rare". */
  function RareDeals(filtered: seq<Special>, intel: seq<SpecialIntel>): (r: seq<Special>)
    ensures |r| == Min(STRIP_SIZE, |RareOnly(filtered, intel)|)
    ensures r == RareOnly(filtered, intel)[..|r|]
    ensures forall s :: s in r ==> s in filtered && IsRare(s, intel)
  {
    var rare := RareOnly(filtered, intel);
    var r := Take(rare, STRIP_SIZE);
    assert forall s :: s in r ==> s in rare;
    r
  }

  /** `visibleSpecials`: the first `visibleCount` filtered specials. */
  function VisibleSpecials(filtered: seq<Special>, visibleCount: nat): (r: seq<Special>)
    ensures |r| == Min(visibleCount, |filtered|) && r == filtered[..|r|]
  {
    Take(filtered, visibleCount)
  }

  /** `hasMore`: the "Show more" button appears while part of the list is hidden. */
  function HasMore(filtered: seq<Special>, visibleCount: nat): (b: bool)
    ensures b <==> |VisibleSpecials(filtered, visibleCount)| < |filtered|
  {
    visibleCount < |filtered|
  }

  /** The page's paging and filter state. */
  class BrowseControls {
    var visibleCount: nat
    var activeStore: Option<Store>
    var activeCategory: string

    /** The count only ever holds whole pages, at least one. */
    predicate Valid()
      reads this
    {
      visibleCount >= PAGE_SIZE && visibleCount % PAGE_SIZE == 0
    }

    constructor()
      ensures Valid()
      ensures visibleCount == PAGE_SIZE && activeStore.None? && activeCategory == ALL_CATEGORIES
    {
      visibleCount := PAGE_SIZE;
      activeStore := None;
      activeCategory := ALL_CATEGORIES;
    }

    /** "Show more": one more page. */
    method ShowMore()
      requires Valid()
      modifies this
      ensures Valid()
      ensures visibleCount == old(visibleCount) + PAGE_SIZE
      ensures activeStore == old(activeStore) && activeCategory == old(activeCategory)
    {
      visibleCount := visibleCount + PAGE_SIZE;
    }

    /** A store chip: a change of store goes back to the first page. */
    method SetStore(store: Option<Store>)
      requires Valid()
      modifies this
      ensures Valid()
      ensures activeStore == store && activeCategory == old(activeCategory)
      ensures visibleCount == if store != old(activeStore) then PAGE_SIZE else old(visibleCount)
    {
      if store != activeStore {
        visibleCount := PAGE_SIZE;
      }
      activeStore := store;
    }

    /** A category chip: a change of category goes back to the first page. */
    method SetCategory(category: string)
      requires Valid()
      modifies this
      ensures Valid()
      ensures activeCategory == category && activeStore == old(activeStore)
      ensures visibleCount == if category != old(activeCategory) then PAGE_SIZE else old(visibleCount)
    {
      if category != activeCategory {
        visibleCount := PAGE_SIZE;
      }
      activeCategory := category;
    }
  }
}
