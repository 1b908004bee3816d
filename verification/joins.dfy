/** The client-side lookups the pages share: the first specials or intel row
    with a given (store, product id), the watchlist joined to both, and the
    split of that join into items on special and items waiting. */
module Joins {
  import opened Common
  import opened Records
  import opened MyList

  /** `specials.find(s => s.store === store && s.product_id === productId) ?? null`. */
  function FindSpecial(specials: seq<Special>, store: Store, productId: string): (r: Option<Special>)
    ensures r.None? <==> forall i :: 0 <= i < |specials| ==> SpecialKey(specials[i]) != Key(store, productId)
    ensures r.Some? ==> SpecialKey(r.value) == Key(store, productId)
    ensures r.Some? ==>
      exists i :: 0 <= i < |specials| && specials[i] == r.value
        && forall j :: 0 <= j < i ==> SpecialKey(specials[j]) != Key(store, productId)
  {
    if specials == [] then None
    else if SpecialKey(specials[0]) == Key(store, productId) then Some(specials[0])
    else
      var r := FindSpecial(specials[1..], store, productId);
      assert forall i :: 1 <= i < |specials| ==> specials[1..][i - 1] == specials[i];
      if r.Some? then
        var i :| 0 <= i < |specials[1..]| && specials[1..][i] == r.value
          && forall j :: 0 <= j < i ==> SpecialKey(specials[1..][j]) != Key(store, productId);
        assert specials[i + 1] == r.value;
        r
      else r
  }

  /** `intel.find(i => i.store === store && i.product_id === productId) ?? null`. */
  function FindIntel(intel: seq<SpecialIntel>, store: Store, productId: string): (r: Option<SpecialIntel>)
    ensures r.None? <==> forall i :: 0 <= i < |intel| ==> IntelKey(intel[i]) != Key(store, productId)
    ensures r.Some? ==> IntelKey(r.value) == Key(store, productId)
    ensures r.Some? ==>
      exists i :: 0 <= i < |intel| && intel[i] == r.value
        && forall j :: 0 <= j < i ==> IntelKey(intel[j]) != Key(store, productId)
  {
    if intel == [] then None
    else if IntelKey(intel[0]) == Key(store, productId) then Some(intel[0])
    else
      var r := FindIntel(intel[1..], store, productId);
      assert forall i :: 1 <= i < |intel| ==> intel[1..][i - 1] == intel[i];
      if r.Some? then
        var i :| 0 <= i < |intel[1..]| && intel[1..][i] == r.value
          && forall j :: 0 <= j < i ==> IntelKey(intel[1..][j]) != Key(store, productId);
        assert intel[i + 1] == r.value;
        r
      else r
  }

  /** The first match is unique: no two different rows can both be "the
      first row with this key". */
  lemma FindSpecialIsFirst(specials: seq<Special>, store: Store, productId: string, i: nat)
    requires i < |specials| && SpecialKey(specials[i]) == Key(store, productId)
    requires forall j :: 0 <= j < i ==> SpecialKey(specials[j]) != Key(store, productId)
    ensures FindSpecial(specials, store, productId) == Some(specials[i])
  {
    var r := FindSpecial(specials, store, productId);
    var k :| 0 <= k < |specials| && specials[k] == r.value
      && forall j :: 0 <= j < k ==> SpecialKey(specials[j]) != Key(store, productId);
  }

  /** The row key the watching and shop pages use: `${store}:${productId}`. */
  function ItemKey(store: Store, productId: string): (k: string)
    ensures |k| == |StoreCode(store)| + 1 + |productId|
  {
    StoreCode(store) + ":" + productId
  }

  /** Different (store, product id) pairs never share a row key. */
  lemma ItemKeyInjective(s1: Store, p1: string, s2: Store, p2: string)
    requires ItemKey(s1, p1) == ItemKey(s2, p2)
    ensures s1 == s2 && p1 == p2
  {
    var k := ItemKey(s1, p1);
    assert k[0] == StoreCode(s1)[0] == StoreCode(s2)[0];
    var n := |StoreCode(s1)| + 1;
    assert p1 == k[n..];
    assert p2 == ItemKey(s2, p2)[n..];
  }

  /** A watchlist item with the special and the intel row found for it. */
  datatype Enriched = Enriched(item: WatchlistItem, special: Option<Special>, intel: Option<SpecialIntel>)

  function EnrichItem(w: WatchlistItem, specials: seq<Special>, intel: seq<SpecialIntel>): Enriched {
    Enriched(w, FindSpecial(specials, w.store, w.productId), FindIntel(intel, w.store, w.productId))
  }

  /** `watchlistItems.map(w => ({ ...w, special, intel }))`: one entry per
      item, in the same order, carrying that item's lookups. */
  function Enrich(items: seq<WatchlistItem>, specials: seq<Special>, intel: seq<SpecialIntel>): (r: seq<Enriched>)
    ensures |r| == |items|
    ensures forall i :: 0 <= i < |items| ==>
      r[i].item == items[i]
      && r[i].special == FindSpecial(specials, items[i].store, items[i].productId)
      && r[i].intel == FindIntel(intel, items[i].store, items[i].productId)
  {
    seq(|items|, i requires 0 <= i < |items| => EnrichItem(items[i], specials, intel))
  }

  /** An enriched item has a special exactly when some specials row carries
      its key. */
  lemma EnrichedOnSpecial(items: seq<WatchlistItem>, specials: seq<Special>, intel: seq<SpecialIntel>, i: nat)
    requires i < |items|
    ensures Enrich(items, specials, intel)[i].special.Some?
        <==> exists s :: s in specials && SpecialKey(s) == Key(items[i].store, items[i].productId)
  {
    var k := Key(items[i].store, items[i].productId);
    if exists s :: s in specials && SpecialKey(s) == k {
      var s :| s in specials && SpecialKey(s) == k;
      var j :| 0 <= j < |specials| && specials[j] == s;
      assert SpecialKey(specials[j]) == k;
    }
  }

  /** `enriched.filter(e => e.special)`. */
  function OnSpecial(es: seq<Enriched>): (r: seq<Enriched>)
    ensures forall e :: e in r <==> e in es && e.special.Some?
    ensures |r| <= |es|
  {
    if es == [] then []
    else
      var e := es[|es| - 1];
      OnSpecial(es[..|es| - 1]) + (if e.special.Some? then [e] else [])
  }

  /** `enriched.filter(e => !e.special)`. */
  function NotOnSpecial(es: seq<Enriched>): (r: seq<Enriched>)
    ensures forall e :: e in r <==> e in es && e.special.None?
    ensures |r| <= |es|
  {
    if es == [] then []
    else
      var e := es[|es| - 1];
      NotOnSpecial(es[..|es| - 1]) + (if e.special.None? then [e] else [])
  }

  lemma OnSpecialSnoc(es: seq<Enriched>, e: Enriched)
    ensures OnSpecial(es + [e]) == OnSpecial(es) + (if e.special.Some? then [e] else [])
  {
    assert (es + [e])[..|es|] == es;
  }

  lemma NotOnSpecialSnoc(es: seq<Enriched>, e: Enriched)
    ensures NotOnSpecial(es + [e]) == NotOnSpecial(es) + (if e.special.None? then [e] else [])
  {
    assert (es + [e])[..|es|] == es;
  }

  /** The two filters split the list: every entry lands in exactly one. */
  lemma {:induction false} SpecialPartition(es: seq<Enriched>)
    ensures |OnSpecial(es)| + |NotOnSpecial(es)| == |es|
    ensures multiset(OnSpecial(es)) + multiset(NotOnSpecial(es)) == multiset(es)
  {
    if es != [] {
      var init, e := es[..|es| - 1], es[|es| - 1];
      assert es == init + [e];
      SpecialPartition(init);
      OnSpecialSnoc(init, e);
      NotOnSpecialSnoc(init, e);
    }
  }

  /** Neither filter reorders: filtering a concatenation concatenates the
      filtered parts. */
  lemma {:induction false} OnSpecialAppend(a: seq<Enriched>, b: seq<Enriched>)
    ensures OnSpecial(a + b) == OnSpecial(a) + OnSpecial(b)
    decreases |b|
  {
    if b == [] {
      assert a + b == a;
    } else {
      var init, e := b[..|b| - 1], b[|b| - 1];
      var x := if e.special.Some? then [e] else [];
      assert b == init + [e];
      calc {
        OnSpecial(a + b);
        { assert a + b == (a + init) + [e]; }
        OnSpecial((a + init) + [e]);
        { OnSpecialSnoc(a + init, e); }
        OnSpecial(a + init) + x;
        { OnSpecialAppend(a, init); }
        (OnSpecial(a) + OnSpecial(init)) + x;
        OnSpecial(a) + (OnSpecial(init) + x);
        { OnSpecialSnoc(init, e); }
        OnSpecial(a) + OnSpecial(b);
      }
    }
  }

  lemma {:induction false} NotOnSpecialAppend(a: seq<Enriched>, b: seq<Enriched>)
    ensures NotOnSpecial(a + b) == NotOnSpecial(a) + NotOnSpecial(b)
    decreases |b|
  {
    if b == [] {
      assert a + b == a;
    } else {
      var init, e := b[..|b| - 1], b[|b| - 1];
      var x := if e.special.None? then [e] else [];
      assert b == init + [e];
      calc {
        NotOnSpecial(a + b);
        { assert a + b == (a + init) + [e]; }
        NotOnSpecial((a + init) + [e]);
        { NotOnSpecialSnoc(a + init, e); }
        NotOnSpecial(a + init) + x;
        { NotOnSpecialAppend(a, init); }
        (NotOnSpecial(a) + NotOnSpecial(init)) + x;
        NotOnSpecial(a) + (NotOnSpecial(init) + x);
        { NotOnSpecialSnoc(init, e); }
        NotOnSpecial(a) + NotOnSpecial(b);
      }
    }
  }
}
