/** The watchlist store of the web app: the shopper's list of tracked products,
    keyed by (store, product id), with add, remove, toggle, membership and
    clear. */
module MyList {
  import opened Common

  /** One tracked product. `addedAt` is the time stamp the caller supplies. */
  datatype WatchlistItem = WatchlistItem(productId: string, store: Store, name: string, addedAt: string)

  predicate Matches(i: WatchlistItem, store: Store, productId: string) {
    i.store == store && i.productId == productId
  }

  /** Some item of `items` has the key (store, productId). */
  predicate Contains(items: seq<WatchlistItem>, store: Store, productId: string) {
    exists k :: 0 <= k < |items| && Matches(items[k], store, productId)
  }

  /** `items.filter(i => !(i.store === store && i.productId === productId))`. */
  function Without(items: seq<WatchlistItem>, store: Store, productId: string): (r: seq<WatchlistItem>)
    ensures |r| <= |items|
    ensures forall x :: x in r <==> x in items && !Matches(x, store, productId)
  {
    if items == [] then []
    else
      var last := items[|items| - 1];
      Without(items[..|items| - 1], store, productId)
        + (if Matches(last, store, productId) then [] else [last])
  }

  lemma WithoutSnoc(items: seq<WatchlistItem>, e: WatchlistItem, store: Store, productId: string)
    ensures Without(items + [e], store, productId) == Without(items, store, productId) + (if Matches(e, store, productId) then [] else [e])
  {
    assert (items + [e])[..|items|] == items;
  }

  /** Removal keeps the other items in their order: removing from a concatenation
      is removing from each part. */
  lemma {:induction false} WithoutAppend(a: seq<WatchlistItem>, b: seq<WatchlistItem>, store: Store, productId: string)
    ensures Without(a + b, store, productId) == Without(a, store, productId) + Without(b, store, productId)
    decreases |b|
  {
    if b == [] {
      assert a + b == a;
    } else {
      var init, e := b[..|b| - 1], b[|b| - 1];
      assert b == init + [e];
      calc {
        Without(a + b, store, productId);
        { assert a + b == (a + init) + [e]; }
        Without((a + init) + [e], store, productId);
        { WithoutSnoc(a + init, e, store, productId); }
        Without(a + init, store, productId) + (if Matches(e, store, productId) then [] else [e]);
        { WithoutAppend(a, init, store, productId); }
        (Without(a, store, productId) + Without(init, store, productId)) + (if Matches(e, store, productId) then [] else [e]);
        Without(a, store, productId) + (Without(init, store, productId) + (if Matches(e, store, productId) then [] else [e]));
        { WithoutSnoc(init, e, store, productId); }
        Without(a, store, productId) + Without(b, store, productId);
      }
    }
  }

  /** No two items share a key. */
  predicate NoDuplicateKeys(items: seq<WatchlistItem>) {
    forall i, j :: 0 <= i < j < |items| ==>
      !Matches(items[j], items[i].store, items[i].productId)
  }

  /** The watchlist store: its one piece of state is `items`. */
  class Watchlist {
    var items: seq<WatchlistItem>

    constructor()
      ensures items == []
    {
      items := [];
    }

    /** `addItem`: a key already present leaves the list as it is; a new key is
        appended as one item, stamped with `now`. */
    method AddItem(productId: string, store: Store, name: string, now: string)
      modifies this
      ensures Contains(old(items), store, productId) ==> items == old(items)
      ensures !Contains(old(items), store, productId) ==>
        items == old(items) + [WatchlistItem(productId, store, name, now)]
      ensures NoDuplicateKeys(old(items)) ==> NoDuplicateKeys(items)
    {
      if !Contains(items, store, productId) {
        AppendPreservesNoDuplicates(items, WatchlistItem(productId, store, name, now));
        items := items + [WatchlistItem(productId, store, name, now)];
      }
    }

    /** `removeItem`: drops every item with the key, keeping the rest in order. */
    method RemoveItem(store: Store, productId: string)
      modifies this
      ensures items == Without(old(items), store, productId)
      ensures !Contains(items, store, productId)
      ensures NoDuplicateKeys(old(items)) ==> NoDuplicateKeys(items)
    {
      WithoutRemovesKey(items, store, productId);
      if NoDuplicateKeys(items) {
        WithoutPreservesNoDuplicates(items, store, productId);
      }
      items := Without(items, store, productId);
    }

    /** `toggleItem`: removes the key when present, otherwise appends it. */
    method ToggleItem(productId: string, store: Store, name: string, now: string)
      modifies this
      ensures Contains(old(items), store, productId) ==>
        items == Without(old(items), store, productId)
      ensures !Contains(old(items), store, productId) ==>
        items == old(items) + [WatchlistItem(productId, store, name, now)]
      ensures Contains(items, store, productId) <==> !Contains(old(items), store, productId)
      ensures NoDuplicateKeys(old(items)) ==> NoDuplicateKeys(items)
    {
      if Contains(items, store, productId) {
        WithoutRemovesKey(items, store, productId);
        if NoDuplicateKeys(items) {
          WithoutPreservesNoDuplicates(items, store, productId);
        }
        items := Without(items, store, productId);
      } else {
        var item := WatchlistItem(productId, store, name, now);
        AppendPreservesNoDuplicates(items, item);
        items := items + [item];
        assert Matches(items[|items| - 1], store, productId);
      }
    }

    /** `hasItem`. */
    method HasItem(store: Store, productId: string) returns (b: bool)
      ensures b <==> exists x :: x in items && Matches(x, store, productId)
    {
      b := Contains(items, store, productId);
      if b {
        var k :| 0 <= k < |items| && Matches(items[k], store, productId);
        assert items[k] in items;
      }
    }

    /** `clear`. */
    method Clear()
      modifies this
      ensures items == []
    {
      items := [];
    }
  }

  // ---------------------------------------------------------------------------
  // Properties of the list operations
  // ---------------------------------------------------------------------------

  /** After a removal the key is gone, and every other key is present exactly
      when it was before. */
  lemma WithoutRemovesKey(items: seq<WatchlistItem>, store: Store, productId: string)
    ensures !Contains(Without(items, store, productId), store, productId)
    ensures forall s: Store, p: string :: (s != store || p != productId) ==>
      (Contains(Without(items, store, productId), s, p) <==> Contains(items, s, p))
  {
    var r := Without(items, store, productId);
    forall s: Store, p: string | s != store || p != productId
      ensures Contains(r, s, p) <==> Contains(items, s, p)
    {
      if Contains(items, s, p) {
        var k :| 0 <= k < |items| && Matches(items[k], s, p);
        assert items[k] in r;
        var j :| 0 <= j < |r| && r[j] == items[k];
      }
      if Contains(r, s, p) {
        var j :| 0 <= j < |r| && Matches(r[j], s, p);
        assert r[j] in items;
        var k :| 0 <= k < |items| && items[k] == r[j];
      }
    }
    forall j | 0 <= j < |r|
      ensures !Matches(r[j], store, productId)
    {
      assert r[j] in r;
    }
  }

  /** Removing a key that is absent changes nothing. */
  lemma {:induction false} WithoutAbsent(items: seq<WatchlistItem>, store: Store, productId: string)
    requires !Contains(items, store, productId)
    ensures Without(items, store, productId) == items
  {
    if items != [] {
      var init := items[..|items| - 1];
      assert !Matches(items[|items| - 1], store, productId);
      forall k | 0 <= k < |init|
        ensures !Matches(init[k], store, productId)
      {
        assert init[k] == items[k];
      }
      WithoutAbsent(init, store, productId);
      assert items == init + [items[|items| - 1]];
    }
  }

  /** Toggling an absent key twice gives back the original list. */
  lemma ToggleTwiceRestores(items: seq<WatchlistItem>, item: WatchlistItem)
    requires !Contains(items, item.store, item.productId)
    ensures Without(items + [item], item.store, item.productId) == items
  {
    var s := items + [item];
    assert s[..|s| - 1] == items;
    WithoutAbsent(items, item.store, item.productId);
  }

  /** Removing a key never introduces a duplicate. */
  lemma {:induction false} WithoutPreservesNoDuplicates(items: seq<WatchlistItem>, store: Store, productId: string)
    requires NoDuplicateKeys(items)
    ensures NoDuplicateKeys(Without(items, store, productId))
  {
    if items != [] {
      var init := items[..|items| - 1];
      var last := items[|items| - 1];
      WithoutPreservesNoDuplicates(init, store, productId);
      var w := Without(init, store, productId);
      if !Matches(last, store, productId) {
        var r := w + [last];
        forall i, j | 0 <= i < j < |r|
          ensures !Matches(r[j], r[i].store, r[i].productId)
        {
          if j == |r| - 1 {
            assert r[i] in init;
            var k :| 0 <= k < |init| && init[k] == r[i];
            assert items[k] == r[i];
          }
        }
      }
    }
  }

  /** Appending an item with a new key keeps the keys distinct. */
  lemma AppendPreservesNoDuplicates(items: seq<WatchlistItem>, item: WatchlistItem)
    requires !Contains(items, item.store, item.productId)
    ensures NoDuplicateKeys(items) ==> NoDuplicateKeys(items + [item])
  {
    var r := items + [item];
    if NoDuplicateKeys(items) {
      forall i, j | 0 <= i < j < |r|
        ensures !Matches(r[j], r[i].store, r[i].productId)
      {
        if j == |r| - 1 {
          assert !Matches(items[i], item.store, item.productId);
        }
      }
    }
  }
}
