/** Shop mode: the watched items that are on special now, split by store,
    each with a check mark the shopper toggles, and the total saving. */
module Shop {
  import opened Common
  import opened Records
  import opened MyList
  import opened Joins

  /** A row of the shopping list. */
  datatype ShopItem = ShopItem(productId: string, store: Store, name: string, special: Special, checked: bool)

  function ShopItemOf(w: WatchlistItem, s: Special, checked: set<string>): ShopItem {
    ShopItem(w.productId, w.store, w.name, s, ItemKey(w.store, w.productId) in checked)
  }

  /** `shopItems`: the watched items with a special, in watchlist order,
      each carrying the first matching special and its check mark. */
  function ShopItems(items: seq<WatchlistItem>, specials: seq<Special>, checked: set<string>): (r: seq<ShopItem>)
    ensures |r| <= |items|
    ensures forall x :: x in r ==>
      FindSpecial(specials, x.store, x.productId) == Some(x.special)
      && (x.checked <==> ItemKey(x.store, x.productId) in checked)
    ensures forall x :: x in r <==>
      exists w :: w in items && FindSpecial(specials, w.store, w.productId).Some?
        && x == ShopItemOf(w, FindSpecial(specials, w.store, w.productId).value, checked)
  {
    if items == [] then []
    else
      var init := items[..|items| - 1];
      var w := items[|items| - 1];
      assert items == init + [w];
      var s := FindSpecial(specials, w.store, w.productId);
      ShopItems(init, specials, checked) + (if s.Some? then [ShopItemOf(w, s.value, checked)] else [])
  }

  lemma ShopItemsSnoc(items: seq<WatchlistItem>, e: WatchlistItem, specials: seq<Special>, checked: set<string>)
    ensures ShopItems(items + [e], specials, checked) == ShopItems(items, specials, checked) + (if FindSpecial(specials, e.store, e.productId).Some? then [ShopItemOf(e, FindSpecial(specials, e.store, e.productId).value, checked)] else [])
  {
    assert (items + [e])[..|items|] == items;
  }

  /** The rows follow the watchlist order: the rows of a concatenation are the
      rows of each part. */
  lemma {:induction false} ShopItemsAppend(a: seq<WatchlistItem>, b: seq<WatchlistItem>, specials: seq<Special>, checked: set<string>)
    ensures ShopItems(a + b, specials, checked) == ShopItems(a, specials, checked) + ShopItems(b, specials, checked)
    decreases |b|
  {
    if b == [] {
      assert a + b == a;
    } else {
      var init, e := b[..|b| - 1], b[|b| - 1];
      assert b == init + [e];
      calc {
        ShopItems(a + b, specials, checked);
        { assert a + b == (a + init) + [e]; }
        ShopItems((a + init) + [e], specials, checked);
        { ShopItemsSnoc(a + init, e, specials, checked); }
        ShopItems(a + init, specials, checked) + (if FindSpecial(specials, e.store, e.productId).Some? then [ShopItemOf(e, FindSpecial(specials, e.store, e.productId).value, checked)] else []);
        { ShopItemsAppend(a, init, specials, checked); }
        (ShopItems(a, specials, checked) + ShopItems(init, specials, checked)) + (if FindSpecial(specials, e.store, e.productId).Some? then [ShopItemOf(e, FindSpecial(specials, e.store, e.productId).value, checked)] else []);
        ShopItems(a, specials, checked) + (ShopItems(init, specials, checked) + (if FindSpecial(specials, e.store, e.productId).Some? then [ShopItemOf(e, FindSpecial(specials, e.store, e.productId).value, checked)] else []));
        { ShopItemsSnoc(init, e, specials, checked); }
        ShopItems(a, specials, checked) + ShopItems(b, specials, checked);
      }
    }
  }

  /** `shopItems.filter(i => i.store === store)`. */
  function Section(shop: seq<ShopItem>, store: Store): (r: seq<ShopItem>)
    ensures forall x :: x in r <==> x in shop && x.store == store
    ensures |r| <= |shop|
  {
    if shop == [] then []
    else
      var x := shop[|shop| - 1];
      Section(shop[..|shop| - 1], store) + (if x.store == store then [x] else [])
  }

  lemma SectionSnoc(shop: seq<ShopItem>, e: ShopItem, store: Store)
    ensures Section(shop + [e], store) == Section(shop, store) + (if e.store == store then [e] else [])
  {
    assert (shop + [e])[..|shop|] == shop;
  }

  /** A section keeps the list order: the section of a concatenation is the
      section of each part. */
  lemma {:induction false} SectionAppend(a: seq<ShopItem>, b: seq<ShopItem>, store: Store)
    ensures Section(a + b, store) == Section(a, store) + Section(b, store)
    decreases |b|
  {
    if b == [] {
      assert a + b == a;
    } else {
      var init, e := b[..|b| - 1], b[|b| - 1];
      assert b == init + [e];
      calc {
        Section(a + b, store);
        { assert a + b == (a + init) + [e]; }
        Section((a + init) + [e], store);
        { SectionSnoc(a + init, e, store); }
        Section(a + init, store) + (if e.store == store then [e] else []);
        { SectionAppend(a, init, store); }
        (Section(a, store) + Section(init, store)) + (if e.store == store then [e] else []);
        Section(a, store) + (Section(init, store) + (if e.store == store then [e] else []));
        { SectionSnoc(init, e, store); }
        Section(a, store) + Section(b, store);
      }
    }
  }

  /** `totalSavings`: original minus current price, summed over the rows
      whose special has a truthy original price. */
  function TotalSavings(shop: seq<ShopItem>): real {
    if shop == [] then 0.0
    else
      var x := shop[|shop| - 1];
      TotalSavings(shop[..|shop| - 1])
        + (if RealTruthy(x.special.originalPrice) then x.special.originalPrice.value - x.special.currentPrice else 0.0)
  }

  lemma SavingsSnoc(shop: seq<ShopItem>, x: ShopItem)
    ensures TotalSavings(shop + [x]) == TotalSavings(shop)
      + (if RealTruthy(x.special.originalPrice) then x.special.originalPrice.value - x.special.currentPrice else 0.0)
  {
    assert (shop + [x])[..|shop|] == shop;
  }

  /** The two store sections split the list. */
  lemma {:induction false} SectionsSplit(shop: seq<ShopItem>)
    ensures |Section(shop, Woolworths)| + |Section(shop, Coles)| == |shop|
  {
    if shop != [] {
      var init := shop[..|shop| - 1];
      SectionsSplit(init);
    }
  }

  /** The saving of the whole list is the sum of the two sections' savings. */
  lemma {:induction false} SavingsSplit(shop: seq<ShopItem>)
    ensures TotalSavings(Section(shop, Woolworths)) + TotalSavings(Section(shop, Coles)) == TotalSavings(shop)
  {
    if shop != [] {
      var init := shop[..|shop| - 1];
      var x := shop[|shop| - 1];
      SavingsSplit(init);
      var w0, c0 := Section(init, Woolworths), Section(init, Coles);
      if x.store == Woolworths {
        assert Section(shop, Woolworths) == w0 + [x];
        assert Section(shop, Coles) == c0;
        SavingsSnoc(w0, x);
      } else {
        assert Section(shop, Coles) == c0 + [x];
        assert Section(shop, Woolworths) == w0;
        SavingsSnoc(c0, x);
      }
    }
  }

  /** A saving is never negative when no special costs more than its
      original price. */
  lemma {:induction false} SavingsNonNegative(shop: seq<ShopItem>)
    requires forall x :: x in shop && x.special.originalPrice.Some? ==>
      x.special.originalPrice.value >= x.special.currentPrice
    ensures TotalSavings(shop) >= 0.0
  {
    if shop != [] {
      var init := shop[..|shop| - 1];
      assert forall x :: x in init ==> x in shop;
      SavingsNonNegative(init);
      assert shop[|shop| - 1] in shop;
    }
  }

  /** The check set after `toggleCheck`: the key leaves if it was in,
      joins otherwise. */
  function Toggled(checked: set<string>, key: string): (r: set<string>)
    ensures key in r <==> key !in checked
    ensures forall k :: k != key ==> (k in r <==> k in checked)
  {
    if key in checked then checked - {key} else checked + {key}
  }

  /** Toggling the same key twice gives the set back. */
  lemma ToggleTwice(checked: set<string>, key: string)
    ensures Toggled(Toggled(checked, key), key) == checked
  {
  }

  /** Toggling one item's key leaves every other item's mark alone. */
  lemma ToggleOtherItems(checked: set<string>, s1: Store, p1: string, s2: Store, p2: string)
    requires s1 != s2 || p1 != p2
    ensures ItemKey(s2, p2) in Toggled(checked, ItemKey(s1, p1)) <==> ItemKey(s2, p2) in checked
  {
    if ItemKey(s1, p1) == ItemKey(s2, p2) {
      ItemKeyInjective(s1, p1, s2, p2);
    }
  }

  /** The page's check-mark state. */
  class ShopView {
    var checked: set<string>

    constructor()
      ensures checked == {}
    {
      checked := {};
    }

    /** `toggleCheck(store, productId)`. */
    method ToggleCheck(store: Store, productId: string)
      modifies this
      ensures checked == Toggled(old(checked), ItemKey(store, productId))
    {
      var next := checked;
      var key := ItemKey(store, productId);
      if key in next {
        next := next - {key};
      } else {
        next := next + {key};
      }
      checked := next;
    }
  }

  /** The section counter: how many rows of the section are checked. */
  function CheckedCount(section: seq<ShopItem>, checked: set<string>): (n: nat)
    ensures n <= |section|
    ensures n == |section| <==> forall x :: x in section ==> ItemKey(x.store, x.productId) in checked
  {
    if section == [] then 0
    else
      var init := section[..|section| - 1];
      var x := section[|section| - 1];
      assert forall y :: y in section <==> y in init || y == x;
      CheckedCount(init, checked) + (if ItemKey(x.store, x.productId) in checked then 1 else 0)
  }
}
