/** The "Watching" page: the watchlist joined to specials and intel, split
    into items on sale and items waiting, with at most one item expanded. */
module Watching {
  import opened Common
  import opened Records
  import opened Text
  import opened MyList
  import opened Joins

  /** The "on sale now" and "waiting" lists, in watchlist order. */
  function OnSale(items: seq<WatchlistItem>, specials: seq<Special>, intel: seq<SpecialIntel>): (r: seq<Enriched>)
    ensures forall e :: e in r <==> e in Enrich(items, specials, intel) && e.special.Some?
  {
    OnSpecial(Enrich(items, specials, intel))
  }

  function Waiting(items: seq<WatchlistItem>, specials: seq<Special>, intel: seq<SpecialIntel>): (r: seq<Enriched>)
    ensures forall e :: e in r <==> e in Enrich(items, specials, intel) && e.special.None?
  {
    NotOnSpecial(Enrich(items, specials, intel))
  }

  /** Every watched item appears in exactly one of the two lists. */
  lemma WatchingPartition(items: seq<WatchlistItem>, specials: seq<Special>, intel: seq<SpecialIntel>)
    ensures |OnSale(items, specials, intel)| + |Waiting(items, specials, intel)| == |items|
    ensures multiset(OnSale(items, specials, intel)) + multiset(Waiting(items, specials, intel))
         == multiset(Enrich(items, specials, intel))
    ensures forall e :: e in OnSale(items, specials, intel) ==> e.special.Some?
    ensures forall e :: e in Waiting(items, specials, intel) ==> e.special.None?
  {
    SpecialPartition(Enrich(items, specials, intel));
  }

  /** The new `expandedItem` after a click on `key`: the expanded row
      collapses, any other row becomes the only expanded one. */
  function ExpandAfterClick(expanded: Option<string>, key: string): (r: Option<string>)
    ensures expanded == Some(key) ==> r.None?
    ensures expanded != Some(key) ==> r == Some(key)
  {
    if expanded == Some(key) then None else Some(key)
  }

  /** Clicking the same row twice from collapsed gives back the collapsed
      state; a click on another row replaces the expanded one. */
  lemma ClickTwice(expanded: Option<string>, key: string)
    requires expanded != Some(key)
    ensures ExpandAfterClick(ExpandAfterClick(expanded, key), key) == None
  {
  }

  /** The page's one piece of state the rows change. */
  class WatchingView {
    var expanded: Option<string>

    constructor()
      ensures expanded.None?
    {
      expanded := None;
    }

    /** `setExpandedItem(isExpanded ? null : key)`. */
    method Click(store: Store, productId: string)
      modifies this
      ensures expanded == ExpandAfterClick(old(expanded), ItemKey(store, productId))
    {
      var key := ItemKey(store, productId);
      if expanded == Some(key) {
        expanded := None;
      } else {
        expanded := Some(key);
      }
    }

    /** `isExpanded` for the row of (store, productId). */
    method IsExpanded(store: Store, productId: string) returns (b: bool)
      ensures b <==> expanded == Some(ItemKey(store, productId))
    {
      b := expanded == Some(ItemKey(store, productId));
    }
  }

  /** "{n} item{s} tracked": the "s" is dropped only for exactly one. */
  function TrackedText(n: nat): (r: string)
    ensures n == 1 ==> r == "1 item tracked"
    ensures n != 1 ==> r == IntToString(n) + " items tracked"
  {
    IntToString(n) + " item" + (if n != 1 then "s" else "") + " tracked"
  }
}
