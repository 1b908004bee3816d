/** The "My List" home page: the watchlist joined to the specials and intel,
    items on special first, then the waiting ones soonest-expected first,
    and the header and banner texts. */
module Home {
  import opened Common
  import opened Records
  import opened Text
  import opened MyList
  import opened Joins

  /** The sort key of a waiting item: `intel?.expected_days_until_next ?? 999`. */
  function ExpectedOr999(e: Enriched): (k: int)
    ensures e.intel.Some? && e.intel.value.stats.expectedDaysUntilNext.Some? ==>
      k == e.intel.value.stats.expectedDaysUntilNext.value
    ensures e.intel.None? || e.intel.value.stats.expectedDaysUntilNext.None? ==> k == 999
  {
    if e.intel.Some? && e.intel.value.stats.expectedDaysUntilNext.Some? then
      e.intel.value.stats.expectedDaysUntilNext.value
    else 999
  }

  predicate SortedByExpected(es: seq<Enriched>) {
    forall i, j :: 0 <= i < j < |es| ==> ExpectedOr999(es[i]) <= ExpectedOr999(es[j])
  }

  /** Places `e` before the first entry with a strictly larger key, so it
      stays ahead of its equals. */
  function InsertByExpected(e: Enriched, sorted: seq<Enriched>): (r: seq<Enriched>)
    requires SortedByExpected(sorted)
    ensures SortedByExpected(r)
    ensures multiset(r) == multiset(sorted) + multiset{e}
    ensures |r| == |sorted| + 1
    ensures r[0] == e || (sorted != [] && r[0] == sorted[0])
  {
    if sorted == [] || ExpectedOr999(e) <= ExpectedOr999(sorted[0]) then
      [e] + sorted
    else
      var t := InsertByExpected(e, sorted[1..]);
      assert sorted == [sorted[0]] + sorted[1..];
      [sorted[0]] + t
  }

  /** The `waiting` sort: ascending by `ExpectedOr999`, equal keys in their
      original order. */
  function SortByExpected(es: seq<Enriched>): (r: seq<Enriched>)
    ensures SortedByExpected(r)
    ensures multiset(r) == multiset(es)
    ensures |r| == |es|
  {
    if es == [] then []
    else
      assert es == [es[0]] + es[1..];
      InsertByExpected(es[0], SortByExpected(es[1..]))
  }

  /** The two lists the page renders. */
  function OnSpecialList(items: seq<WatchlistItem>, specials: seq<Special>, intel: seq<SpecialIntel>): (r: seq<Enriched>)
    ensures forall e :: e in r <==> e in Enrich(items, specials, intel) && e.special.Some?
  {
    OnSpecial(Enrich(items, specials, intel))
  }

  function WaitingList(items: seq<WatchlistItem>, specials: seq<Special>, intel: seq<SpecialIntel>): (r: seq<Enriched>)
    ensures SortedByExpected(r)
    ensures forall e :: e in r <==> e in Enrich(items, specials, intel) && e.special.None?
  {
    var w := NotOnSpecial(Enrich(items, specials, intel));
    SortedSameMembers(w);
    SortByExpected(w)
  }

  lemma SortedSameMembers(es: seq<Enriched>)
    ensures forall e :: e in SortByExpected(es) <==> e in es
  {
    var r := SortByExpected(es);
    assert forall e :: e in r <==> e in multiset(r);
    assert forall e :: e in es <==> e in multiset(es);
  }

  /** The two lists split the watchlist: their sizes add up to its size and
      together they hold exactly the enriched items; the waiting list is
      sorted and holds only items without a special. */
  lemma HomeListsPartition(items: seq<WatchlistItem>, specials: seq<Special>, intel: seq<SpecialIntel>)
    ensures var on := OnSpecialList(items, specials, intel);
            var waiting := WaitingList(items, specials, intel);
      |on| + |waiting| == |items|
      && multiset(on) + multiset(waiting) == multiset(Enrich(items, specials, intel))
      && SortedByExpected(waiting)
      && (forall e :: e in on ==> e.special.Some?)
      && (forall e :: e in waiting ==> e.special.None?)
  {
    var es := Enrich(items, specials, intel);
    SpecialPartition(es);
    var w := SortByExpected(NotOnSpecial(es));
    forall e | e in w ensures e.special.None? {
      assert e in multiset(w);
    }
  }

  /** The line under the heading; none for an empty watchlist. */
  function HeaderText(watchCount: nat, onSpecialCount: nat): (r: Option<string>)
    ensures r.None? <==> watchCount == 0
    ensures r.Some? && onSpecialCount > 0 ==> r.value == IntToString(onSpecialCount) + " on special today"
    ensures r.Some? && onSpecialCount == 0 ==> r.value == "Nothing on special right now"
  {
    if watchCount == 0 then None
    else if onSpecialCount > 0 then Some(IntToString(onSpecialCount) + " on special today")
    else Some("Nothing on special right now")
  }

  /** The "start shopping" banner, shown only when something is on special;
      "item" takes an "s" only for more than one. */
  function BannerText(watchCount: nat, onSpecialCount: nat): (r: Option<string>)
    ensures r.Some? <==> watchCount > 0 && onSpecialCount > 0
  {
    if watchCount > 0 && onSpecialCount > 0 then
      Some("Start shopping \U{2014} " + IntToString(onSpecialCount) + " item"
           + (if onSpecialCount > 1 then "s" else "") + " on special")
    else None
  }

  /** The plural appears exactly when more than one item is on special. */
  lemma BannerPlural(watchCount: nat, n: nat)
    requires watchCount > 0 && n > 0
    ensures var t := BannerText(watchCount, n).value;
      var prefix := "Start shopping \U{2014} " + IntToString(n) + " item";
      t[..|prefix|] == prefix
      && (n > 1 <==> t[|prefix|..] == "s on special")
      && (n == 1 <==> t[|prefix|..] == " on special")
  {
    var prefix := "Start shopping \U{2014} " + IntToString(n) + " item";
    var t := BannerText(watchCount, n).value;
    if n > 1 {
      assert t == prefix + "s on special";
      assert t[|prefix|..] == "s on special";
    } else {
      assert t == prefix + " on special";
      assert t[|prefix|..] == " on special";
    }
  }
}
