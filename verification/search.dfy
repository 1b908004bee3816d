/** The search page: the recent-search list kept in local storage, the
    two-character guard before a query is issued, the query it issues, and
    the query text that category and trending taps put in the box. */
module Search {
  import opened Common
  import opened Records
  import opened Text
  import opened Browse

  /** Entries kept in the recent-search list. */
  const MAX_RECENT := 5
  /** Rows a search asks for. */
  const RESULT_LIMIT := 60

  // ---------------------------------------------------------------------------
  // Recent searches
  // ---------------------------------------------------------------------------

  /** `recent.filter(s => s !== q)`. */
  function Without(recent: seq<string>, q: string): (r: seq<string>)
    ensures forall s :: s in r <==> s in recent && s != q
    ensures |r| <= |recent|
  {
    if recent == [] then []
    else
      var s := recent[|recent| - 1];
      Without(recent[..|recent| - 1], q) + (if s != q then [s] else [])
  }

  lemma WithoutSnoc(recent: seq<string>, e: string, q: string)
    ensures Without(recent + [e], q) == Without(recent, q) + (if e != q then [e] else [])
  {
    assert (recent + [e])[..|recent|] == recent;
  }

  /** The entries other than `q` keep their relative order: filtering a
      concatenation is filtering each part. */
  lemma {:induction false} WithoutAppend(a: seq<string>, b: seq<string>, q: string)
    ensures Without(a + b, q) == Without(a, q) + Without(b, q)
    decreases |b|
  {
    if b == [] {
      assert a + b == a;
    } else {
      var init, e := b[..|b| - 1], b[|b| - 1];
      assert b == init + [e];
      calc {
        Without(a + b, q);
        { assert a + b == (a + init) + [e]; }
        Without((a + init) + [e], q);
        { WithoutSnoc(a + init, e, q); }
        Without(a + init, q) + (if e != q then [e] else []);
        { WithoutAppend(a, init, q); }
        (Without(a, q) + Without(init, q)) + (if e != q then [e] else []);
        Without(a, q) + (Without(init, q) + (if e != q then [e] else []));
        { WithoutSnoc(init, e, q); }
        Without(a, q) + Without(b, q);
      }
    }
  }

  /** The list `saveRecentSearch(q)` stores: `q` first, then the earlier
      entries other than `q` in their order, cut to five. */
  function SaveRecent(recent: seq<string>, q: string): (r: seq<string>)
    ensures 1 <= |r| <= MAX_RECENT
    ensures |r| == Min(MAX_RECENT, 1 + |Without(recent, q)|)
    ensures r[0] == q
    ensures forall i :: 1 <= i < |r| ==> r[i] != q
    ensures r[1..] == Without(recent, q)[..|r| - 1]
  {
    var r := Take([q] + Without(recent, q), MAX_RECENT);
    assert r[1..] == ([q] + Without(recent, q))[1..|r|];
    assert forall i :: 1 <= i < |r| ==> r[i] in Without(recent, q);
    r
  }

  /** Saving the same query again changes nothing. */
  lemma SaveRecentIdempotent(recent: seq<string>, q: string)
    ensures SaveRecent(SaveRecent(recent, q), q) == SaveRecent(recent, q)
  {
    var r := SaveRecent(recent, q);
    WithoutAbsent(r[1..], q);
    assert r == [q] + r[1..];
    WithoutCons(q, r[1..]);
    var r2 := SaveRecent(r, q);
    assert |r2| == |r|;
    assert r2[1..] == r[1..];
  }

  lemma {:induction false} WithoutAbsent(xs: seq<string>, q: string)
    requires q !in xs
    ensures Without(xs, q) == xs
  {
    if xs != [] {
      WithoutAbsent(xs[..|xs| - 1], q);
      assert xs == xs[..|xs| - 1] + [xs[|xs| - 1]];
    }
  }

  lemma {:induction false} WithoutCons(q: string, xs: seq<string>)
    ensures Without([q] + xs, q) == Without(xs, q)
    decreases |xs|
  {
    if xs != [] {
      var init := xs[..|xs| - 1];
      assert ([q] + xs)[..|xs|] == [q] + init;
      WithoutCons(q, init);
    }
  }

  predicate NoRepeats(xs: seq<string>) {
    forall i, j :: 0 <= i < j < |xs| ==> xs[i] != xs[j]
  }

  /** A list without repeats stays without repeats. */
  lemma SaveRecentDistinct(recent: seq<string>, q: string)
    requires NoRepeats(recent)
    ensures NoRepeats(SaveRecent(recent, q))
  {
    var w := Without(recent, q);
    WithoutDistinct(recent, q);
    var r := SaveRecent(recent, q);
    forall i, j | 0 <= i < j < |r| ensures r[i] != r[j] {
      if i > 0 {
        assert r[i] == r[1..][i - 1] == w[i - 1];
        assert r[j] == r[1..][j - 1] == w[j - 1];
      }
    }
  }

  lemma {:induction false} WithoutDistinct(recent: seq<string>, q: string)
    requires NoRepeats(recent)
    ensures NoRepeats(Without(recent, q))
  {
    if recent != [] {
      var init := recent[..|recent| - 1];
      var s := recent[|recent| - 1];
      assert NoRepeats(init);
      WithoutDistinct(init, q);
      var w0 := Without(init, q);
      if s != q {
        assert s !in init;
        var w := Without(recent, q);
        assert w == w0 + [s];
        forall i, j | 0 <= i < j < |w| ensures w[i] != w[j] {
          if j == |w| - 1 {
            assert w[i] == w0[i] && w0[i] in w0;
          } else {
            assert w[i] == w0[i] && w[j] == w0[j];
          }
        }
      }
    }
  }

  /** The list kept in local storage under "bravo_recent_searches". */
  class RecentSearches {
    var entries: seq<string>

    constructor()
      ensures entries == []
    {
      entries := [];
    }

    /** `saveRecentSearch(q)`: filter out `q`, put it first, keep five. */
    method Save(q: string)
      modifies this
      ensures entries == SaveRecent(old(entries), q)
    {
      var kept: seq<string> := [];
      var i := 0;
      while i < |entries|
        invariant 0 <= i <= |entries|
        invariant kept == Without(entries[..i], q)
      {
        assert entries[..i + 1][..i] == entries[..i];
        if entries[i] != q {
          kept := kept + [entries[i]];
        }
        i := i + 1;
      }
      assert entries[..|entries|] == entries;
      kept := [q] + kept;
      if |kept| > MAX_RECENT {
        kept := kept[..MAX_RECENT];
      }
      entries := kept;
    }

    /** `clearRecentSearches()`. */
    method Clear()
      modifies this
      ensures entries == []
    {
      entries := [];
    }
  }

  // ---------------------------------------------------------------------------
  // doSearch
  // ---------------------------------------------------------------------------

  /** The specials query a search issues: a case-insensitive substring
      pattern on the name, an optional store, and a row limit. */
  datatype SearchRequest = SearchRequest(namePattern: string, store: Option<Store>, limit: nat)

  /** The query for `q`, or none when the trimmed text is under two UTF-16
      code units long. */
  function PlanSearch(q: string, store: Option<Store>): (r: Option<SearchRequest>)
    ensures r.None? <==> JsLength(JsTrim(q)) < 2
    ensures r.None? ==> |JsTrim(q)| < 2
    ensures r.Some? ==> r.value == SearchRequest("%" + JsTrim(q) + "%", store, RESULT_LIMIT)
  {
    var t := JsTrim(q);
    if JsLength(t) < 2 then None else Some(SearchRequest("%" + t + "%", store, RESULT_LIMIT))
  }

  /** One character outside the Basic Multilingual Plane, such as the milk
      emoji of the Dairy chip, is two code units long and so is searched. */
  lemma AstralCharIsSearched(c: char, store: Option<Store>)
    requires c as int > 0xFFFF
    ensures PlanSearch([c], store).Some?
  {
    var s := [c];
    assert c !in JS_WHITESPACE;
    var t := JsTrim(s);
    assert t == s;
    assert s[..0] == [];
  }

  /** `terms[0]` of a quick-category query: its first space-separated word. */
  function CategoryTerm(catQuery: string): (t: string)
    ensures ' ' !in t
    ensures |t| <= |catQuery| && t == catQuery[..|t|]
    ensures |t| < |catQuery| ==> catQuery[|t|] == ' '
    ensures ' ' !in catQuery ==> t == catQuery
  {
    SplitHead(catQuery);
    assert ' ' !in catQuery ==> SpaceIndex(catQuery) == |catQuery|;
    Split(catQuery)[0]
  }

  /** `name.split(" ").slice(0, 2).join(" ")`: the first two words of a
      trending special's name. The result is a prefix of the name holding at
      most one space; when it stops short of the whole name, it stops at the
      second space and so holds exactly one. */
  function TrendingQuery(name: string): (t: string)
    ensures |t| <= |name| && t == name[..|t|]
    ensures forall i, j :: 0 <= i < j < |t| && t[i] == ' ' ==> t[j] != ' '
    ensures |t| < |name| ==> name[|t|] == ' ' && ' ' in t
  {
    TrendingWords(name);
    Join(Take(Split(name), 2))
  }

  /** `t` is cut from the front of `name`, holds at most one space, and when
      it stops short of `name` it stops at a space, having taken one. */
  predicate TwoWordPrefix(t: string, name: string) {
    && |t| <= |name| && t == name[..|t|]
    && (forall i, j :: 0 <= i < j < |t| && t[i] == ' ' ==> t[j] != ' ')
    && (|t| < |name| ==> name[|t|] == ' ' && ' ' in t)
  }

  lemma TrendingWords(name: string)
    ensures TwoWordPrefix(Join(Take(Split(name), 2)), name)
  {
    if |Split(name)| == 1 {
      TrendingOneWord(name);
    } else {
      TrendingTwoWords(name);
    }
  }

  lemma TrendingOneWord(name: string)
    requires |Split(name)| == 1
    ensures TwoWordPrefix(Join(Take(Split(name), 2)), name)
  {
    var parts := Split(name);
    PartNoSpace(name, 0);
    JoinSplit(name);
    assert Take(parts, 2) == parts;
  }

  lemma TrendingTwoWords(name: string)
    requires |Split(name)| >= 2
    ensures TwoWordPrefix(Join(Take(Split(name), 2)), name)
  {
    var parts := Split(name);
    var a, b := parts[0], parts[1];
    PartNoSpace(name, 0);
    PartNoSpace(name, 1);
    JoinSplit(name);
    assert Take(parts, 2) == parts[..2] == [a, b];
    JoinOfTwo([a, b], a, b, a + " " + b);
    TwoWordsOneSpace(a, b);
    if |parts| > 2 {
      JoinAt(parts, 2);
    }
  }

  lemma PartNoSpace(s: string, k: nat)
    requires k < |Split(s)|
    ensures forall j :: 0 <= j < |Split(s)[k]| ==> Split(s)[k][j] != ' '
  {
    SplitNoSpace(s);
  }

  /** Two words without spaces joined by one space hold that space only. */
  lemma TwoWordsOneSpace(a: string, b: string)
    requires forall j :: 0 <= j < |a| ==> a[j] != ' '
    requires forall j :: 0 <= j < |b| ==> b[j] != ' '
    ensures var t := a + " " + b;
      (forall i, j :: 0 <= i < j < |t| && t[i] == ' ' ==> t[j] != ' ') && ' ' in t
  {
    var t := a + " " + b;
    assert t[|a|] == ' ';
    forall k | 0 <= k < |t| && k != |a| ensures t[k] != ' ' {
      if k > |a| {
        assert t[k] == b[k - |a| - 1];
      }
    }
  }

  lemma JoinOfTwo(parts: seq<string>, a: string, b: string, s: string)
    requires parts == [a, b] && s == a + " " + b
    ensures Join(parts) == s
  {
    assert parts[1..] == [b];
  }

  /** The state of the search page that the handlers change. */
  class SearchPage {
    var query: string
    var results: seq<Special>
    var hasSearched: bool
    var recent: RecentSearches

    constructor()
      ensures query == "" && results == [] && !hasSearched && fresh(recent) && recent.entries == []
    {
      query := "";
      results := [];
      hasSearched := false;
      recent := new RecentSearches();
    }

    /** `doSearch(q, store)`; `data` is what the database answers to the
        planned request. A short query clears the results and issues nothing;
        otherwise the answer is shown and the trimmed query saved. */
    method DoSearch(q: string, store: Option<Store>, data: seq<Special>) returns (issued: Option<SearchRequest>)
      modifies this, recent
      ensures issued == PlanSearch(q, store)
      ensures issued.None? ==> results == [] && !hasSearched && recent.entries == old(recent.entries)
      ensures issued.Some? ==>
        results == data && hasSearched && recent.entries == SaveRecent(old(recent.entries), JsTrim(q))
      ensures query == old(query) && recent == old(recent)
    {
      issued := PlanSearch(q, store);
      if issued.None? {
        results := [];
        hasSearched := false;
        return;
      }
      hasSearched := true;
      results := data;
      recent.Save(JsTrim(q));
    }

    /** The clear button. */
    method ClearQuery()
      modifies this
      ensures query == "" && results == [] && !hasSearched && recent == old(recent)
    {
      query := "";
      results := [];
      hasSearched := false;
    }

    /** `handleCategoryTap`. */
    method CategoryTap(catQuery: string)
      modifies this
      ensures query == CategoryTerm(catQuery)
      ensures results == old(results) && hasSearched == old(hasSearched) && recent == old(recent)
    {
      query := Split(catQuery)[0];
    }

    /** `handleRecentTap`: the recent query goes back into the box as it was saved. */
    method RecentTap(q: string)
      modifies this
      ensures query == q
      ensures results == old(results) && hasSearched == old(hasSearched) && recent == old(recent)
    {
      query := q;
    }

    /** A tap on a trending special. */
    method TrendingTap(name: string)
      modifies this
      ensures query == TrendingQuery(name)
      ensures results == old(results) && hasSearched == old(hasSearched) && recent == old(recent)
    {
      query := Join(Take(Split(name), 2));
    }
  }
}
