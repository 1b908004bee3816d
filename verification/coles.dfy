/** The Coles scraper's decision logic: turning one search result of the
    decoded page data into a normalised special, extracting all of a page's
    products, and the page loop of the specials scrape with its failure
    counter and stopping rules. Fetching, bot-challenge detection and the
    decoding of the embedded page data are outside the model: a page arrives
    as one of four outcomes. */
module Coles {
  import opened Common
  import opened Records
  import opened Text
  import opened Discount
  import opened Dedup

  const BASE_URL := "https://www.coles.com.au"
  const IMAGE_CDN := "https://cdn.productimages.coles.com.au/productimages"
  const MAX_CONSECUTIVE_FAILURES := 3

  /** The `pricing` object of a result; an absent object has every field absent. */
  datatype ColesPricing = ColesPricing(
    now: Option<real>,
    was: Option<real>,
    saveAmount: Option<real>,
    promotionType: Option<string>)

  /** One element of `onlineHeirs`: an object with its two category fields, or
      any other JSON value. */
  datatype Heir = HeirRecord(subCategory: Option<string>, category: Option<string>) | HeirOther

  /** The `id` of a result as JSON carries it. */
  datatype JsonId = IdAbsent | IdNull | IdText(s: string) | IdNumber(n: int)

  /** One element of `searchResults.results`. An absent `name` is the empty
      string, absent lists are empty. */
  datatype ColesResult = ColesResult(
    typeTag: Option<string>,
    id: JsonId,
    name: string,
    brand: Option<string>,
    size: Option<string>,
    pricing: ColesPricing,
    imageUris: seq<Option<string>>,
    onlineHeirs: seq<Heir>)

  /** `props.pageProps.searchResults`; an absent `noOfResults` is 0. */
  datatype SearchResults = SearchResults(noOfResults: int, results: seq<ColesResult>)

  /** `str(r.get("id", ""))`. */
  function IdString(id: JsonId): string {
    match id
    case IdAbsent => ""
    case IdNull => "None"
    case IdText(s) => s
    case IdNumber(n) => IntToString(n)
  }

  /** `special_type`: half price from a 48% working discount up, otherwise
      reduced when a promotion type is named. */
  function ColesSpecialType(discount: int, promo: Option<string>): (t: Option<SpecialType>)
    ensures t == Some(HalfPrice) <==> discount >= 48
    ensures t == Some(Reduced) <==> discount < 48 && StrTruthy(promo)
    ensures t.None? <==> discount < 48 && !StrTruthy(promo)
  {
    if discount >= 48 then Some(HalfPrice) else if StrTruthy(promo) then Some(Reduced) else None
  }

  /** `image_url`: the CDN prefix and the first image's uri, when there is a
      first image and its uri is non-empty. Later images are never consulted. */
  function ColesImage(uris: seq<Option<string>>): (r: Option<string>)
    ensures r.Some? <==> uris != [] && StrTruthy(uris[0])
    ensures r.Some? ==> r.value == IMAGE_CDN + uris[0].value
  {
    if uris != [] && StrTruthy(uris[0]) then Some(IMAGE_CDN + uris[0].value) else None
  }

  /** `category`: the first heir's sub-category, else its category, and only
      when the first heir is an object. */
  function ColesCategory(heirs: seq<Heir>): (r: Option<string>)
    ensures heirs == [] || heirs[0].HeirOther? ==> r.None?
    ensures heirs != [] && heirs[0].HeirRecord? && StrTruthy(heirs[0].subCategory) ==>
      r == heirs[0].subCategory
    ensures heirs != [] && heirs[0].HeirRecord? && !StrTruthy(heirs[0].subCategory) ==>
      r == heirs[0].category
  {
    if heirs != [] && heirs[0].HeirRecord? then StrOr(heirs[0].subCategory, heirs[0].category) else None
  }

  /** One result of `_extract_products`: skipped unless it is a product with a
      current price. */
  function ParseColesResult(r: ColesResult): (p: Option<Product>)
    ensures p.Some? <==> r.typeTag == Some("PRODUCT") && r.pricing.now.Some?
    ensures p.Some? ==>
      var d := DiscountPct(r.pricing.was, r.pricing.saveAmount);
      p.value.store == Coles
      && p.value.productId == IdString(r.id)
      && p.value.productUrl == Some(BASE_URL + "/product/" + p.value.productId)
      && p.value.name == r.name && p.value.brand == r.brand && p.value.size == r.size
      && p.value.currentPrice == r.pricing.now.value
      && p.value.originalPrice == OriginalPrice(r.pricing.was)
      && p.value.discountPct == EmittedDiscount(d)
      && p.value.specialType == ColesSpecialType(d, r.pricing.promotionType)
      && p.value.imageUrl == ColesImage(r.imageUris)
      && p.value.category == ColesCategory(r.onlineHeirs)
  {
    if r.typeTag != Some("PRODUCT") || r.pricing.now.None? then None
    else
      var d := DiscountPct(r.pricing.was, r.pricing.saveAmount);
      var id := IdString(r.id);
      Some(Product(
        store := Coles,
        productId := id,
        name := r.name,
        brand := r.brand,
        category := ColesCategory(r.onlineHeirs),
        currentPrice := r.pricing.now.value,
        originalPrice := OriginalPrice(r.pricing.was),
        discountPct := EmittedDiscount(d),
        imageUrl := ColesImage(r.imageUris),
        productUrl := Some(BASE_URL + "/product/" + id),
        specialType := ColesSpecialType(d, r.pricing.promotionType),
        size := r.size))
  }

  /** A Coles special marked half price always shows a discount of at least
      48%, and one with a discount shows an original price. */
  lemma ColesHalfPriceShowsDiscount(r: ColesResult)
    requires ParseColesResult(r).Some?
    ensures var p := ParseColesResult(r).value;
            (p.specialType == Some(HalfPrice) ==> p.discountPct.Some? && p.discountPct.value >= 48)
            && (p.discountPct.Some? ==> p.originalPrice.Some?)
  {
    DiscountNeedsOriginal(r.pricing.was, r.pricing.saveAmount);
  }

  /** The products of a list of results, in order. */
  function ParseAll(rs: seq<ColesResult>): (ps: seq<Product>)
    ensures |ps| <= |rs|
    ensures forall p :: p in ps ==> exists r :: r in rs && ParseColesResult(r) == Some(p)
  {
    if rs == [] then []
    else
      var init := ParseAll(rs[..|rs| - 1]);
      var last := rs[|rs| - 1];
      assert forall r :: r in rs[..|rs| - 1] ==> r in rs;
      match ParseColesResult(last)
      case Some(p) => init + [p]
      case None => init
  }

  /** Every product comes from a result of the list, and every result that
      parses contributes its product. */
  lemma {:induction false} ParseAllMembers(rs: seq<ColesResult>)
    ensures forall p :: p in ParseAll(rs) <==> exists r :: r in rs && ParseColesResult(r) == Some(p)
  {
    if rs != [] {
      var init, e := rs[..|rs| - 1], rs[|rs| - 1];
      ParseAllMembers(init);
      assert rs == init + [e];
      ParseAllSnoc(init, e);
      assert forall r :: r in rs <==> r in init || r == e;
    }
  }

  lemma ParseAllSnoc(rs: seq<ColesResult>, e: ColesResult)
    ensures ParseAll(rs + [e]) == ParseAll(rs) + (if ParseColesResult(e).Some? then [ParseColesResult(e).value] else [])
  {
    assert (rs + [e])[..|rs|] == rs;
  }

  /** Products come out in result order: the products of a concatenation are
      the products of each part. */
  lemma {:induction false} ParseAllAppend(a: seq<ColesResult>, b: seq<ColesResult>)
    ensures ParseAll(a + b) == ParseAll(a) + ParseAll(b)
    decreases |b|
  {
    if b == [] {
      assert a + b == a;
    } else {
      var init, e := b[..|b| - 1], b[|b| - 1];
      assert b == init + [e];
      calc {
        ParseAll(a + b);
        { assert a + b == (a + init) + [e]; }
        ParseAll((a + init) + [e]);
        { ParseAllSnoc(a + init, e); }
        ParseAll(a + init) + (if ParseColesResult(e).Some? then [ParseColesResult(e).value] else []);
        { ParseAllAppend(a, init); }
        (ParseAll(a) + ParseAll(init)) + (if ParseColesResult(e).Some? then [ParseColesResult(e).value] else []);
        ParseAll(a) + (ParseAll(init) + (if ParseColesResult(e).Some? then [ParseColesResult(e).value] else []));
        { ParseAllSnoc(init, e); }
        ParseAll(a) + ParseAll(b);
      }
    }
  }

  /** `_extract_products`: the parsed products of a page and its stated total. */
  method ExtractProducts(search: SearchResults) returns (products: seq<Product>, total: int)
    ensures products == ParseAll(search.results)
    ensures total == search.noOfResults
    ensures forall p :: p in products ==> p.store == Coles
  {
    total := search.noOfResults;
    products := [];
    var i := 0;
    while i < |search.results|
      invariant 0 <= i <= |search.results|
      invariant products == ParseAll(search.results[..i])
      invariant forall p :: p in products ==> p.store == Coles
    {
      assert search.results[..i + 1][..i] == search.results[..i];
      var parsed := ParseColesResult(search.results[i]);
      if parsed.Some? {
        products := products + [parsed.value];
      }
      i := i + 1;
    }
    assert search.results[..|search.results|] == search.results;
  }

  // ---------------------------------------------------------------------------
  // scrape_coles: the page loop
  // ---------------------------------------------------------------------------

  /** What fetching one specials page gave: no HTML, a bot challenge, HTML
      without page data, or the decoded search results. */
  datatype PageOutcome = NoHtml | Challenged | NoPageData | Parsed(search: SearchResults)

  /** The products the loop returns, given the outcomes of the pages still to
      visit, what is collected so far and the count of consecutive failures. */
  function SpecialsRun(pages: seq<PageOutcome>, acc: seq<Product>, failures: nat): seq<Product>
    decreases |pages|
  {
    if pages == [] then acc
    else match pages[0]
      case Parsed(search) =>
        var m := Merge(acc, ParseAll(search.results));
        if |m| >= search.noOfResults || |m| == |acc| then m
        else SpecialsRun(pages[1..], m, 0)
      case _ =>
        if failures + 1 >= MAX_CONSECUTIVE_FAILURES then acc
        else SpecialsRun(pages[1..], acc, failures + 1)
  }

  /** One decoded page: merge its products into the collected list, and
      stop when the collection reaches the reported total or the page added
      nothing new. */
  method CollectPage(search: SearchResults, acc: seq<Product>, seen: set<string>)
    returns (all: seq<Product>, seenOut: set<string>, stop: bool)
    requires seen == Ids(acc) && DistinctIds(acc)
    ensures all == Merge(acc, ParseAll(search.results))
    ensures seenOut == Ids(all) && DistinctIds(all)
    ensures stop <==> |all| >= search.noOfResults || |all| == |acc|
  {
    var products, total := ExtractProducts(search);
    var newCount;
    all, seenOut, newCount := MergeNew(acc, seen, products);
    MergeDistinct(acc, products);
    stop := |all| >= total || newCount == 0;
  }

  /** `scrape_coles` over the outcomes of pages 1 to `max_pages`. */
  method ScrapeColes(pages: seq<PageOutcome>) returns (all: seq<Product>)
    ensures all == SpecialsRun(pages, [], 0)
    ensures DistinctIds(all)
  {
    all := [];
    var seen: set<string> := {};
    var failures: nat := 0;
    var i := 0;
    var stopped := false;
    while i < |pages| && !stopped
      invariant 0 <= i <= |pages|
      invariant seen == Ids(all)
      invariant DistinctIds(all)
      invariant !stopped ==> failures < MAX_CONSECUTIVE_FAILURES
      invariant stopped ==> all == SpecialsRun(pages, [], 0)
      invariant !stopped ==> SpecialsRun(pages, [], 0) == SpecialsRun(pages[i..], all, failures)
      decreases |pages| - i, !stopped
    {
      var rest := pages[i..];
      assert rest[0] == pages[i] && rest[1..] == pages[i + 1..];
      if pages[i].Parsed? {
        failures := 0;
        all, seen, stopped := CollectPage(pages[i].search, all, seen);
      } else {
        failures := failures + 1;
        if failures >= MAX_CONSECUTIVE_FAILURES {
          stopped := true;
        }
      }
      i := i + 1;
    }
  }

  /** Collected products are never dropped: the run only appends. */
  lemma {:induction false} SpecialsRunExtends(pages: seq<PageOutcome>, acc: seq<Product>, failures: nat)
    ensures var r := SpecialsRun(pages, acc, failures); |acc| <= |r| && r[..|acc|] == acc
    decreases |pages|
  {
    if pages != [] {
      match pages[0]
      case Parsed(search) =>
        var m := Merge(acc, ParseAll(search.results));
        SpecialsRunExtends(pages[1..], m, 0);
      case _ =>
        SpecialsRunExtends(pages[1..], acc, failures + 1);
    }
  }

  /** A parsed page resets the failure counter: whatever the count before it,
      the run from that page on is the same. */
  lemma ParsedPageResetsFailures(pages: seq<PageOutcome>, acc: seq<Product>, f1: nat, f2: nat)
    requires pages != [] && pages[0].Parsed?
    ensures SpecialsRun(pages, acc, f1) == SpecialsRun(pages, acc, f2)
  {
  }

  /** Three failed pages in a row end the run with nothing more collected. */
  lemma ThreeFailuresStop(pages: seq<PageOutcome>, acc: seq<Product>)
    requires |pages| >= 3 && !pages[0].Parsed? && !pages[1].Parsed? && !pages[2].Parsed?
    ensures SpecialsRun(pages, acc, 0) == acc
  {
    var p1, p2 := pages[1..], pages[2..];
    assert p1[0] == pages[1] && p1[1..] == p2 && p2[0] == pages[2];
    assert SpecialsRun(pages, acc, 0) == SpecialsRun(p1, acc, 1);
    assert SpecialsRun(p1, acc, 1) == SpecialsRun(p2, acc, 2);
  }

  /** Two failed pages do not stop the run when a parsed page follows. */
  lemma TwoFailuresThenParsed(pages: seq<PageOutcome>, acc: seq<Product>)
    requires |pages| >= 3 && !pages[0].Parsed? && !pages[1].Parsed? && pages[2].Parsed?
    ensures SpecialsRun(pages, acc, 0) == SpecialsRun(pages[2..], acc, 0)
  {
    assert pages[1..][1..] == pages[2..];
    ParsedPageResetsFailures(pages[2..], acc, 2, 0);
  }

  /** A parsed page that adds nothing new ends the run. */
  lemma NothingNewStops(pages: seq<PageOutcome>, acc: seq<Product>, failures: nat)
    requires pages != [] && pages[0].Parsed?
    requires Ids(ParseAll(pages[0].search.results)) <= Ids(acc)
    ensures SpecialsRun(pages, acc, failures) == acc
  {
    MergeNothingNew(acc, ParseAll(pages[0].search.results));
  }
}
