/** The Woolworths scraper's decision logic: turning one product of the browse
    API into a normalised special (or rejecting it), the category fallback
    chain, the page loop of one browse category, and the merge across
    categories. The browser session and the API call are outside the model: a
    page arrives as its decoded response, or as nothing when the call failed. */
module Woolworths {
  import opened Common
  import opened Records
  import opened Text
  import opened Discount
  import opened Dedup

  const BASE_URL := "https://www.woolworths.com.au"
  const IMAGE_CDN := "https://cdn0.woolworths.media/content/wowproductimages/medium"

  /** The SAP departments whose products are groceries. */
  const GROCERY_DEPARTMENTS: set<string> := {
    "GROCERIES", "FRESH PRODUCE", "FRUIT AND VEG", "MEAT", "DAIRY", "FROZEN",
    "DELI", "BAKERY", "HEALTH & BEAUTY", "BABY", "PET",
    "DRINKS", "LIQUOR", "PANTRY", "HOUSEHOLD", "LONG LIFE",
    "SEAFOOD", "POULTRY", "SMALLGOODS"
  }

  /** The names of the two specials browse categories, in scraping order. */
  const SPECIALS_CATEGORIES: seq<string> := ["Half Price", "Lower Shelf Price"]

  /** `piesdepartmentnamesjson` once decoded: absent or empty, not valid JSON,
      a JSON value that is not a list (or is falsy), or a list whose elements
      are given as Python's `str` of each. */
  datatype Pies = NoPies | Unparsable | NotAList | PiesList(items: seq<string>)

  /** `AdditionalAttributes`; an absent or empty object has every field absent. */
  datatype Attrs = Attrs(
    sapDepartmentName: Option<string>,
    sapCategoryName: Option<string>,
    pies: Pies)

  /** One product of the browse API. `vendor` and `thirdPartyInfo` stand for
      the truthiness of `Vendor` and `ThirdPartyProductInfo`. */
  datatype WoolRaw = WoolRaw(
    isMarketProduct: bool,
    vendor: bool,
    thirdPartyInfo: bool,
    price: Option<real>,
    attrs: Attrs,
    wasPrice: Option<real>,
    savingsAmount: Option<real>,
    isHalfPrice: bool,
    isOnSpecial: bool,
    stockcode: Option<int>,
    mediumImageFile: Option<string>,
    brand: Option<string>,
    displayName: Option<string>,
    name: Option<string>,
    packageSize: Option<string>)

  /** `_extract_category`: the first element of the decoded department list,
      else the SAP category, else the SAP department (both stripped and
      title-cased), else nothing. */
  function ExtractCategory(attrs: Attrs): (r: Option<string>)
    ensures attrs.pies.PiesList? && attrs.pies.items != [] ==> r == Some(attrs.pies.items[0])
    ensures !(attrs.pies.PiesList? && attrs.pies.items != []) && StrTruthy(attrs.sapCategoryName) ==>
      r == Some(Title(PyStrip(attrs.sapCategoryName.value)))
    ensures !(attrs.pies.PiesList? && attrs.pies.items != []) && !StrTruthy(attrs.sapCategoryName)
            && StrTruthy(attrs.sapDepartmentName) ==>
      r == Some(Title(PyStrip(attrs.sapDepartmentName.value)))
    ensures r.None? <==>
      !(attrs.pies.PiesList? && attrs.pies.items != []) && !StrTruthy(attrs.sapCategoryName)
      && !StrTruthy(attrs.sapDepartmentName)
  {
    if attrs.pies.PiesList? && attrs.pies.items != [] then Some(attrs.pies.items[0])
    else if StrTruthy(attrs.sapCategoryName) then Some(Title(PyStrip(attrs.sapCategoryName.value)))
    else if StrTruthy(attrs.sapDepartmentName) then Some(Title(PyStrip(attrs.sapDepartmentName.value)))
    else None
  }

  /** The SAP department as the grocery filter compares it. */
  function SapDepartment(attrs: Attrs): (d: string)
    ensures |d| <= |attrs.sapDepartmentName.GetOr("")|
    ensures forall i :: 0 <= i < |d| ==> !IsLower(d[i])
  {
    Upper(PyStrip(attrs.sapDepartmentName.GetOr("")))
  }

  /** A named department outside the grocery list rejects the product. */
  predicate NonGrocery(attrs: Attrs) {
    SapDepartment(attrs) != "" && SapDepartment(attrs) !in GROCERY_DEPARTMENTS
  }

  /** `special_type`: the half-price flag wins, then the on-special flag. */
  function WoolSpecialType(isHalfPrice: bool, isOnSpecial: bool): (t: Option<SpecialType>)
    ensures t == Some(HalfPrice) <==> isHalfPrice
    ensures t == Some(Reduced) <==> !isHalfPrice && isOnSpecial
    ensures t.None? <==> !isHalfPrice && !isOnSpecial
  {
    if isHalfPrice then Some(HalfPrice) else if isOnSpecial then Some(Reduced) else None
  }

  /** `image_url`: the medium image when it is non-empty; otherwise the CDN
      path built from a non-zero stock code; otherwise the field as it was. */
  function WoolImage(mediumImageFile: Option<string>, stockcode: Option<int>): (r: Option<string>)
    ensures StrTruthy(mediumImageFile) ==> r == mediumImageFile
    ensures !StrTruthy(mediumImageFile) && IntTruthy(stockcode) ==>
      r == Some(IMAGE_CDN + "/" + IntToString(stockcode.value) + ".jpg")
    ensures !StrTruthy(mediumImageFile) && !IntTruthy(stockcode) ==> r == mediumImageFile
  {
    if !StrTruthy(mediumImageFile) && IntTruthy(stockcode) then
      Some(IMAGE_CDN + "/" + IntToString(stockcode.value) + ".jpg")
    else mediumImageFile
  }

  /** `product_id`: the stock code as text, or empty without one. */
  function WoolProductId(stockcode: Option<int>): (id: string)
    ensures id == "" <==> !IntTruthy(stockcode)
  {
    if IntTruthy(stockcode) then IntToString(stockcode.value) else ""
  }

  /** `_parse_product`: rejects marketplace and third-party items, items
      without a price and non-grocery departments; otherwise builds the
      special. */
  function ParseWoolworths(p: WoolRaw, categoryName: string): (r: Option<Product>)
    ensures r.None? <==>
      p.isMarketProduct || p.vendor || p.thirdPartyInfo || p.price.None? || NonGrocery(p.attrs)
    ensures r.Some? ==>
      var d := DiscountPct(p.wasPrice, p.savingsAmount);
      r.value.store == Woolworths
      && r.value.productId == WoolProductId(p.stockcode)
      && (r.value.productUrl.Some? <==> IntTruthy(p.stockcode))
      && (r.value.productUrl.Some? ==>
            r.value.productUrl.value == BASE_URL + "/shop/productdetails/" + r.value.productId)
      && r.value.currentPrice == p.price.value
      && r.value.originalPrice == OriginalPrice(p.wasPrice)
      && r.value.discountPct == EmittedDiscount(d)
      && r.value.specialType == WoolSpecialType(p.isHalfPrice, p.isOnSpecial)
      && r.value.imageUrl == WoolImage(p.mediumImageFile, p.stockcode)
      && r.value.category == StrOr(ExtractCategory(p.attrs), Some(categoryName))
      && r.value.name == (if StrTruthy(p.displayName) then p.displayName.value else p.name.GetOr(""))
      && r.value.brand == p.brand && r.value.size == p.packageSize
  {
    if p.isMarketProduct || p.vendor || p.thirdPartyInfo then None
    else if p.price.None? then None
    else if NonGrocery(p.attrs) then None
    else
      var id := WoolProductId(p.stockcode);
      Some(Product(
        store := Woolworths,
        productId := id,
        name := if StrTruthy(p.displayName) then p.displayName.value else p.name.GetOr(""),
        brand := p.brand,
        category := StrOr(ExtractCategory(p.attrs), Some(categoryName)),
        currentPrice := p.price.value,
        originalPrice := OriginalPrice(p.wasPrice),
        discountPct := EmittedDiscount(DiscountPct(p.wasPrice, p.savingsAmount)),
        imageUrl := WoolImage(p.mediumImageFile, p.stockcode),
        productUrl := if IntTruthy(p.stockcode) then Some(BASE_URL + "/shop/productdetails/" + id) else None,
        specialType := WoolSpecialType(p.isHalfPrice, p.isOnSpecial),
        size := p.packageSize))
  }

  /** An accepted product's department is empty or a grocery department, and
      a product without any department is never filtered out for it. */
  lemma DepartmentFilter(p: WoolRaw, categoryName: string)
    ensures ParseWoolworths(p, categoryName).Some? ==>
      SapDepartment(p.attrs) == "" || SapDepartment(p.attrs) in GROCERY_DEPARTMENTS
    ensures p.attrs.sapDepartmentName.None? ==> !NonGrocery(p.attrs)
  {
    if p.attrs.sapDepartmentName.None? {
      assert PyStrip("") == "";
    }
  }

  /** Unlike Coles, the Woolworths special type ignores the prices: changing
      the was-price or the saving never changes it. */
  lemma SpecialTypeIgnoresPrices(p: WoolRaw, categoryName: string, was: Option<real>, saving: Option<real>)
    requires ParseWoolworths(p, categoryName).Some?
    ensures var q := p.(wasPrice := was, savingsAmount := saving);
            ParseWoolworths(q, categoryName).Some?
            && ParseWoolworths(q, categoryName).value.specialType
               == ParseWoolworths(p, categoryName).value.specialType
  {
  }

  /** Every accepted product gets a category: the browse category's name is
      the last fallback. */
  lemma CategoryAlwaysSet(p: WoolRaw, categoryName: string)
    requires ParseWoolworths(p, categoryName).Some? && categoryName != ""
    ensures StrTruthy(ParseWoolworths(p, categoryName).value.category)
  {
  }

  // ---------------------------------------------------------------------------
  // _scrape_category and scrape_woolworths
  // ---------------------------------------------------------------------------

  /** A decoded browse page: `TotalRecordCount` (0 when absent) and the
      products of each bundle. */
  datatype BrowseData = BrowseData(totalRecordCount: int, bundles: seq<seq<WoolRaw>>)

  /** The accepted products of a list of raw products, in order. */
  function ParseList(raws: seq<WoolRaw>, categoryName: string): (ps: seq<Product>)
    ensures |ps| <= |raws|
    ensures forall q :: q in ps ==> q.store == Woolworths
  {
    if raws == [] then []
    else
      var init := ParseList(raws[..|raws| - 1], categoryName);
      match ParseWoolworths(raws[|raws| - 1], categoryName)
      case Some(q) => init + [q]
      case None => init
  }

  /** Every product of the list comes from a raw product of the list, and
      every raw product that parses contributes its product. */
  lemma {:induction false} ParseListMembers(raws: seq<WoolRaw>, categoryName: string)
    ensures forall q :: q in ParseList(raws, categoryName) <==>
      exists r :: r in raws && ParseWoolworths(r, categoryName) == Some(q)
  {
    if raws != [] {
      var init, e := raws[..|raws| - 1], raws[|raws| - 1];
      ParseListMembers(init, categoryName);
      assert raws == init + [e];
      ParseListSnoc(init, e, categoryName);
      assert forall r :: r in raws <==> r in init || r == e;
    }
  }

  lemma ParseListSnoc(raws: seq<WoolRaw>, e: WoolRaw, categoryName: string)
    ensures ParseList(raws + [e], categoryName) == ParseList(raws, categoryName) + (if ParseWoolworths(e, categoryName).Some? then [ParseWoolworths(e, categoryName).value] else [])
  {
    assert (raws + [e])[..|raws|] == raws;
  }

  /** Products come out in raw order: the products of a concatenation are the
      products of each part. */
  lemma {:induction false} ParseListAppend(a: seq<WoolRaw>, b: seq<WoolRaw>, categoryName: string)
    ensures ParseList(a + b, categoryName) == ParseList(a, categoryName) + ParseList(b, categoryName)
    decreases |b|
  {
    if b == [] {
      assert a + b == a;
    } else {
      var init, e := b[..|b| - 1], b[|b| - 1];
      assert b == init + [e];
      calc {
        ParseList(a + b, categoryName);
        { assert a + b == (a + init) + [e]; }
        ParseList((a + init) + [e], categoryName);
        { ParseListSnoc(a + init, e, categoryName); }
        ParseList(a + init, categoryName) + (if ParseWoolworths(e, categoryName).Some? then [ParseWoolworths(e, categoryName).value] else []);
        { ParseListAppend(a, init, categoryName); }
        (ParseList(a, categoryName) + ParseList(init, categoryName)) + (if ParseWoolworths(e, categoryName).Some? then [ParseWoolworths(e, categoryName).value] else []);
        ParseList(a, categoryName) + (ParseList(init, categoryName) + (if ParseWoolworths(e, categoryName).Some? then [ParseWoolworths(e, categoryName).value] else []));
        { ParseListSnoc(init, e, categoryName); }
        ParseList(a, categoryName) + ParseList(b, categoryName);
      }
    }
  }

  /** The accepted products of a page, bundle after bundle. */
  function PageProducts(bundles: seq<seq<WoolRaw>>, categoryName: string): seq<Product> {
    if bundles == [] then []
    else PageProducts(bundles[..|bundles| - 1], categoryName) + ParseList(bundles[|bundles| - 1], categoryName)
  }

  /** A page's products are exactly those its bundles' raw products parse to. */
  lemma {:induction false} PageProductsMembers(bundles: seq<seq<WoolRaw>>, categoryName: string)
    ensures forall q :: q in PageProducts(bundles, categoryName) <==>
      exists bundle :: bundle in bundles && q in ParseList(bundle, categoryName)
    ensures forall q :: q in PageProducts(bundles, categoryName) ==> q.store == Woolworths
  {
    if bundles != [] {
      var init, e := bundles[..|bundles| - 1], bundles[|bundles| - 1];
      PageProductsMembers(init, categoryName);
      assert bundles == init + [e];
      PageProductsSnoc(init, e, categoryName);
      assert forall bundle :: bundle in bundles <==> bundle in init || bundle == e;
    }
  }

  lemma PageProductsSnoc(bundles: seq<seq<WoolRaw>>, e: seq<WoolRaw>, categoryName: string)
    ensures PageProducts(bundles + [e], categoryName) == PageProducts(bundles, categoryName) + ParseList(e, categoryName)
  {
    assert (bundles + [e])[..|bundles|] == bundles;
  }

  /** Bundles are read in order: the products of a concatenation of bundle
      lists are the products of each part. */
  lemma {:induction false} PageProductsAppend(a: seq<seq<WoolRaw>>, b: seq<seq<WoolRaw>>, categoryName: string)
    ensures PageProducts(a + b, categoryName) == PageProducts(a, categoryName) + PageProducts(b, categoryName)
    decreases |b|
  {
    if b == [] {
      assert a + b == a;
    } else {
      var init, e := b[..|b| - 1], b[|b| - 1];
      assert b == init + [e];
      calc {
        PageProducts(a + b, categoryName);
        { assert a + b == (a + init) + [e]; }
        PageProducts((a + init) + [e], categoryName);
        { PageProductsSnoc(a + init, e, categoryName); }
        PageProducts(a + init, categoryName) + ParseList(e, categoryName);
        { PageProductsAppend(a, init, categoryName); }
        (PageProducts(a, categoryName) + PageProducts(init, categoryName)) + ParseList(e, categoryName);
        { ConcatAssoc(PageProducts(a, categoryName), PageProducts(init, categoryName), ParseList(e, categoryName)); }
        PageProducts(a, categoryName) + (PageProducts(init, categoryName) + ParseList(e, categoryName));
        { PageProductsSnoc(init, e, categoryName); }
        PageProducts(a, categoryName) + PageProducts(b, categoryName);
      }
    }
  }

  /** The inner loop over the products of one bundle. */
  method ParseBundle(raws: seq<WoolRaw>, categoryName: string) returns (ps: seq<Product>)
    ensures ps == ParseList(raws, categoryName)
  {
    ps := [];
    var k := 0;
    while k < |raws|
      invariant 0 <= k <= |raws|
      invariant ps == ParseList(raws[..k], categoryName)
    {
      assert raws[..k + 1][..k] == raws[..k];
      var parsed := ParseWoolworths(raws[k], categoryName);
      if parsed.Some? {
        ps := ps + [parsed.value];
      }
      k := k + 1;
    }
    assert raws[..|raws|] == raws;
  }

  /** The outer loop over the bundles of a page. */
  method ParsePage(bundles: seq<seq<WoolRaw>>, categoryName: string) returns (ps: seq<Product>)
    ensures ps == PageProducts(bundles, categoryName)
  {
    ps := [];
    var b := 0;
    while b < |bundles|
      invariant 0 <= b <= |bundles|
      invariant ps == PageProducts(bundles[..b], categoryName)
    {
      assert bundles[..b + 1] == bundles[..b] + [bundles[b]];
      PageProductsSnoc(bundles[..b], bundles[b], categoryName);
      var fromBundle := ParseBundle(bundles[b], categoryName);
      ps := ps + fromBundle;
      b := b + 1;
    }
    assert bundles[..|bundles|] == bundles;
  }

  /** The products `_scrape_category` returns, given the responses of the
      pages still to visit (`None` for a failed call) and what is collected. */
  function CategoryRun(pages: seq<Option<BrowseData>>, categoryName: string, acc: seq<Product>): seq<Product>
    decreases |pages|
  {
    if pages == [] || pages[0].None? then acc
    else
      var data := pages[0].value;
      var m := Merge(acc, PageProducts(data.bundles, categoryName));
      if |m| >= data.totalRecordCount || |m| == |acc| then m
      else CategoryRun(pages[1..], categoryName, m)
  }

  /** `_scrape_category` over the responses of pages 1 to `max_pages`. */
  method ScrapeCategory(pages: seq<Option<BrowseData>>, categoryName: string) returns (products: seq<Product>)
    ensures products == CategoryRun(pages, categoryName, [])
    ensures DistinctIds(products)
  {
    products := [];
    var seen: set<string> := {};
    var i := 0;
    var stopped := false;
    while i < |pages| && !stopped
      invariant 0 <= i <= |pages|
      invariant seen == Ids(products)
      invariant DistinctIds(products)
      invariant stopped ==> products == CategoryRun(pages, categoryName, [])
      invariant !stopped ==> CategoryRun(pages, categoryName, []) == CategoryRun(pages[i..], categoryName, products)
      decreases |pages| - i, !stopped
    {
      var rest := pages[i..];
      assert rest[0] == pages[i] && rest[1..] == pages[i + 1..];
      if pages[i].None? {
        stopped := true;
      } else {
        var data := pages[i].value;
        var parsed := ParsePage(data.bundles, categoryName);
        var before := products;
        var newCount;
        products, seen, newCount := MergeNew(products, seen, parsed);
        MergeDistinct(before, parsed);
        if |products| >= data.totalRecordCount || newCount == 0 {
          stopped := true;
        }
      }
      i := i + 1;
    }
  }

  /** Collected products are never dropped: the run only appends. */
  lemma {:induction false} CategoryRunExtends(pages: seq<Option<BrowseData>>, categoryName: string, acc: seq<Product>)
    ensures var r := CategoryRun(pages, categoryName, acc); |acc| <= |r| && r[..|acc|] == acc
    decreases |pages|
  {
    if pages != [] && pages[0].Some? {
      var m := Merge(acc, PageProducts(pages[0].value.bundles, categoryName));
      CategoryRunExtends(pages[1..], categoryName, m);
    }
  }

  /** The result of each category's run, in category order. */
  function CategoryResults(categories: seq<(string, seq<Option<BrowseData>>)>): (rs: seq<seq<Product>>)
    ensures |rs| == |categories|
  {
    if categories == [] then []
    else
      var c := categories[|categories| - 1];
      CategoryResults(categories[..|categories| - 1]) + [CategoryRun(c.1, c.0, [])]
  }

  /** `scrape_woolworths` (and the catalogue variant): nothing when the
      browser session could not be established, otherwise each category's
      products merged in order, first occurrence of an id winning. */
  method ScrapeWoolworths(sessionOk: bool, categories: seq<(string, seq<Option<BrowseData>>)>)
    returns (all: seq<Product>)
    ensures !sessionOk ==> all == []
    ensures sessionOk ==> all == MergeAll([], CategoryResults(categories))
    ensures DistinctIds(all)
  {
    all := [];
    if !sessionOk {
      return;
    }
    var seen: set<string> := {};
    var i := 0;
    while i < |categories|
      invariant 0 <= i <= |categories|
      invariant all == MergeAll([], CategoryResults(categories[..i]))
      invariant seen == Ids(all)
    {
      assert categories[..i + 1][..i] == categories[..i];
      var catProducts := ScrapeCategory(categories[i].1, categories[i].0);
      var n;
      all, seen, n := MergeNew(all, seen, catProducts);
      i := i + 1;
    }
    assert categories[..|categories|] == categories;
    MergeAllDistinct([], CategoryResults(categories));
  }
}
