/** The records that flow between the scrapers, the database tables and the
    web app. Dates are day numbers; prices are exact reals. */
module Records {
  import opened Common

  /** A normalised product as both scrapers emit it (the product dict). */
  datatype Product = Product(
    store: Store,
    productId: string,
    name: string,
    brand: Option<string>,
    category: Option<string>,
    currentPrice: real,
    originalPrice: Option<real>,
    discountPct: Option<int>,
    imageUrl: Option<string>,
    productUrl: Option<string>,
    specialType: Option<SpecialType>,
    size: Option<string>)

  /** A row of the `specials` table: a product that is on special now. */
  datatype Special = Special(
    store: Store,
    productId: string,
    name: string,
    brand: Option<string>,
    category: Option<string>,
    currentPrice: real,
    originalPrice: Option<real>,
    discountPct: Option<int>,
    imageUrl: Option<string>,
    productUrl: Option<string>,
    specialType: Option<SpecialType>,
    validFrom: Option<int>,
    validTo: Option<int>)

  /** A row of the `special_history` table: one interval during which a
      product was seen on special. */
  datatype HistoryRow = HistoryRow(
    store: Store,
    productId: string,
    name: string,
    currentPrice: Option<real>,
    originalPrice: Option<real>,
    discountPct: Option<int>,
    firstSeen: int,
    lastSeen: int)

  /** A history row as read back from the table, with its row id. */
  datatype StoredHistory = StoredHistory(id: nat, row: HistoryRow)

  /** The statistics `compute_intel` derives for one product. */
  datatype IntelStats = IntelStats(
    avgFrequencyDays: Option<int>,
    frequencyClass: Option<FrequencyClass>,
    daysSinceLastSpecial: Option<int>,
    expectedDaysUntilNext: Option<int>,
    isOnSpecialNow: bool,
    lastSpecialDate: Option<int>,
    lastDiscountPct: Option<int>,
    totalTimesOnSpecial: nat)

  /** A row of the `special_intel` table. */
  datatype SpecialIntel = SpecialIntel(
    store: Store,
    productId: string,
    name: string,
    category: Option<string>,
    imageUrl: Option<string>,
    stats: IntelStats)

  /** A row of the `products` (catalogue) table. */
  datatype CatalogueRow = CatalogueRow(
    store: Store,
    productId: string,
    name: string,
    brand: Option<string>,
    category: Option<string>,
    regularPrice: real,
    imageUrl: Option<string>,
    productUrl: Option<string>,
    lastSeen: int)

  /** The composite key every table is addressed by. */
  datatype Key = Key(store: Store, productId: string)

  function ProductKey(p: Product): Key { Key(p.store, p.productId) }
  function HistoryKey(h: HistoryRow): Key { Key(h.store, h.productId) }
  function IntelKey(i: SpecialIntel): Key { Key(i.store, i.productId) }
  function SpecialKey(s: Special): Key { Key(s.store, s.productId) }
  function CatalogueKey(c: CatalogueRow): Key { Key(c.store, c.productId) }
}
