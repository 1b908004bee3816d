/** The sale-frequency signal shown on product tiles and cards: how many of
    three dots are filled, their colour, the label and its colour, and the
    detail line, all derived from a product's intel row (which may be absent). */
module SaleSignal {
  import opened Common
  import opened Text
  import opened Records

  /** `intel?.frequency_class ?? null`. */
  function ClassOf(intel: Option<SpecialIntel>): (fc: Option<FrequencyClass>)
    ensures intel.None? ==> fc.None?
    ensures intel.Some? ==> fc == intel.value.stats.frequencyClass
  {
    if intel.None? then None else intel.value.stats.frequencyClass
  }

  /** `intel?.total_times_on_special ?? 0`. */
  function TotalTimes(intel: Option<SpecialIntel>): (n: nat)
    ensures intel.None? ==> n == 0
    ensures intel.Some? ==> n == intel.value.stats.totalTimesOnSpecial
  {
    if intel.None? then 0 else intel.value.stats.totalTimesOnSpecial
  }

  /** `intel?.avg_frequency_days ?? null`. */
  function AvgDays(intel: Option<SpecialIntel>): (a: Option<int>)
    ensures intel.None? ==> a.None?
    ensures intel.Some? ==> a == intel.value.stats.avgFrequencyDays
  {
    if intel.None? then None else intel.value.stats.avgFrequencyDays
  }

  /** `isNew`: no class at all and seen on special at most once. A class of
      "never" is a non-empty string, so it is truthy and never new. */
  predicate IsNew(intel: Option<SpecialIntel>) {
    ClassOf(intel).None? && TotalTimes(intel) <= 1
  }

  /** Number of filled dots out of three. */
  function Filled(fc: Option<FrequencyClass>): (n: nat)
    ensures n <= 3
    ensures n == 3 <==> fc == Some(Frequent)
    ensures n == 2 <==> fc == Some(Sometimes)
    ensures n == 1 <==> fc == Some(Rare)
    ensures n == 0 <==> !IsRanked(fc)
  {
    if fc == Some(Frequent) then 3
    else if fc == Some(Sometimes) then 2
    else if fc == Some(Rare) then 1
    else 0
  }

  const UNFILLED_DOT := "bg-text-tertiary/30"
  const DEFAULT_LABEL_COLOR := "text-text-tertiary"

  /** The colour of the filled dots. */
  function DotColor(fc: Option<FrequencyClass>): (r: string)
    ensures r == UNFILLED_DOT <==> !IsRanked(fc)
  {
    if fc == Some(Frequent) then "bg-price-down"
    else if fc == Some(Sometimes) then "bg-brand"
    else if fc == Some(Rare) then "bg-price-up"
    else UNFILLED_DOT
  }

  /** The colour of the label text. */
  function LabelColor(fc: Option<FrequencyClass>): (r: string)
    ensures r == DEFAULT_LABEL_COLOR <==> !IsRanked(fc)
  {
    if fc == Some(Rare) then "text-price-up"
    else if fc == Some(Frequent) then "text-price-down"
    else if fc == Some(Sometimes) then "text-brand-dark dark:text-brand"
    else DEFAULT_LABEL_COLOR
  }

  /** The label: "Just spotted" for a new product and for any class outside
      the three ranked ones. */
  function Label(intel: Option<SpecialIntel>): (r: string)
    ensures r == "Just spotted" <==> IsNew(intel) || !IsRanked(ClassOf(intel))
    ensures !IsNew(intel) && ClassOf(intel) == Some(Frequent) ==> r == "On sale often"
    ensures !IsNew(intel) && ClassOf(intel) == Some(Sometimes) ==> r == "Sometimes on sale"
    ensures !IsNew(intel) && ClassOf(intel) == Some(Rare) ==> r == "Rarely on sale"
  {
    var fc := ClassOf(intel);
    if IsNew(intel) then "Just spotted"
    else if fc == Some(Frequent) then "On sale often"
    else if fc == Some(Sometimes) then "Sometimes on sale"
    else if fc == Some(Rare) then "Rarely on sale"
    else "Just spotted"
  }

  /** The detail line of the inline layout. */
  function Detail(intel: Option<SpecialIntel>): (r: Option<string>)
    ensures IsNew(intel) ==> r == Some("No sale history yet")
    ensures !IsNew(intel) && IntTruthy(AvgDays(intel)) ==>
      r == Some("Every ~" + IntToString(AvgDays(intel).value) + "d")
    ensures r.None? <==> !IsNew(intel) && !IntTruthy(AvgDays(intel))
  {
    var avg := AvgDays(intel);
    if !IsNew(intel) && IntTruthy(avg) then Some("Every ~" + IntToString(avg.value) + "d")
    else if IsNew(intel) then Some("No sale history yet")
    else None
  }

  /** A new product has no ranked class, so its dots are all empty. */
  lemma NewHasNoDots(intel: Option<SpecialIntel>)
    requires IsNew(intel)
    ensures Filled(ClassOf(intel)) == 0
    ensures Label(intel) == "Just spotted"
  {
  }

  /** Dot count, dot colour and label colour are three views of one tier: two
      classes share one of them exactly when they share all three. */
  lemma TiersAgree(a: Option<FrequencyClass>, b: Option<FrequencyClass>)
    ensures Filled(a) == Filled(b) <==> DotColor(a) == DotColor(b)
    ensures Filled(a) == Filled(b) <==> LabelColor(a) == LabelColor(b)
    ensures Filled(a) == Filled(b) <==> (a == b || (!IsRanked(a) && !IsRanked(b)))
  {
  }

  /** A product recorded as never on special shows no dots and the default
      label, and is not new, so it gets no detail line unless it has an average. */
  lemma NeverClassShowsDefault(intel: SpecialIntel)
    requires intel.stats.frequencyClass == Some(Never)
    ensures Filled(ClassOf(Some(intel))) == 0
    ensures !IsNew(Some(intel))
    ensures Label(Some(intel)) == "Just spotted"
    ensures intel.stats.avgFrequencyDays.None? ==> Detail(Some(intel)).None?
  {
  }
}
