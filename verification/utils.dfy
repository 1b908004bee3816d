/** Presentation rules of the web app's utility library: discount and store
    formatting, frequency-class styling, and the next-sale prediction text. */
module Utils {
  import opened Common
  import opened Text

  /** `formatDiscount`: nothing for an absent or zero percentage, otherwise the
      number followed by a percent sign. */
  function FormatDiscount(pct: Option<int>): (r: string)
    ensures r == "" <==> !IntTruthy(pct)
    ensures IntTruthy(pct) ==> |r| >= 2 && r[|r| - 1] == '%' && r[..|r| - 1] == IntToString(pct.value)
  {
    if !IntTruthy(pct) then "" else IntToString(pct.value) + "%"
  }

  /** Two different shown percentages never format alike. */
  lemma FormatDiscountInjective(a: Option<int>, b: Option<int>)
    requires IntTruthy(a) && IntTruthy(b) && FormatDiscount(a) == FormatDiscount(b)
    ensures a == b
  {
    var s := FormatDiscount(a);
    assert s[..|s| - 1] == IntToString(a.value) == IntToString(b.value);
    IntToStringInjective(a.value, b.value);
  }

  /** `storeDisplayName`. */
  function StoreDisplayName(store: Store): (r: string)
    ensures store == Woolworths ==> r == "Woolworths"
    ensures store != Woolworths ==> r == "Coles"
  {
    if store == Woolworths then "Woolworths" else "Coles"
  }

  /** `frequencyLabel`. */
  function FrequencyLabel(fc: Option<FrequencyClass>): (r: string)
    ensures fc == Some(Frequent) <==> r == "Frequent"
    ensures fc == Some(Sometimes) <==> r == "Sometimes"
    ensures fc == Some(Rare) <==> r == "Rare"
    ensures r == "" <==> !IsRanked(fc)
  {
    if fc == Some(Frequent) then "Frequent"
    else if fc == Some(Sometimes) then "Sometimes"
    else if fc == Some(Rare) then "Rare"
    else ""
  }

  const DEFAULT_COLOR := "text-text-tertiary"
  const DEFAULT_BG := "bg-surface-secondary"

  /** `frequencyColor`: the text colour class of a frequency class. */
  function FrequencyColor(fc: Option<FrequencyClass>): (r: string)
    ensures r == DEFAULT_COLOR <==> !IsRanked(fc)
  {
    if fc == Some(Frequent) then "text-price-down"
    else if fc == Some(Sometimes) then "text-brand"
    else if fc == Some(Rare) then "text-price-up"
    else DEFAULT_COLOR
  }

  /** `frequencyBg`: the background class of a frequency class. */
  function FrequencyBg(fc: Option<FrequencyClass>): (r: string)
    ensures r == DEFAULT_BG <==> !IsRanked(fc)
  {
    if fc == Some(Frequent) then "bg-green-50 dark:bg-green-950/30"
    else if fc == Some(Sometimes) then "bg-amber-50 dark:bg-amber-950/30"
    else if fc == Some(Rare) then "bg-red-50 dark:bg-red-950/30"
    else DEFAULT_BG
  }

  /** The three ranked classes get three different labels, colours and
      backgrounds; every unranked input shares the default. */
  lemma FrequencyStylesDistinct(a: Option<FrequencyClass>, b: Option<FrequencyClass>)
    ensures IsRanked(a) && IsRanked(b) && a != b ==>
      FrequencyLabel(a) != FrequencyLabel(b) && FrequencyColor(a) != FrequencyColor(b)
      && FrequencyBg(a) != FrequencyBg(b)
    ensures !IsRanked(a) && !IsRanked(b) ==>
      FrequencyLabel(a) == FrequencyLabel(b) && FrequencyColor(a) == FrequencyColor(b)
      && FrequencyBg(a) == FrequencyBg(b)
  {
  }

  // ---------------------------------------------------------------------------
  // predictionText
  // ---------------------------------------------------------------------------

  /** The six shapes of the prediction message. */
  datatype Prediction =
    | HardToPredict
    | AnyDayNow
    | BackInDays(days: int)
    | WithinAWeek
    | DaysAway(days: int)
    | CheckBackIn(days: int)

  /** Which message `predictionText` picks. The day thresholds are inclusive on
      the lower branch: exactly 3 days is "~3 days", exactly 7 is "within a week",
      exactly 14 is "Probably ~14 days away". */
  function Predict(expectedDays: Option<int>, daysSince: Option<int>): (p: Prediction)
    ensures p == HardToPredict <==> expectedDays.None? || daysSince.None?
    ensures p == AnyDayNow <==> expectedDays.Some? && daysSince.Some? && expectedDays.value <= 0
    ensures p.BackInDays? <==> expectedDays.Some? && daysSince.Some? && 0 < expectedDays.value <= 3
    ensures p == WithinAWeek <==> expectedDays.Some? && daysSince.Some? && 3 < expectedDays.value <= 7
    ensures p.DaysAway? <==> expectedDays.Some? && daysSince.Some? && 7 < expectedDays.value <= 14
    ensures p.CheckBackIn? <==> expectedDays.Some? && daysSince.Some? && 14 < expectedDays.value
    ensures (p.BackInDays? || p.DaysAway? || p.CheckBackIn?) ==> p.days == expectedDays.value
  {
    if expectedDays.None? || daysSince.None? then HardToPredict
    else
      var e := expectedDays.value;
      if e <= 0 then AnyDayNow
      else if e <= 3 then BackInDays(e)
      else if e <= 7 then WithinAWeek
      else if e <= 14 then DaysAway(e)
      else CheckBackIn(e)
  }

  /** The text of each message shape. */
  function Message(p: Prediction): string {
    match p
    case HardToPredict => "Hard to predict"
    case AnyDayNow => "Could be any day now"
    case BackInDays(n) => "Expected back in ~" + IntToString(n) + " days"
    case WithinAWeek => "Expected back within a week"
    case DaysAway(n) => "Probably ~" + IntToString(n) + " days away"
    case CheckBackIn(n) => "Check back in ~" + IntToString(n) + " days"
  }

  /** `predictionText`. */
  function PredictionText(expectedDays: Option<int>, daysSince: Option<int>): (r: string)
    ensures expectedDays.None? || daysSince.None? ==> r == "Hard to predict"
  {
    Message(Predict(expectedDays, daysSince))
  }

  lemma IntInfix(pre: string, post: string, m: int, n: int)
    requires pre + IntToString(m) + post == pre + IntToString(n) + post
    ensures m == n
  {
    var s := pre + IntToString(m) + post;
    assert s[|pre|..|s| - |post|] == IntToString(m);
    assert (pre + IntToString(n) + post)[|pre|..|s| - |post|] == IntToString(n);
    IntToStringInjective(m, n);
  }

  /** Reads back which of the six shapes a message text has. */
  function ShapeOfText(s: string): int {
    if |s| < 15 || s[0] == 'H' then 0
    else if s[0] == 'C' && s[1] == 'o' then 1
    else if s[0] == 'E' && s[14] == 'i' then 2
    else if s[0] == 'E' then 3
    else if s[0] == 'P' then 4
    else 5
  }

  function ShapeIndex(p: Prediction): int {
    match p
    case HardToPredict => 0
    case AnyDayNow => 1
    case BackInDays(_) => 2
    case WithinAWeek => 3
    case DaysAway(_) => 4
    case CheckBackIn(_) => 5
  }

  lemma ShapeOfMessage(p: Prediction)
    ensures ShapeOfText(Message(p)) == ShapeIndex(p)
  {
  }

  /** Every text belongs to exactly one message shape and one day count: the
      six shapes never produce the same text. */
  lemma MessageInjective(p: Prediction, q: Prediction)
    requires Message(p) == Message(q)
    ensures p == q
  {
    ShapeOfMessage(p);
    ShapeOfMessage(q);
    if p.BackInDays? && q.BackInDays? {
      IntInfix("Expected back in ~", " days", p.days, q.days);
    } else if p.DaysAway? && q.DaysAway? {
      IntInfix("Probably ~", " days away", p.days, q.days);
    } else if p.CheckBackIn? && q.CheckBackIn? {
      IntInfix("Check back in ~", " days", p.days, q.days);
    }
  }

  /** Worked boundaries: 0 is "any day now", 3 still counts in days, 5 is within
      a week, 14 is still "Probably", 20 says to check back. */
  lemma PredictionExamples(d: int)
    ensures PredictionText(Some(0), Some(d)) == "Could be any day now"
    ensures PredictionText(Some(3), Some(d)) == "Expected back in ~3 days"
    ensures PredictionText(Some(5), Some(d)) == "Expected back within a week"
    ensures PredictionText(Some(14), Some(d)) == "Probably ~14 days away"
    ensures PredictionText(Some(20), Some(d)) == "Check back in ~20 days"
    ensures PredictionText(None, Some(d)) == "Hard to predict"
  {
    assert IntToString(14) == "14" by { assert NatToString(14) == NatToString(1) + [DigitChar(4)]; }
    assert IntToString(20) == "20" by { assert NatToString(20) == NatToString(2) + [DigitChar(0)]; }
  }
}
