/** Sale-history statistics: from the dated on-special intervals of one
    product, the number of appearances, days since the last sale, the average
    gap between sales, a frequency class, the expected days until the next sale
    and the last discount. Dates are day numbers and `today` is a parameter. */
module Intelligence {
  import opened Common
  import opened Records

  // ---------------------------------------------------------------------------
  // Sorting by first_seen (Python's stable `sorted`)
  // ---------------------------------------------------------------------------

  predicate SortedByFirstSeen(s: seq<HistoryRow>) {
    forall i, j :: 0 <= i < j < |s| ==> s[i].firstSeen <= s[j].firstSeen
  }

  /** Places `x` before the first row that starts strictly later, after no
      row that starts at the same day: `x` stays ahead of its equals. */
  function InsertByFirstSeen(x: HistoryRow, s: seq<HistoryRow>): (r: seq<HistoryRow>)
    requires SortedByFirstSeen(s)
    ensures SortedByFirstSeen(r)
    ensures |r| == |s| + 1
    ensures r[0] == x || (s != [] && r[0] == s[0])
  {
    if s == [] || x.firstSeen <= s[0].firstSeen then
      [x] + s
    else
      [s[0]] + InsertByFirstSeen(x, s[1..])
  }

  /** Inserting adds `x` and keeps every other row. */
  lemma {:induction false} InsertByFirstSeenPerm(x: HistoryRow, s: seq<HistoryRow>)
    requires SortedByFirstSeen(s)
    ensures multiset(InsertByFirstSeen(x, s)) == multiset(s) + multiset{x}
  {
    if s != [] && x.firstSeen > s[0].firstSeen {
      InsertByFirstSeenPerm(x, s[1..]);
      assert s == [s[0]] + s[1..];
    }
  }

  /** `sorted(history, key=lambda h: h["first_seen"])`. */
  function SortByFirstSeen(h: seq<HistoryRow>): (r: seq<HistoryRow>)
    ensures SortedByFirstSeen(r)
    ensures multiset(r) == multiset(h)
    ensures |r| == |h|
  {
    if h == [] then []
    else
      assert h == [h[0]] + h[1..];
      InsertByFirstSeenPerm(h[0], SortByFirstSeen(h[1..]));
      InsertByFirstSeen(h[0], SortByFirstSeen(h[1..]))
  }

  /** The rows of `s` that start on day `d`, in their order in `s`. */
  function WithStart(s: seq<HistoryRow>, d: int): seq<HistoryRow> {
    if s == [] then []
    else (if s[0].firstSeen == d then [s[0]] else []) + WithStart(s[1..], d)
  }

  /** Inserting puts `x` ahead of the rows that start on its own day. */
  lemma {:induction false} InsertStable(x: HistoryRow, s: seq<HistoryRow>, d: int)
    requires SortedByFirstSeen(s)
    ensures WithStart(InsertByFirstSeen(x, s), d)
         == (if x.firstSeen == d then [x] else []) + WithStart(s, d)
  {
    var r := InsertByFirstSeen(x, s);
    var px := if x.firstSeen == d then [x] else [];
    if s == [] || x.firstSeen <= s[0].firstSeen {
      assert r == [x] + s;
      assert r[1..] == s;
    } else {
      var rest := InsertByFirstSeen(x, s[1..]);
      var p0 := if s[0].firstSeen == d then [s[0]] else [];
      assert r == [s[0]] + rest;
      assert r[1..] == rest;
      InsertStable(x, s[1..], d);
      assert WithStart(r, d) == p0 + (px + WithStart(s[1..], d));
      assert WithStart(s, d) == p0 + WithStart(s[1..], d);
      assert p0 == [] || px == [];
    }
  }

  /** The sort is stable: for every day, the rows starting on that day come
      out in their history order. */
  lemma {:induction false} SortByFirstSeenStable(h: seq<HistoryRow>, d: int)
    ensures WithStart(SortByFirstSeen(h), d) == WithStart(h, d)
  {
    if h != [] {
      SortByFirstSeenStable(h[1..], d);
      InsertStable(h[0], SortByFirstSeen(h[1..]), d);
    }
  }

  /** `h[i]` starts no earlier than any row of `h`, and every later row
      starts strictly earlier: the last of the latest-starting rows. */
  predicate LastOfLatest(h: seq<HistoryRow>, i: int) {
    0 <= i < |h|
    && (forall j :: 0 <= j < |h| ==> h[j].firstSeen <= h[i].firstSeen)
    && (forall j :: i < j < |h| ==> h[j].firstSeen < h[i].firstSeen)
  }

  /** The last row after sorting is a row of the history that starts no
      earlier than any other; since the sort is stable, among rows that start
      on that same day it is the one that comes last in the history. */
  lemma LastSortedIsLatest(h: seq<HistoryRow>)
    requires h != []
    ensures var s := SortByFirstSeen(h);
            s[|s| - 1] in h && forall x :: x in h ==> x.firstSeen <= s[|s| - 1].firstSeen
    ensures exists i :: LastOfLatest(h, i) && SortByFirstSeen(h)[|h| - 1] == h[i]
  {
    var s := SortByFirstSeen(h);
    SortedLastIsLatest(s);
    SameRows(s, h);
    SortedLastIsLastOfLatest(h);
  }

  /** Inserting into a sorted list changes its last row only when the new
      row starts strictly later. */
  lemma {:induction false} InsertLast(x: HistoryRow, s: seq<HistoryRow>)
    requires SortedByFirstSeen(s) && s != []
    ensures var r := InsertByFirstSeen(x, s);
      r[|r| - 1] == (if x.firstSeen > s[|s| - 1].firstSeen then x else s[|s| - 1])
  {
    if x.firstSeen > s[0].firstSeen && |s| > 1 {
      InsertLast(x, s[1..]);
    }
  }

  lemma {:induction false} SortedLastIsLastOfLatest(h: seq<HistoryRow>)
    requires h != []
    ensures exists i :: LastOfLatest(h, i) && SortByFirstSeen(h)[|h| - 1] == h[i]
  {
    if |h| == 1 {
      assert SortByFirstSeen(h)[0] == h[0];
      assert LastOfLatest(h, 0);
    } else {
      var t := h[1..];
      SortedLastIsLastOfLatest(t);
      var k :| LastOfLatest(t, k) && SortByFirstSeen(t)[|t| - 1] == t[k];
      var st := SortByFirstSeen(t);
      var s := InsertByFirstSeen(h[0], st);
      assert SortByFirstSeen(h) == s;
      InsertLast(h[0], st);
      LastOfLatestStep(h, k);
      if h[0].firstSeen > t[k].firstSeen {
        assert s[|h| - 1] == h[0];
        assert LastOfLatest(h, 0) && SortByFirstSeen(h)[|h| - 1] == h[0];
      } else {
        assert s[|h| - 1] == h[k + 1];
        assert LastOfLatest(h, k + 1) && SortByFirstSeen(h)[|h| - 1] == h[k + 1];
      }
    }
  }

  /** Putting a row in front of `h[1..]` whose last latest row is `h[1..][k]`:
      the front row is the last latest row when it starts strictly later,
      otherwise `h[k + 1]` still is. */
  lemma LastOfLatestStep(h: seq<HistoryRow>, k: int)
    requires |h| > 1 && LastOfLatest(h[1..], k)
    ensures h[0].firstSeen > h[k + 1].firstSeen ==> LastOfLatest(h, 0)
    ensures h[0].firstSeen <= h[k + 1].firstSeen ==> LastOfLatest(h, k + 1)
  {
    var t := h[1..];
    assert forall j :: 0 < j < |h| ==> h[j] == t[j - 1];
  }

  lemma SortedLastIsLatest(s: seq<HistoryRow>)
    requires SortedByFirstSeen(s) && s != []
    ensures forall x :: x in s ==> x.firstSeen <= s[|s| - 1].firstSeen
  {
    forall x | x in s ensures x.firstSeen <= s[|s| - 1].firstSeen {
      var k :| 0 <= k < |s| && s[k] == x;
    }
  }

  lemma SameRows(a: seq<HistoryRow>, b: seq<HistoryRow>)
    requires multiset(a) == multiset(b)
    ensures forall x :: x in a <==> x in b
  {
    forall x ensures x in a <==> x in b {
      assert x in a <==> x in multiset(a);
      assert x in b <==> x in multiset(b);
    }
  }

  // ---------------------------------------------------------------------------
  // _compute_avg_gap
  // ---------------------------------------------------------------------------

  /** Python's `round(num / den)`: the nearest integer, ties to the even one. */
  function RoundHalfEven(num: int, den: int): (r: int)
    requires den > 0
    ensures -den <= 2 * (num - r * den) <= den
    ensures 2 * (num - r * den) == den || 2 * (num - r * den) == -den ==> r % 2 == 0
  {
    var q := num / den;
    var rem := num % den;
    if 2 * rem < den then q
    else if 2 * rem > den then q + 1
    else if q % 2 == 0 then q
    else q + 1
  }

  function Sum(xs: seq<int>): int {
    if xs == [] then 0 else Sum(xs[..|xs| - 1]) + xs[|xs| - 1]
  }

  /** The gap before the `i`-th sorted interval: from the previous last_seen to
      this first_seen. */
  function GapBefore(s: seq<HistoryRow>, i: nat): int
    requires 1 <= i < |s|
  {
    s[i].firstSeen - s[i - 1].lastSeen
  }

  /** The gaps of more than one day, in order. */
  function Gaps(s: seq<HistoryRow>): (gs: seq<int>)
    ensures forall k :: 0 <= k < |gs| ==> gs[k] > 1
    ensures |gs| < |s| || s == []
  {
    if |s| < 2 then []
    else
      var g := GapBefore(s, |s| - 1);
      Gaps(s[..|s| - 1]) + (if g > 1 then [g] else [])
  }

  /** `_compute_avg_gap` as a value: None for fewer than two intervals or when
      no gap exceeds a day, otherwise the rounded mean of the qualifying gaps. */
  function AvgGap(s: seq<HistoryRow>): Option<int> {
    if |s| < 2 then None
    else
      var gs := Gaps(s);
      if gs == [] then None else Some(RoundHalfEven(Sum(gs), |gs|))
  }

  lemma {:induction false} SumBounds(xs: seq<int>, lo: int)
    requires forall k :: 0 <= k < |xs| ==> xs[k] >= lo
    ensures Sum(xs) >= lo * |xs|
  {
    if xs != [] {
      SumBounds(xs[..|xs| - 1], lo);
    }
  }

  /** Every qualifying gap exceeds a day, so an average, when there is one,
      is at least two days and the nearest integer to the mean gap. */
  lemma AvgGapAtLeastTwo(s: seq<HistoryRow>)
    ensures var a := AvgGap(s);
            a.Some? ==> a.value >= 2
                        && -|Gaps(s)| <= 2 * (Sum(Gaps(s)) - a.value * |Gaps(s)|) <= |Gaps(s)|
  {
    var a := AvgGap(s);
    if a.Some? {
      var gs := Gaps(s);
      SumBounds(gs, 2);
      var n := |gs|;
      var r := a.value;
      assert -n <= 2 * (Sum(gs) - r * n) <= n;
    }
  }

  lemma GapsStep(s: seq<HistoryRow>, i: nat)
    requires 1 <= i < |s|
    ensures var g := s[i].firstSeen - s[i - 1].lastSeen;
            Gaps(s[..i + 1]) == Gaps(s[..i]) + (if g > 1 then [g] else [])
  {
    assert s[..i + 1][..i] == s[..i];
  }

  lemma SumAppend(xs: seq<int>, g: int)
    ensures Sum(xs + [g]) == Sum(xs) + g
  {
    assert (xs + [g])[..|xs|] == xs;
  }

  /** `_compute_avg_gap`: collects the gaps of more than a day in one pass. */
  method ComputeAvgGap(sorted: seq<HistoryRow>) returns (avg: Option<int>)
    ensures avg == AvgGap(sorted)
  {
    if |sorted| < 2 {
      return None;
    }
    var gaps: seq<int> := [];
    var total := 0;
    var i := 1;
    while i < |sorted|
      invariant 1 <= i <= |sorted|
      invariant gaps == Gaps(sorted[..i])
      invariant total == Sum(gaps)
    {
      var gap := sorted[i].firstSeen - sorted[i - 1].lastSeen;
      GapsStep(sorted, i);
      SumAppend(gaps, gap);
      if gap > 1 {
        gaps := gaps + [gap];
        total := total + gap;
      }
      i := i + 1;
    }
    assert sorted[..i] == sorted;
    if gaps == [] {
      return None;
    }
    avg := Some(RoundHalfEven(total, |gaps|));
  }

  // ---------------------------------------------------------------------------
  // _classify_frequency
  // ---------------------------------------------------------------------------

  /** `_classify_frequency`. */
  function ClassifyFrequency(avgDays: Option<int>, totalTimes: int): (r: Option<FrequencyClass>)
    ensures r == Some(Never) <==> totalTimes == 0
    ensures r == None <==> totalTimes != 0 && avgDays.None?
    ensures r == Some(Frequent) <==> totalTimes != 0 && avgDays.Some? && avgDays.value <= 21
    ensures r == Some(Sometimes) <==> totalTimes != 0 && avgDays.Some? && 21 < avgDays.value <= 56
    ensures r == Some(Rare) <==> totalTimes != 0 && avgDays.Some? && 56 < avgDays.value
  {
    if totalTimes == 0 then Some(Never)
    else if avgDays.None? then None
    else if avgDays.value <= 21 then Some(Frequent)
    else if avgDays.value <= 56 then Some(Sometimes)
    else Some(Rare)
  }

  /** How often a class says sales come round: 3 for frequent down to 1 for rare. */
  function Rank(fc: Option<FrequencyClass>): nat {
    match fc
    case Some(Frequent) => 3
    case Some(Sometimes) => 2
    case Some(Rare) => 1
    case _ => 0
  }

  /** A longer average gap never gives a more frequent class. */
  lemma ClassifyMonotone(a: int, b: int, total: int)
    requires total != 0 && a <= b
    ensures Rank(ClassifyFrequency(Some(b), total)) <= Rank(ClassifyFrequency(Some(a), total))
    ensures Rank(ClassifyFrequency(Some(a), total)) >= 1
  {
  }

  // ---------------------------------------------------------------------------
  // _parse_date
  // ---------------------------------------------------------------------------

  /** The value stored in a date column: null, text, or an already-typed date. */
  datatype RawDate = Null | Text(s: string) | Day(day: int)

  /** `_parse_date`: None for a falsy value; a date is kept; text is parsed as
      an ISO date from its first ten characters by `fromIso`, which stands for
      `date.fromisoformat` and yields None where that raises. */
  function ParseDate(raw: RawDate, fromIso: string -> Option<int>): (r: Option<int>)
    ensures raw == Null || raw == Text("") ==> r == None
    ensures raw.Day? ==> r == Some(raw.day)
    ensures raw.Text? && |raw.s| >= 10 ==> r == fromIso(raw.s[..10])
    ensures raw.Text? && 0 < |raw.s| < 10 ==> r == fromIso(raw.s)
  {
    match raw
    case Null => None
    case Day(d) => Some(d)
    case Text(s) => if s == "" then None else if |s| >= 10 then fromIso(s[..10]) else fromIso(s)
  }

  /** Only the first ten characters of a text are read. */
  lemma ParseDateReadsTenChars(s: string, t: string, fromIso: string -> Option<int>)
    requires |s| >= 10 && |t| >= 10 && s[..10] == t[..10]
    ensures ParseDate(Text(s), fromIso) == ParseDate(Text(t), fromIso)
  {
  }

  // ---------------------------------------------------------------------------
  // compute_intel
  // ---------------------------------------------------------------------------

  /** The statistics of a non-empty history already sorted by `first_seen`. */
  function IntelFromSorted(sorted: seq<HistoryRow>, isOnSpecialNow: bool,
                           currentDiscount: Option<int>, today: int): (r: IntelStats)
    requires sorted != []
    ensures r.isOnSpecialNow == isOnSpecialNow
    ensures r.totalTimesOnSpecial == |sorted| + (if isOnSpecialNow then 1 else 0)
    ensures r.avgFrequencyDays == AvgGap(sorted)
    ensures r.frequencyClass == ClassifyFrequency(r.avgFrequencyDays, r.totalTimesOnSpecial)
    ensures r.frequencyClass != Some(Never)
    ensures r.frequencyClass == None <==> r.avgFrequencyDays == None
    ensures isOnSpecialNow ==>
      r.daysSinceLastSpecial == Some(0) && r.expectedDaysUntilNext == Some(0)
      && r.lastSpecialDate == Some(today)
    ensures !isOnSpecialNow ==>
      var last := sorted[|sorted| - 1];
      r.daysSinceLastSpecial == Some(today - last.lastSeen)
      && r.lastSpecialDate == Some(last.lastSeen)
      && (r.expectedDaysUntilNext.Some? <==> IntTruthy(r.avgFrequencyDays))
      && (r.expectedDaysUntilNext.Some? ==>
            r.expectedDaysUntilNext.value == Max(0, r.avgFrequencyDays.value - (today - last.lastSeen)))
    ensures r.expectedDaysUntilNext.Some? ==> r.expectedDaysUntilNext.value >= 0
    ensures IntTruthy(currentDiscount) ==> r.lastDiscountPct == currentDiscount
    ensures !IntTruthy(currentDiscount) ==> r.lastDiscountPct == sorted[|sorted| - 1].discountPct
  {
    var totalTimes := |sorted| + (if isOnSpecialNow then 1 else 0);
    var lastSeen := sorted[|sorted| - 1].lastSeen;
    var daysSince := if isOnSpecialNow then 0 else today - lastSeen;
    var avg := AvgGap(sorted);
    var expected: Option<int> :=
      if !isOnSpecialNow && IntTruthy(avg) then Some(Max(0, avg.value - daysSince)) else None;
    var lastDisc := if IntTruthy(currentDiscount) then currentDiscount
                    else sorted[|sorted| - 1].discountPct;
    IntelStats(
      avgFrequencyDays := avg,
      frequencyClass := ClassifyFrequency(avg, totalTimes),
      daysSinceLastSpecial := Some(daysSince),
      expectedDaysUntilNext := if isOnSpecialNow then Some(0) else expected,
      isOnSpecialNow := isOnSpecialNow,
      lastSpecialDate := if isOnSpecialNow then Some(today) else Some(lastSeen),
      lastDiscountPct := lastDisc,
      totalTimesOnSpecial := totalTimes)
  }

  /** `compute_intel` for the history rows of one (store, product_id). */
  function ComputeIntel(history: seq<HistoryRow>, isOnSpecialNow: bool,
                        currentDiscount: Option<int>, today: int): (r: IntelStats)
    ensures r.isOnSpecialNow == isOnSpecialNow
    ensures history == [] ==>
      r.avgFrequencyDays == None && r.frequencyClass == None
      && r.daysSinceLastSpecial == None && r.expectedDaysUntilNext == None
      && r.lastSpecialDate == (if isOnSpecialNow then Some(today) else None)
      && r.lastDiscountPct == currentDiscount
      && r.totalTimesOnSpecial == (if isOnSpecialNow then 1 else 0)
    ensures history != [] ==>
      r == IntelFromSorted(SortByFirstSeen(history), isOnSpecialNow, currentDiscount, today)
      && r.totalTimesOnSpecial == |history| + (if isOnSpecialNow then 1 else 0)
  {
    if history == [] then
      IntelStats(
        avgFrequencyDays := None,
        frequencyClass := None,
        daysSinceLastSpecial := None,
        expectedDaysUntilNext := None,
        isOnSpecialNow := isOnSpecialNow,
        lastSpecialDate := if isOnSpecialNow then Some(today) else None,
        lastDiscountPct := currentDiscount,
        totalTimesOnSpecial := if isOnSpecialNow then 1 else 0)
    else
      IntelFromSorted(SortByFirstSeen(history), isOnSpecialNow, currentDiscount, today)
  }

  /** A product seen on special exactly once before and not now has no average
      and therefore no class and no expectation. */
  lemma SingleIntervalHasNoPrediction(h: HistoryRow, today: int, d: Option<int>)
    ensures var r := ComputeIntel([h], false, d, today);
            r.avgFrequencyDays == None && r.frequencyClass == None
            && r.expectedDaysUntilNext == None && r.totalTimesOnSpecial == 1
            && r.daysSinceLastSpecial == Some(today - h.lastSeen)
  {
    assert SortByFirstSeen([h]) == [h];
  }

  /** When no sale is running, the last discount comes from an interval that
      started no earlier than any other. */
  lemma LastDiscountFromLatestInterval(history: seq<HistoryRow>, today: int, d: Option<int>)
    requires history != [] && !IntTruthy(d)
    ensures exists h :: h in history
                     && (forall x :: x in history ==> x.firstSeen <= h.firstSeen)
                     && ComputeIntel(history, false, d, today).lastDiscountPct == h.discountPct
  {
    LastSortedIsLatest(history);
    var s := SortByFirstSeen(history);
    var h := s[|s| - 1];
    assert h in history;
  }
}
