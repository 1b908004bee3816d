/** Values shared by the scraper and the web app: optional values, the two
    retailers, the frequency classes and the kinds of special. */
module Common {

  /** A value that may be absent (Python `None`, TypeScript `null`/`undefined`). */
  datatype Option<+T> = None | Some(value: T) {
    /** `x ?? d` in TypeScript, `x if x is not None else d` in Python. */
    function GetOr(default: T): T {
      match this
      case Some(v) => v
      case None => default
    }
  }

  /** The two retailers. Stored as the strings "woolworths" and "coles". */
  datatype Store = Woolworths | Coles

  /** The store's code as the database and the web app spell it. */
  function StoreCode(s: Store): (r: string)
    ensures r == "woolworths" <==> s == Woolworths
    ensures r == "coles" <==> s == Coles
  {
    match s
    case Woolworths => "woolworths"
    case Coles => "coles"
  }

  /** The frequency classes written by the intelligence pipeline. `Never` is
      written for catalogue items that were never seen on special. */
  datatype FrequencyClass = Frequent | Sometimes | Rare | Never

  /** One of the three classes the web app ranks and colours; `Never` and an
      absent class fall to the default presentation. */
  predicate IsRanked(fc: Option<FrequencyClass>) {
    fc.Some? && fc.value != Never
  }

  /** `special_type` of a scraped special. */
  datatype SpecialType = HalfPrice | Reduced

  /** Truthiness of an optional integer: absent and zero are falsy. */
  predicate IntTruthy(x: Option<int>) {
    x.Some? && x.value != 0
  }

  /** Truthiness of an optional real (a JSON number). */
  predicate RealTruthy(x: Option<real>) {
    x.Some? && x.value != 0.0
  }

  /** Truthiness of an optional string: absent and empty are falsy. */
  predicate StrTruthy(x: Option<string>) {
    x.Some? && x.value != ""
  }

  /** Python's `a or b` on optional strings. */
  function StrOr(a: Option<string>, b: Option<string>): (r: Option<string>)
    ensures StrTruthy(a) ==> r == a
    ensures !StrTruthy(a) ==> r == b
  {
    if StrTruthy(a) then a else b
  }

  function Min(a: int, b: int): (r: int)
    ensures r <= a && r <= b && (r == a || r == b)
  {
    if a <= b then a else b
  }

  function Max(a: int, b: int): (r: int)
    ensures r >= a && r >= b && (r == a || r == b)
  {
    if a >= b then a else b
  }

  /** Concatenation regroups freely; stated once so that proofs over large
      element types need not rediscover it. */
  lemma ConcatAssoc<T>(x: seq<T>, y: seq<T>, z: seq<T>)
    ensures (x + y) + z == x + (y + z)
  {
  }
}
