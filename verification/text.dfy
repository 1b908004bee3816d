/** Text primitives the source leans on: decimal rendering of integers
    (Python `str(int)`, a JavaScript template literal), whitespace stripping
    (Python `str.strip`, JavaScript `String.prototype.trim`), ASCII case
    mapping (Python `str.upper`, `str.title`), splitting on a single space and
    joining back (JavaScript `split(" ")`, `join(" ")`), and the code-unit order
    of JavaScript's default `sort`. */
module Text {

  // ---------------------------------------------------------------------------
  // Decimal rendering
  // ---------------------------------------------------------------------------

  predicate IsDigit(c: char) {
    '0' <= c <= '9'
  }

  function DigitChar(d: int): (c: char)
    requires 0 <= d < 10
    ensures IsDigit(c) && c as int - '0' as int == d
  {
    (d + '0' as int) as char
  }

  /** The decimal digits of `n`, without leading zeros. */
  function NatToString(n: nat): (r: string)
    ensures |r| >= 1
    ensures forall i :: 0 <= i < |r| ==> IsDigit(r[i])
    decreases n
  {
    if n < 10 then [DigitChar(n)] else NatToString(n / 10) + [DigitChar(n % 10)]
  }

  /** `str(n)` in Python, `${n}` in JavaScript, for an integer `n`. */
  function IntToString(n: int): (r: string)
    ensures |r| >= 1
    ensures r[0] == '-' <==> n < 0
  {
    if n < 0 then "-" + NatToString(-n) else NatToString(n)
  }

  /** The value of a string of decimal digits (the inverse of NatToString). */
  function DigitsValue(s: string): nat
    requires forall i :: 0 <= i < |s| ==> IsDigit(s[i])
  {
    if s == [] then 0
    else
      var d := s[|s| - 1] as int - '0' as int;
      assert IsDigit(s[|s| - 1]);
      DigitsValue(s[..|s| - 1]) * 10 + d
  }

  /** Reading back the digits of `n` gives `n`. */
  lemma {:induction false} NatToStringRoundTrip(n: nat)
    ensures DigitsValue(NatToString(n)) == n
    decreases n
  {
    if n >= 10 {
      var p := NatToString(n / 10);
      var s := p + [DigitChar(n % 10)];
      assert s[..|s| - 1] == p;
      NatToStringRoundTrip(n / 10);
    }
  }

  /** Different integers render differently. */
  lemma IntToStringInjective(m: int, n: int)
    requires IntToString(m) == IntToString(n)
    ensures m == n
  {
    var sm, sn := IntToString(m), IntToString(n);
    if m < 0 {
      assert sm[1..] == NatToString(-m);
      assert sn[1..] == NatToString(-n);
      NatToStringRoundTrip(-m);
      NatToStringRoundTrip(-n);
    } else {
      NatToStringRoundTrip(m);
      NatToStringRoundTrip(n);
    }
  }

  // ---------------------------------------------------------------------------
  // Whitespace
  // ---------------------------------------------------------------------------

  /** The characters Python's `str.strip()` removes. */
  const PY_WHITESPACE: set<char> := {
    '\U{9}', '\U{A}', '\U{B}', '\U{C}', '\U{D}', '\U{1C}', '\U{1D}', '\U{1E}',
    '\U{1F}', '\U{20}', '\U{85}', '\U{A0}', '\U{1680}', '\U{2000}', '\U{2001}', '\U{2002}',
    '\U{2003}', '\U{2004}', '\U{2005}', '\U{2006}', '\U{2007}', '\U{2008}', '\U{2009}', '\U{200A}',
    '\U{2028}', '\U{2029}', '\U{202F}', '\U{205F}', '\U{3000}'
  }

  /** The characters JavaScript's `trim()` removes. */
  const JS_WHITESPACE: set<char> := {
    '\U{9}', '\U{A}', '\U{B}', '\U{C}', '\U{D}', '\U{20}', '\U{A0}', '\U{1680}',
    '\U{2000}', '\U{2001}', '\U{2002}', '\U{2003}', '\U{2004}', '\U{2005}', '\U{2006}', '\U{2007}',
    '\U{2008}', '\U{2009}', '\U{200A}', '\U{2028}', '\U{2029}', '\U{202F}', '\U{205F}', '\U{3000}',
    '\U{FEFF}'
  }

  /** The first index from `i` on that holds no `ws` character, or `|s|`. */
  function FirstKept(s: string, ws: set<char>, i: nat): (j: nat)
    requires i <= |s|
    ensures i <= j <= |s|
    ensures forall k :: i <= k < j ==> s[k] in ws
    ensures j < |s| ==> s[j] !in ws
    decreases |s| - i
  {
    if i < |s| && s[i] in ws then FirstKept(s, ws, i + 1) else i
  }

  /** The end of the text once the `ws` characters before `j` are dropped,
      going no further back than `lo`. */
  function LastKept(s: string, ws: set<char>, lo: nat, j: nat): (e: nat)
    requires lo <= j <= |s|
    ensures lo <= e <= j
    ensures forall k :: e <= k < j ==> s[k] in ws
    ensures e > lo ==> s[e - 1] !in ws
    decreases j
  {
    if j > lo && s[j - 1] in ws then LastKept(s, ws, lo, j - 1) else j
  }

  /** Where the stripped text starts in `s`: the length of the leading run. */
  function StripOffset(s: string, ws: set<char>): (i: nat)
    ensures i <= |s|
  {
    FirstKept(s, ws, 0)
  }

  /** Removes leading and trailing characters of `ws`: what is left is the
      contiguous run of `s` that starts at `StripOffset(s, ws)` and has no `ws`
      character at either end, and everything outside it is a `ws` character. */
  function Strip(s: string, ws: set<char>): (r: string)
    ensures r == [] || (r[0] !in ws && r[|r| - 1] !in ws)
    ensures StripOffset(s, ws) + |r| <= |s|
    ensures r == s[StripOffset(s, ws)..StripOffset(s, ws) + |r|]
    ensures forall k :: 0 <= k < StripOffset(s, ws) ==> s[k] in ws
    ensures forall k :: StripOffset(s, ws) + |r| <= k < |s| ==> s[k] in ws
  {
    var i := FirstKept(s, ws, 0);
    var e := LastKept(s, ws, i, |s|);
    s[i..e]
  }

  /** Python `s.strip()`. */
  function PyStrip(s: string): string {
    Strip(s, PY_WHITESPACE)
  }

  /** JavaScript `s.length`: UTF-16 code units, so a character outside the
      Basic Multilingual Plane counts twice. */
  function JsLength(s: string): (n: nat)
    ensures |s| <= n <= 2 * |s|
    ensures (forall k :: 0 <= k < |s| ==> s[k] as int <= 0xFFFF) ==> n == |s|
  {
    if s == [] then 0
    else JsLength(s[..|s| - 1]) + (if s[|s| - 1] as int > 0xFFFF then 2 else 1)
  }

  /** JavaScript `s.trim()`. */
  function JsTrim(s: string): string {
    Strip(s, JS_WHITESPACE)
  }

  // ---------------------------------------------------------------------------
  // Case mapping (ASCII letters)
  // ---------------------------------------------------------------------------

  predicate IsLower(c: char) {
    'a' <= c <= 'z'
  }

  predicate IsUpper(c: char) {
    'A' <= c <= 'Z'
  }

  predicate IsCased(c: char) {
    IsLower(c) || IsUpper(c)
  }

  function UpperChar(c: char): (r: char)
    ensures !IsLower(r)
    ensures IsCased(c) <==> IsCased(r)
  {
    if IsLower(c) then (c as int - 32) as char else c
  }

  function LowerChar(c: char): (r: char)
    ensures !IsUpper(r)
    ensures IsCased(c) <==> IsCased(r)
  {
    if IsUpper(c) then (c as int + 32) as char else c
  }

  /** Python `s.upper()` on ASCII letters. */
  function Upper(s: string): (r: string)
    ensures |r| == |s|
    ensures forall i :: 0 <= i < |s| ==> r[i] == UpperChar(s[i])
  {
    seq(|s|, i requires 0 <= i < |s| => UpperChar(s[i]))
  }

  /** Python `s.title()` on ASCII letters: a letter that follows a letter is
      lower-cased, every other letter is upper-cased. */
  function Title(s: string): (r: string)
    ensures |r| == |s|
    ensures forall i :: 0 <= i < |s| ==>
      r[i] == (if i > 0 && IsCased(s[i - 1]) then LowerChar(s[i]) else UpperChar(s[i]))
  {
    seq(|s|, i requires 0 <= i < |s| =>
      if i > 0 && IsCased(s[i - 1]) then LowerChar(s[i]) else UpperChar(s[i]))
  }

  // ---------------------------------------------------------------------------
  // Splitting on a single space
  // ---------------------------------------------------------------------------

  /** Index of the first space in `s`, or `|s|` when there is none. */
  function SpaceIndex(s: string): (i: nat)
    ensures i <= |s|
    ensures forall k :: 0 <= k < i ==> s[k] != ' '
    ensures i < |s| ==> s[i] == ' '
  {
    SpaceFrom(s, 0)
  }

  /** Index of the first space at or after `i`, or `|s|`. */
  function SpaceFrom(s: string, i: nat): (j: nat)
    requires i <= |s|
    ensures i <= j <= |s|
    ensures forall k :: i <= k < j ==> s[k] != ' '
    ensures j < |s| ==> s[j] == ' '
    decreases |s| - i
  {
    if i == |s| || s[i] == ' ' then i else SpaceFrom(s, i + 1)
  }

  /** JavaScript `s.split(" ")`: always at least one part. */
  function Split(s: string): (parts: seq<string>)
    ensures |parts| >= 1
    decreases |s|
  {
    var i := SpaceIndex(s);
    if i == |s| then [s] else [s[..i]] + Split(s[i + 1..])
  }

  /** No part of a split holds a space. */
  lemma {:induction false} SplitNoSpace(s: string)
    ensures forall k, j :: 0 <= k < |Split(s)| && 0 <= j < |Split(s)[k]| ==> Split(s)[k][j] != ' '
    decreases |s|
  {
    var i := SpaceIndex(s);
    if i < |s| {
      SplitUnfold(s);
      SplitNoSpace(s[i + 1..]);
    }
  }

  /** JavaScript `parts.join(" ")`. */
  function Join(parts: seq<string>): string {
    if parts == [] then ""
    else if |parts| == 1 then parts[0]
    else parts[0] + " " + Join(parts[1..])
  }

  /** Before the first space the split cuts off one part. */
  lemma SplitUnfold(s: string)
    requires SpaceIndex(s) < |s|
    ensures Split(s) == [s[..SpaceIndex(s)]] + Split(s[SpaceIndex(s) + 1..])
  {
  }

  lemma JoinCons(a: string, rest: seq<string>)
    requires rest != []
    ensures Join([a] + rest) == a + " " + Join(rest)
  {
    assert ([a] + rest)[1..] == rest;
  }

  lemma PrefixCons<T>(a: T, rest: seq<T>, n: nat)
    requires 1 <= n <= |rest| + 1
    ensures ([a] + rest)[..n] == [a] + rest[..n - 1]
  {
  }

  /** One step of a split followed by a join. */
  lemma SplitJoinStep(s: string)
    requires SpaceIndex(s) < |s|
    ensures Join(Split(s)) == s[..SpaceIndex(s)] + " " + Join(Split(s[SpaceIndex(s) + 1..]))
  {
    SplitUnfold(s);
    JoinCons(s[..SpaceIndex(s)], Split(s[SpaceIndex(s) + 1..]));
  }

  lemma AroundSpace(s: string, i: nat)
    requires i < |s| && s[i] == ' '
    ensures s == s[..i] + " " + s[i + 1..]
  {
    assert s == s[..i] + [s[i]] + s[i + 1..];
  }

  /** Splitting and joining back is the identity. */
  lemma {:induction false} JoinSplit(s: string)
    ensures Join(Split(s)) == s
    decreases |s|
  {
    var i := SpaceIndex(s);
    if i < |s| {
      SplitJoinStep(s);
      JoinSplit(s[i + 1..]);
      AroundSpace(s, i);
    } else {
      assert Split(s) == [s];
    }
  }

  /** Joining the first `n` parts of a split gives a prefix of the input. */
  lemma {:induction false} JoinSplitPrefix(s: string, n: nat)
    requires 1 <= n <= |Split(s)|
    ensures var p := Join(Split(s)[..n]); |p| <= |s| && p == s[..|p|]
    decreases |s|
  {
    var i := SpaceIndex(s);
    if i < |s| && n > 1 {
      var a, t := s[..i], s[i + 1..];
      var rest := Split(t);
      SplitUnfold(s);
      PrefixCons(a, rest, n);
      JoinCons(a, rest[..n - 1]);
      JoinSplitPrefix(t, n - 1);
      var q := Join(rest[..n - 1]);
      assert q == t[..|q|];
      assert Join(Split(s)[..n]) == a + [s[i]] + q;
      assert s[..i + 1 + |q|] == a + [s[i]] + t[..|q|];
    } else {
      assert n == 1;
      SplitHead(s);
      assert Split(s)[..n] == [s[..i]];
    }
  }

  /** Joining splits at any inner boundary: the parts before it, a space,
      and the parts after it. */
  lemma {:induction false} JoinAt(parts: seq<string>, n: nat)
    requires 1 <= n < |parts|
    ensures Join(parts) == Join(parts[..n]) + " " + Join(parts[n..])
  {
    var rest := parts[1..];
    assert parts == [parts[0]] + rest;
    JoinCons(parts[0], rest);
    if n > 1 {
      JoinAt(rest, n - 1);
      PrefixCons(parts[0], rest, n);
      JoinCons(parts[0], rest[..n - 1]);
      assert parts[n..] == rest[n - 1..];
    }
  }

  /** The first part of a split runs up to the first space. */
  lemma SplitHead(s: string)
    ensures Split(s)[0] == s[..SpaceIndex(s)]
  {
  }

  // ---------------------------------------------------------------------------
  // Code-unit order (JavaScript's default sort on strings)
  // ---------------------------------------------------------------------------

  /** `a` sorts strictly before `b`: a proper prefix, or smaller at the first difference. */
  predicate StrLess(a: string, b: string) {
    if a == [] then b != []
    else if b == [] then false
    else if a[0] != b[0] then a[0] < b[0]
    else StrLess(a[1..], b[1..])
  }

  lemma {:induction false} StrLessIrreflexive(a: string)
    ensures !StrLess(a, a)
  {
    if a != [] {
      StrLessIrreflexive(a[1..]);
    }
  }

  lemma {:induction false} StrLessTransitive(a: string, b: string, c: string)
    requires StrLess(a, b) && StrLess(b, c)
    ensures StrLess(a, c)
  {
    if a != [] && b != [] && c != [] && a[0] == b[0] && b[0] == c[0] {
      StrLessTransitive(a[1..], b[1..], c[1..]);
    }
  }

  lemma {:induction false} StrLessTotal(a: string, b: string)
    requires a != b
    ensures StrLess(a, b) || StrLess(b, a)
  {
    if a != [] && b != [] && a[0] == b[0] {
      assert a == [a[0]] + a[1..] && b == [b[0]] + b[1..];
      StrLessTotal(a[1..], b[1..]);
    }
  }

  lemma {:induction false} StrLessAsymmetric(a: string, b: string)
    requires StrLess(a, b)
    ensures !StrLess(b, a)
  {
    if a != [] && b != [] && a[0] == b[0] {
      StrLessAsymmetric(a[1..], b[1..]);
    }
  }
}
