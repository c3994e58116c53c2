/** Small vocabulary shared by every component: optional values, text trimming and decimal text. */
module Prelude {

  datatype Option<+T> = None | Some(value: T) {
    function GetOr(default: T): T {
      match this
      case Some(v) => v
      case None => default
    }
  }

  const BLANKS := {
    '\t', '\n', '\U{0B}', '\U{0C}', '\r', '\U{1C}', '\U{1D}', '\U{1E}', '\U{1F}', ' ', '\U{85}', '\U{A0}', '\U{1680}',
    '\U{2000}', '\U{2001}', '\U{2002}', '\U{2003}', '\U{2004}', '\U{2005}', '\U{2006}', '\U{2007}', '\U{2008}',
    '\U{2009}', '\U{200A}', '\U{2028}', '\U{2029}', '\U{202F}', '\U{205F}', '\U{3000}'}

  /** The characters Python's str.strip() removes. */
  predicate IsBlank(c: char) { c in BLANKS }

  /** The same characters as ranges. */
  lemma BlankRanges(c: char)
    ensures IsBlank(c) <==>
      || '\t' <= c <= '\r' || '\U{1C}' <= c <= ' ' || c == '\U{85}' || c == '\U{A0}' || c == '\U{1680}'
      || '\U{2000}' <= c <= '\U{200A}' || c == '\U{2028}' || c == '\U{2029}' || c == '\U{202F}' || c == '\U{205F}'
      || c == '\U{3000}'
  {
  }

  function StripLeft(s: string): string {
    if s != [] && IsBlank(s[0]) then StripLeft(s[1..]) else s
  }

  function StripRight(s: string): string {
    if s != [] && IsBlank(s[|s| - 1]) then StripRight(s[..|s| - 1]) else s
  }

  function Strip(s: string): string {
    StripRight(StripLeft(s))
  }

  /** Trimming twice is trimming once, so a stored trimmed value is a fixed point. */
  lemma {:induction false} StripIdempotent(s: string)
    ensures Strip(Strip(s)) == Strip(s)
  {
    StripLeftStops(s);
    StripRightStops(StripLeft(s));
  }

  lemma {:induction false} StripLeftStops(s: string)
    ensures var r := StripLeft(s); r == [] || !IsBlank(r[0])
  {
    if s != [] && IsBlank(s[0]) { StripLeftStops(s[1..]); }
  }

  lemma {:induction false} StripRightStops(s: string)
    ensures var r := StripRight(s); r == [] || (!IsBlank(r[|r| - 1]) && r[0] == s[0])
  {
    if s != [] && IsBlank(s[|s| - 1]) { StripRightStops(s[..|s| - 1]); }
  }

  lemma {:induction false} StripLeftCuts(s: string) returns (i: nat)
    ensures i <= |s| && StripLeft(s) == s[i..] && forall k :: 0 <= k < i ==> IsBlank(s[k])
  {
    i := 0;
    if s != [] && IsBlank(s[0]) {
      var j := StripLeftCuts(s[1..]);
      assert s[1..][j..] == s[j + 1..];
      assert forall k :: 0 < k <= j ==> s[k] == s[1..][k - 1];
      i := j + 1;
    }
  }

  lemma {:induction false} StripRightCuts(s: string) returns (j: nat)
    ensures j <= |s| && StripRight(s) == s[..j] && forall k :: j <= k < |s| ==> IsBlank(s[k])
  {
    j := |s|;
    if s != [] && IsBlank(s[|s| - 1]) {
      j := StripRightCuts(s[..|s| - 1]);
      assert s[..|s| - 1][..j] == s[..j];
      assert forall k :: j <= k < |s| - 1 ==> s[k] == s[..|s| - 1][k];
    }
  }

  /** Trimming cuts blanks off both ends until it meets a character that is none. */
  lemma StripMeaning(s: string) returns (i: nat, j: nat)
    ensures i <= j <= |s| && Strip(s) == s[i..j]
    ensures forall k :: 0 <= k < i || j <= k < |s| ==> IsBlank(s[k])
    ensures i < j ==> !IsBlank(s[i]) && !IsBlank(s[j - 1])
  {
    var n;
    i := StripLeftCuts(s);
    n := StripRightCuts(s[i..]);
    j := i + n;
    StripLeftStops(s);
    StripRightStops(s[i..]);
    assert s[i..][..n] == s[i..j];
    assert forall k :: j <= k < |s| ==> s[k] == s[i..][k - i];
  }

  /** Text columns are nullable: the code reads `(value or "").strip()`. */
  function Text(v: Option<string>): string {
    Strip(v.GetOr(""))
  }

  /** `(plant or "").strip() or None`. */
  function NormalizePlant(v: Option<string>): Option<string> {
    if Text(v) == "" then None else Some(Text(v))
  }

  function Digit(d: nat): char
    requires d < 10
  {
    "0123456789"[d]
  }

  /** str(n) for a natural number. */
  function DecimalText(n: nat): string {
    if n < 10 then [Digit(n)] else DecimalText(n / 10) + [Digit(n % 10)]
  }

  lemma DigitInjective(a: nat, b: nat)
    requires a < 10 && b < 10 && Digit(a) == Digit(b)
    ensures a == b
  {
  }

  lemma {:induction false} DecimalTextHasOnlyDigits(n: nat)
    ensures |DecimalText(n)| > 0
    ensures '>' !in DecimalText(n)
  {
    if n >= 10 { DecimalTextHasOnlyDigits(n / 10); }
  }

  predicate IsDigit(c: char) { '0' <= c <= '9' }

  /** int(s) for a text of digits. */
  function TextValue(s: string): int {
    if s == [] then 0 else 10 * TextValue(s[..|s| - 1]) + (s[|s| - 1] as int - '0' as int)
  }

  /** The text of a number consists of digits, reads as the number and has no leading zero. */
  lemma {:induction false} DecimalTextReadsBack(n: nat)
    ensures var s := DecimalText(n);
      s != [] && TextValue(s) == n && (n > 0 ==> s[0] != '0') && forall i :: 0 <= i < |s| ==> IsDigit(s[i])
  {
    var s := DecimalText(n);
    if n >= 10 {
      DecimalTextReadsBack(n / 10);
      assert s[..|s| - 1] == DecimalText(n / 10);
    } else {
      assert TextValue(s[..0]) == 0;
    }
  }

  /** Different numbers have different texts. */
  lemma {:induction false} DecimalTextInjective(a: nat, b: nat)
    requires DecimalText(a) == DecimalText(b)
    ensures a == b
  {
    var s, t := DecimalText(a), DecimalText(b);
    assert s[|s| - 1] == Digit(a % 10) && t[|t| - 1] == Digit(b % 10);
    DigitInjective(a % 10, b % 10);
    if a >= 10 { DecimalTextHasOnlyDigits(a / 10); }
    if b >= 10 { DecimalTextHasOnlyDigits(b / 10); }
    if a >= 10 && b >= 10 {
      assert s[..|s| - 1] == DecimalText(a / 10) && t[..|t| - 1] == DecimalText(b / 10);
      DecimalTextInjective(a / 10, b / 10);
    }
  }

  /** `sep.join(parts)`. */
  function Join(sep: string, parts: seq<string>): string {
    if parts == [] then ""
    else if |parts| == 1 then parts[0]
    else parts[0] + sep + Join(sep, parts[1..])
  }

  lemma {:induction false} JoinAppends(sep: string, parts: seq<string>, last: string)
    ensures Join(sep, parts + [last]) == if parts == [] then last else Join(sep, parts) + sep + last
  {
    if |parts| > 1 {
      JoinAppends(sep, parts[1..], last);
      assert (parts + [last])[1..] == parts[1..] + [last];
    } else if |parts| == 1 {
      assert (parts + [last])[1..] == [last];
    }
  }

  lemma {:induction false} SplitAtSeparator(a: string, b: string, x: string, y: string)
    requires '>' !in a && '>' !in b
    requires a + ">" + x == b + ">" + y
    ensures a == b && x == y
  {
    var s := a + ">" + x;
    assert s[|a|] == '>' && s[|b|] == '>';
    assert forall i :: 0 <= i < |a| ==> s[i] == a[i] != '>';
    assert forall i :: 0 <= i < |b| ==> s[i] == b[i] != '>';
    assert s[..|a|] == a && s[..|b|] == b;
    assert s[|a| + 1..] == x && s[|b| + 1..] == y;
  }

  lemma SeparatorShows(a: string, x: string)
    ensures '>' in a + ">" + x
  {
    assert (a + ">" + x)[|a|] == '>';
  }

  /** A joined key determines its segments when no segment contains the separator. */
  lemma {:induction false} JoinInjective(a: seq<string>, b: seq<string>)
    requires a != [] && b != []
    requires forall i :: 0 <= i < |a| ==> '>' !in a[i]
    requires forall i :: 0 <= i < |b| ==> '>' !in b[i]
    requires Join(">", a) == Join(">", b)
    ensures a == b
  {
    if |a| > 1 { SeparatorShows(a[0], Join(">", a[1..])); }
    if |b| > 1 { SeparatorShows(b[0], Join(">", b[1..])); }
    if |a| > 1 && |b| > 1 {
      SplitAtSeparator(a[0], b[0], Join(">", a[1..]), Join(">", b[1..]));
      JoinInjective(a[1..], b[1..]);
      assert a == [a[0]] + a[1..] && b == [b[0]] + b[1..];
    }
  }

  /** Python's `<=` on strings: lexicographic by code point. */
  predicate TextLeq(a: string, b: string) {
    a == [] || (b != [] && (a[0] < b[0] || (a[0] == b[0] && TextLeq(a[1..], b[1..]))))
  }

  /** The texts agree up to k, and a has the smaller character there. */
  predicate DifferAt(a: string, b: string, k: int) {
    0 <= k < |a| && k < |b| && (forall i :: 0 <= i < k ==> a[i] == b[i]) && a[k] < b[k]
  }

  lemma DifferLater(a: string, b: string, k: int)
    requires a != [] && b != [] && a[0] == b[0]
    ensures DifferAt(a[1..], b[1..], k) ==> DifferAt(a, b, k + 1)
    ensures DifferAt(a, b, k) ==> DifferAt(a[1..], b[1..], k - 1)
    ensures a[1..] <= b[1..] <==> a <= b
  {
    if DifferAt(a[1..], b[1..], k) {
      assert forall i :: 0 < i < k + 1 ==> a[i] == a[1..][i - 1] && b[i] == b[1..][i - 1];
    }
    assert a == [a[0]] + a[1..] && b == [b[0]] + b[1..];
    if a <= b { assert a[1..] == b[..|a|][1..]; }
  }

  /** a comes before b when it is a prefix of b or has the smaller character where they first differ. */
  lemma {:induction false} TextLeqMeaning(a: string, b: string)
    ensures TextLeq(a, b) <==> a <= b || exists k :: DifferAt(a, b, k)
  {
    if a != [] && b != [] && a[0] == b[0] {
      TextLeqMeaning(a[1..], b[1..]);
      if k :| DifferAt(a[1..], b[1..], k) { DifferLater(a, b, k); }
      if k :| DifferAt(a, b, k) { DifferLater(a, b, k); }
      DifferLater(a, b, 0);
    } else if a != [] && b != [] && a[0] < b[0] {
      assert DifferAt(a, b, 0);
    }
  }

  lemma {:induction false} TextLeqTotal(a: string, b: string)
    ensures TextLeq(a, b) || TextLeq(b, a)
    ensures TextLeq(a, b) && TextLeq(b, a) ==> a == b
  {
    if a != [] && b != [] && a[0] == b[0] {
      TextLeqTotal(a[1..], b[1..]);
      assert a == [a[0]] + a[1..] && b == [b[0]] + b[1..];
    }
  }

  lemma {:induction false} TextLeqTransitive(a: string, b: string, c: string)
    requires TextLeq(a, b) && TextLeq(b, c)
    ensures TextLeq(a, c)
  {
    if a != [] && b != [] && c != [] && a[0] == b[0] == c[0] {
      TextLeqTransitive(a[1..], b[1..], c[1..]);
    }
  }

  // ---- exact decimals ----

  /** Decimal columns with four places are counted in ten-thousandths, those with six in millionths. */
  const SCALE_4 := 10_000

  const SCALE_6 := 1_000_000

  /** int(x) for a four-place decimal: truncation toward zero. */
  function WholeDays(x: int): int {
    if x >= 0 then x / SCALE_4 else -((-x) / SCALE_4)
  }

  /** Part of a day does not count, before zero or after it. */
  lemma WholeDaysTruncate(x: int, k: nat)
    ensures k * 10_000 <= x < (k + 1) * 10_000 ==> WholeDays(x) == k
    ensures k * 10_000 <= -x < (k + 1) * 10_000 ==> -WholeDays(x) == k
  {
  }

  /** num / den rounded to an integer, ties away from zero (ROUND_HALF_UP). */
  function HalfUp(num: int, den: int): int
    requires den > 0
  {
    if num >= 0 then (2 * num + den) / (2 * den) else -((-2 * num + den) / (2 * den))
  }

  /** num / den rounded to an integer, ties to the even neighbour (Python's round). */
  function HalfEven(num: int, den: int): int
    requires den > 0
  {
    var down := num / den;
    var rest := num - down * den;
    if 2 * rest < den || (2 * rest == den && down % 2 == 0) then down else down + 1
  }

  lemma MulMonotone(a: int, b: int, c: nat)
    ensures a <= b ==> a * c <= b * c
  {
  }

  lemma QuotientUnique(a: int, b: int, q: int)
    requires b > 0 && q * b <= a < (q + 1) * b
    ensures a / b == q
  {
    var r := a / b;
    assert r * b <= a < (r + 1) * b;
    MulMonotone(r + 1, q, b);
    MulMonotone(q + 1, r, b);
  }

  lemma DoubledProduct(m: int, den: int)
    ensures m * (2 * den) == 2 * (m * den) && (m + 1) * (2 * den) == 2 * (m * den) + 2 * den
  {
  }

  lemma QuotientBounds(a: int, b: int)
    requires b > 0
    ensures (a / b) * b <= a < (a / b) * b + b
  {
  }

  /** Of a non-negative quotient, half-up takes the nearest whole number and the upper one of two. */
  lemma HalfUpIsNearest(num: nat, den: int, r: int)
    requires den > 0
    ensures r == HalfUp(num, den) <==> -den < 2 * (r * den) - 2 * num <= den
  {
    var a, b := 2 * num + den, 2 * den;
    DoubledProduct(r, den);
    if r == HalfUp(num, den) { QuotientBounds(a, b); }
    if -den < 2 * (r * den) - 2 * num <= den { QuotientUnique(a, b, r); }
  }

  /** A negative quotient is rounded as its opposite. */
  lemma HalfUpIsOdd(num: int, den: int)
    requires den > 0
    ensures HalfUp(-num, den) == -HalfUp(num, den)
  {
    if num == 0 { QuotientUnique(den, 2 * den, 0); }
  }

  /** r is num / den rounded: nearer than any other whole number, or even and as near as another one. */
  predicate RoundsToEven(num: int, den: int, r: int) {
    || -den < 2 * (r * den) - 2 * num < den
    || (Abs(2 * (r * den) - 2 * num) == den && r % 2 == 0)
  }

  lemma HalfEvenRounds(num: int, den: int)
    requires den > 0
    ensures RoundsToEven(num, den, HalfEven(num, den))
  {
    var down := num / den;
    QuotientBounds(num, den);
    assert (down + 1) * den == down * den + den;
  }

  lemma RoundingIsUnique(num: int, den: int, q: int, r: int)
    requires den > 0 && RoundsToEven(num, den, q) && RoundsToEven(num, den, r)
    ensures q == r
  {
    if q < r { RoundingsDiffer(num, den, q, r); }
    if r < q { RoundingsDiffer(num, den, r, q); }
  }

  lemma RoundingsDiffer(num: int, den: int, q: int, r: int)
    requires den > 0 && q < r
    ensures !(RoundsToEven(num, den, q) && RoundsToEven(num, den, r))
  {
    MulMonotone(q + 1, r, den);
    assert (q + 1) * den == q * den + den;
    if r > q + 1 {
      MulMonotone(q + 2, r, den);
      assert (q + 2) * den == q * den + 2 * den;
    }
  }

  /** Python's round takes the nearest whole number and the even one of two. */
  lemma HalfEvenIsNearest(num: int, den: int, r: int)
    requires den > 0
    ensures r == HalfEven(num, den) <==> RoundsToEven(num, den, r)
  {
    HalfEvenRounds(num, den);
    if RoundsToEven(num, den, r) { RoundingIsUnique(num, den, HalfEven(num, den), r); }
  }

  function Abs(x: int): int {
    if x < 0 then -x else x
  }
}
