/**
 * The string primitives the chunker relies on: `indexOf`, `lastIndexOf`,
 * the global match count of a literal pattern, and the decimal rendering
 * of a counter in a template string.
 */
module Text {

  /** `pat` occurs in `s` starting at index `j`. */
  predicate OccursAt(s: string, pat: string, j: int)
  {
    0 <= j && j + |pat| <= |s| && s[j..j + |pat|] == pat
  }

  /** `s.indexOf(pat)`: the first index at which `pat` occurs, or -1. */
  function IndexOf(s: string, pat: string): (r: int)
    ensures r == -1 || OccursAt(s, pat, r)
    ensures forall j :: 0 <= j && (r == -1 || j < r) ==> !OccursAt(s, pat, j)
    decreases |s|
  {
    if |s| < |pat| then -1
    else if s[..|pat|] == pat then 0
    else
      var k := IndexOf(s[1..], pat);
      assert forall j :: 1 <= j ==> OccursAt(s, pat, j) == OccursAt(s[1..], pat, j - 1);
      if k == -1 then -1 else k + 1
  }

  /** `s.lastIndexOf(c)` for a one-character pattern: the last index holding `c`, or -1. */
  function LastIndexOf(s: string, c: char): (r: int)
    ensures -1 <= r < |s|
    ensures r >= 0 ==> s[r] == c
    ensures forall j :: r < j < |s| ==> s[j] != c
  {
    if |s| == 0 then -1
    else if s[|s| - 1] == c then |s| - 1
    else LastIndexOf(s[..|s| - 1], c)
  }

  const Fence: string := "```"

  /** Three backticks open `s`. */
  predicate FenceFirst(s: string)
  {
    |s| >= 3 && s[0] == '`' && s[1] == '`' && s[2] == '`'
  }

  lemma FenceFirstOccurs(s: string)
    ensures FenceFirst(s) <==> OccursAt(s, Fence, 0)
  {
    if |s| >= 3 {
      assert s[..3] == [s[0], s[1], s[2]];
    }
  }

  /**
   * `(s.match(/```/g) || []).length`: the number of occurrences of three
   * backticks found by scanning left to right, each match resuming the scan
   * just after itself (so matches never overlap).
   */
  function FenceCount(s: string): nat
  {
    if |s| < 3 then 0
    else if FenceFirst(s) then 1 + FenceCount(s[3..])
    else FenceCount(s[1..])
  }

  /** The count is positive exactly when `indexOf` finds a fence. */
  lemma {:induction false} FenceCountFinds(s: string)
    ensures FenceCount(s) > 0 <==> IndexOf(s, Fence) >= 0
  {
    FenceFirstOccurs(s);
    if |s| >= 3 && !FenceFirst(s) {
      assert forall j :: 1 <= j ==> OccursAt(s, Fence, j) == OccursAt(s[1..], Fence, j - 1);
      FenceCountFinds(s[1..]);
    }
  }

  /** The text does not end with a backtick. */
  predicate EndsClear(s: string) { s == [] || s[|s| - 1] != '`' }

  /** The text does not start with a backtick. */
  predicate StartsClear(s: string) { s == [] || s[0] != '`' }

  /**
   * Fence counts add up across a joint that no fence can straddle: when the
   * left piece does not end, or the right piece does not start, with a backtick.
   */
  lemma {:induction false} FenceCountConcat(a: string, b: string)
    requires EndsClear(a) || StartsClear(b)
    ensures FenceCount(a + b) == FenceCount(a) + FenceCount(b)
    decreases |a|
  {
    if a == [] {
      assert a + b == b;
    } else if FenceFirst(a) {
      assert FenceFirst(a + b);
      assert (a + b)[3..] == a[3..] + b;
      if a[3..] != [] { assert a[3..][|a[3..]| - 1] == a[|a| - 1]; }
      FenceCountConcat(a[3..], b);
    } else {
      if |a + b| >= 3 && |a| < 3 && EndsClear(a) {
        assert (a + b)[|a| - 1] == a[|a| - 1];
      } else if |a + b| >= 3 && |a| < 3 {
        assert (a + b)[|a|] == b[0];
      }
      assert !FenceFirst(a + b);
      assert (a + b)[1..] == a[1..] + b;
      if a[1..] != [] { assert a[1..][|a[1..]| - 1] == a[|a| - 1]; }
      FenceCountConcat(a[1..], b);
    }
  }

  /** The character for a decimal digit. */
  function DigitChar(d: nat): (c: char)
    requires d < 10
    ensures '0' <= c <= '9' && c as int - '0' as int == d
  {
    ('0' as int + d) as char
  }

  predicate IsDigits(s: string)
  {
    forall i :: 0 <= i < |s| ==> '0' <= s[i] <= '9'
  }

  /** The decimal rendering of a counter, as in a template string `${n}`. */
  function Decimal(n: nat): (s: string)
    ensures |s| > 0 && IsDigits(s)
    decreases n
  {
    if n < 10 then [DigitChar(n)] else Decimal(n / 10) + [DigitChar(n % 10)]
  }

  /** Reads a string of decimal digits back as a number. */
  function ParseDecimal(s: string): nat
    requires IsDigits(s)
  {
    if s == [] then 0
    else 10 * ParseDecimal(s[..|s| - 1]) + (s[|s| - 1] as int - '0' as int)
  }

  lemma {:induction false} DecimalRoundTrip(n: nat)
    ensures ParseDecimal(Decimal(n)) == n
    decreases n
  {
    if n >= 10 {
      var d := Decimal(n / 10);
      assert (d + [DigitChar(n % 10)])[..|d|] == d;
      DecimalRoundTrip(n / 10);
    }
  }

  /** Distinct counters render as distinct text, even behind a common prefix. */
  lemma PrefixedDecimalInjective(prefix: string, m: nat, n: nat)
    ensures prefix + Decimal(m) == prefix + Decimal(n) ==> m == n
  {
    if prefix + Decimal(m) == prefix + Decimal(n) {
      assert (prefix + Decimal(m))[|prefix|..] == Decimal(m);
      assert (prefix + Decimal(n))[|prefix|..] == Decimal(n);
      DecimalRoundTrip(m);
      DecimalRoundTrip(n);
    }
  }
}
