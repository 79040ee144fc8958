/**
 * The handful of JavaScript string operations the bot relies on, over `string` (a sequence of
 * UTF-16 code units in JavaScript, of characters here):
 *   `s.startsWith(p)`, `s.includes(t)`, `s.replace(t, r)` with a plain-string pattern,
 *   `s.toLowerCase()` restricted to ASCII letters, `n.toString()` for a non-negative integer
 *   and `s.slice(-k)`.
 */
module Text {
  import opened Options

  /** `s.startsWith(p)` */
  predicate StartsWith(s: string, p: string) {
    |p| <= |s| && s[..|p|] == p
  }

  /** `t` occurs in `s` at position `i`. */
  predicate OccursAt(s: string, t: string, i: int) {
    0 <= i && i + |t| <= |s| && s[i..i + |t|] == t
  }

  /** The first position at or after `from` where `t` occurs in `s` (`s.indexOf(t, from)`). */
  function IndexFrom(s: string, t: string, from: nat): (r: Option<nat>)
    requires from <= |s|
    ensures r.Some? ==> from <= r.value && OccursAt(s, t, r.value)
    ensures r.Some? ==> forall j :: from <= j < r.value ==> !OccursAt(s, t, j)
    ensures r.None? ==> forall j :: from <= j ==> !OccursAt(s, t, j)
    decreases |s| - from
  {
    if OccursAt(s, t, from) then Some(from)
    else if from == |s| then None
    else IndexFrom(s, t, from + 1)
  }

  /** The first position where `t` occurs in `s`, if any. */
  function IndexOf(s: string, t: string): Option<nat> {
    IndexFrom(s, t, 0)
  }

  /** `s.includes(t)` */
  function Contains(s: string, t: string): (b: bool)
    ensures b <==> exists i :: OccursAt(s, t, i)
  {
    IndexOf(s, t).Some?
  }

  /** `s.replace(t, r)` with a string pattern: only the FIRST occurrence is replaced. */
  function ReplaceFirst(s: string, t: string, r: string): (u: string)
    ensures !Contains(s, t) ==> u == s
    ensures Contains(s, t) ==> |u| == |s| - |t| + |r|
  {
    match IndexOf(s, t)
    case None => s
    case Some(i) => s[..i] + r + s[i + |t|..]
  }

  /** The occurrence replaced is the first one: no earlier position holds the pattern. */
  lemma ReplaceFirstOccurrence(s: string, t: string, r: string, i: nat)
    requires OccursAt(s, t, i)
    requires forall j :: 0 <= j < i ==> !OccursAt(s, t, j)
    ensures ReplaceFirst(s, t, r) == s[..i] + r + s[i + |t|..]
  {
    assert IndexOf(s, t) == Some(i);
  }

  /** On a string that starts with `p`, replacing `p` by nothing strips that prefix. */
  lemma StripPrefix(s: string, p: string)
    requires StartsWith(s, p)
    ensures ReplaceFirst(s, p, "") == s[|p|..]
  {
    assert OccursAt(s, p, 0);
  }

  /** Tagging `x` with the prefix `p` and stripping it again gives back `x`. */
  lemma StripTagged(p: string, x: string)
    ensures StartsWith(p + x, p)
    ensures ReplaceFirst(p + x, p, "") == x
  {
    assert (p + x)[..|p|] == p;
    StripPrefix(p + x, p);
    assert (p + x)[|p|..] == x;
  }

  /** `toLowerCase` on one character, for the ASCII letters only. */
  function LowerChar(c: char): char {
    if 'A' <= c <= 'Z' then (c as int + 32) as char else c
  }

  /** `s.toLowerCase()`, ASCII letters only. */
  function Lower(s: string): (r: string)
    ensures |r| == |s|
    ensures forall i :: 0 <= i < |r| ==> !('A' <= r[i] <= 'Z')
    ensures forall i :: 0 <= i < |s| && 'A' <= s[i] <= 'Z' ==> r[i] as int == s[i] as int + 32
    ensures forall i :: 0 <= i < |s| && !('A' <= s[i] <= 'Z') ==> r[i] == s[i]
  {
    seq(|s|, i requires 0 <= i < |s| => LowerChar(s[i]))
  }

  /** Lower-casing twice is lower-casing once. */
  lemma LowerIdempotent(s: string)
    ensures Lower(Lower(s)) == Lower(s)
  {
  }

  // ---- decimal digits: `Date.now().toString().slice(-6)` ----

  predicate IsDigit(c: char) {
    '0' <= c <= '9'
  }

  predicate AllDigits(s: string) {
    forall i :: 0 <= i < |s| ==> IsDigit(s[i])
  }

  function DigitChar(d: nat): (c: char)
    requires d < 10
    ensures IsDigit(c)
  {
    ('0' as int + d) as char
  }

  function DigitValue(c: char): nat
    requires IsDigit(c)
  {
    c as int - '0' as int
  }

  /** `n.toString()` for a non-negative integer: its decimal digits, no leading zero. */
  function Digits(n: nat): (s: string)
    ensures |s| >= 1 && AllDigits(s)
  {
    if n < 10 then [DigitChar(n)] else Digits(n / 10) + [DigitChar(n % 10)]
  }

  /** The number a string of decimal digits denotes. */
  function Value(s: string): nat
    requires AllDigits(s)
  {
    if s == [] then 0 else 10 * Value(s[..|s| - 1]) + DigitValue(s[|s| - 1])
  }

  function Pow10(k: nat): (p: nat)
    ensures p >= 1
  {
    if k == 0 then 1 else 10 * Pow10(k - 1)
  }

  /** `s.slice(-k)` for k > 0: the last k characters, or all of `s` when it is shorter. */
  function TakeLast(s: string, k: nat): (r: string)
    ensures |r| == if |s| <= k then |s| else k
    ensures r == s[|s| - |r|..]
  {
    if |s| <= k then s else s[|s| - k..]
  }

  /** The k lowest decimal digits of n, zero-padded to width k. */
  function LowDigits(n: nat, k: nat): (s: string)
    ensures |s| == k && AllDigits(s)
  {
    if k == 0 then [] else LowDigits(n / 10, k - 1) + [DigitChar(n % 10)]
  }

  /** `n.toString()` has more than k digits exactly when n reaches 10^k (k >= 1). */
  lemma {:induction false} DigitsLength(n: nat, k: nat)
    requires k >= 1
    ensures |Digits(n)| > k <==> n >= Pow10(k)
  {
    if n >= 10 && k > 1 {
      DigitsLength(n / 10, k - 1);
    }
  }

  /** The last k characters of `n.toString()` are the k lowest digits of n. */
  lemma {:induction false} LastDigits(n: nat, k: nat)
    requires k <= |Digits(n)|
    ensures Digits(n)[|Digits(n)| - k..] == LowDigits(n, k)
  {
    if k > 0 && n >= 10 {
      var e, c := Digits(n / 10), DigitChar(n % 10);
      assert Digits(n) == e + [c];
      LastDigits(n / 10, k - 1);
      SliceLast(e, c, k - 1);
    }
  }

  lemma SliceLast(e: string, c: char, j: nat)
    requires j <= |e|
    ensures (e + [c])[|e| - j..] == e[|e| - j..] + [c]
  {
  }

  /** Euclidean division by 10 then by P is division by 10 * P. */
  lemma ModSplit(n: nat, p: nat)
    requires p >= 1
    ensures n % (10 * p) == 10 * ((n / 10) % p) + n % 10
  {
    var q, r := n / 10, n % 10;
    var a, b := q / p, q % p;
    assert n == 10 * q + r;
    assert q == p * a + b;
    assert n == (10 * p) * a + (10 * b + r);
    ModUnique(n, 10 * p, a, 10 * b + r);
  }

  lemma ModUnique(n: int, d: int, a: int, c: int)
    requires d > 0 && 0 <= c < d && n == d * a + c
    ensures n % d == c
  {
    var a', c' := n / d, n % d;
    assert d * a + c == d * a' + c';
    if a > a' {
      MulAtLeast(d, a - a');
    } else if a < a' {
      MulAtLeast(d, a' - a);
    }
  }

  lemma {:induction false} MulAtLeast(d: int, x: int)
    requires d > 0 && x >= 1
    ensures d * x >= d
  {
    if x > 1 {
      MulAtLeast(d, x - 1);
      assert d * x == d * (x - 1) + d;
    }
  }

  /** The k lowest digits denote n modulo 10^k. */
  lemma {:induction false} LowDigitsValue(n: nat, k: nat)
    ensures Value(LowDigits(n, k)) == n % Pow10(k)
  {
    if k > 0 {
      var s := LowDigits(n, k);
      assert s[..|s| - 1] == LowDigits(n / 10, k - 1);
      LowDigitsValue(n / 10, k - 1);
      ModSplit(n, Pow10(k - 1));
    }
  }

  /** Adding a multiple of 10^k leaves the k lowest digits as they are. */
  lemma {:induction false} LowDigitsPeriodic(n: nat, m: nat, k: nat)
    ensures LowDigits(n + m * Pow10(k), k) == LowDigits(n, k)
  {
    if k > 0 {
      var q := m * Pow10(k - 1);
      assert m * Pow10(k) == 10 * q;
      ShiftTen(n, q);
      LowDigitsPeriodic(n / 10, m, k - 1);
    }
  }

  /** Adding 10q moves the quotient by 10 up by q and leaves the last digit. */
  lemma ShiftTen(n: nat, q: nat)
    ensures (n + 10 * q) / 10 == n / 10 + q && (n + 10 * q) % 10 == n % 10
  {
    ModUnique(n + 10 * q, 10, n / 10 + q, n % 10);
  }
}
