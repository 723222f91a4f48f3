/**
 * The pieces of Rust's `format!` and chrono's `format` that the renderer
 * uses: `{:02}` zero padding, `%m` / `%d`, `{}` on integers, `{:<w}` and
 * `{:^w}` padding, a repeated fill character, and `join`.  Widths are counted
 * in characters, as Rust's formatter counts them.
 */
module Text {

  function Digit(n: nat): (c: char)
    requires n < 10
    ensures '0' <= c <= '9' && DigitValue(c) == n
  {
    "0123456789"[n]
  }

  function DigitValue(c: char): int {
    c as int - '0' as int
  }

  predicate IsDigits(s: string) {
    forall k :: 0 <= k < |s| ==> '0' <= s[k] <= '9'
  }

  /** Reads a string of decimal digits back as a number. */
  function DecimalValue(s: string): int
    decreases |s|
  {
    if |s| == 0 then 0 else DecimalValue(s[..|s| - 1]) * 10 + DigitValue(s[|s| - 1])
  }

  /** Two digits, zero-padded (`%m`, `%d`, `{:02}` below 100). */
  function Pad2(n: nat): (s: string)
    requires n < 100
    ensures |s| == 2 && IsDigits(s)
    ensures DecimalValue(s) == n
  {
    var s := [Digit(n / 10), Digit(n % 10)];
    assert s[..1] == [Digit(n / 10)] && s[..1][..0] == [];
    assert DecimalValue(s[..1]) == n / 10;
    assert DecimalValue(s) == (n / 10) * 10 + n % 10;
    s
  }

  /** `{}` on a natural number: decimal digits, no leading zero. */
  function Decimal(n: nat): (s: string)
    ensures |s| >= 1 && IsDigits(s)
    ensures n >= 10 ==> s[0] != '0'
    ensures n < 10 <==> |s| == 1
    decreases n
  {
    if n < 10 then [Digit(n)] else Decimal(n / 10) + [Digit(n % 10)]
  }

  /** Printing a number and reading it back gives the number. */
  lemma {:induction false} DecimalRoundTrip(n: nat)
    ensures DecimalValue(Decimal(n)) == n
    decreases n
  {
    if n >= 10 {
      DecimalRoundTrip(n / 10);
      var s := Decimal(n);
      assert s[..|s| - 1] == Decimal(n / 10);
    } else {
      assert Decimal(n)[..0] == [];
    }
  }

  /** `{:02}`: at least two digits, padded with a leading zero. */
  function ZeroPad2(n: nat): (s: string)
    ensures |s| >= 2 && IsDigits(s)
    ensures n < 100 ==> s == Pad2(n)
    ensures n >= 10 ==> s == Decimal(n)
  {
    if n < 10 then
      assert n / 10 == 0 && n % 10 == n;
      "0" + Decimal(n)
    else
      assert n < 100 ==> Decimal(n) == [Digit(n / 10)] + [Digit(n % 10)];
      Decimal(n)
  }

  /**
   * `{}` on a signed integer: the digits of its magnitude, without leading
   * zeros, after a minus sign when it is negative.
   */
  function IntToString(i: int): (s: string)
    ensures |s| >= 1
    ensures i >= 0 ==> IsDigits(s) && DecimalValue(s) == i && (i >= 10 ==> s[0] != '0')
    ensures i < 0 ==> |s| >= 2 && s[0] == '-' && IsDigits(s[1..]) && DecimalValue(s[1..]) == -i
    ensures i <= -10 ==> s[1] != '0'
  {
    if i < 0 then
      DecimalRoundTrip(-i);
      var s := "-" + Decimal(-i);
      assert s[1..] == Decimal(-i);
      s
    else
      DecimalRoundTrip(i);
      Decimal(i)
  }

  /** `{:c<n}` applied to the empty string: `n` copies of the fill character. */
  function Repeat(c: char, n: nat): (s: string)
    ensures |s| == n
    ensures forall k :: 0 <= k < n ==> s[k] == c
  {
    seq(n, _ => c)
  }

  /** `{:<w}`: left-aligned, padded with spaces on the right up to width `w`. */
  function PadRight(s: string, w: nat): (r: string)
    ensures |s| <= w ==> |r| == w
    ensures |s| > w ==> r == s
    ensures r[..|s|] == s && forall k :: |s| <= k < |r| ==> r[k] == ' '
  {
    if |s| < w then s + Repeat(' ', w - |s|) else s
  }

  /** `{:^w}`: centred, the odd space going to the right. */
  function Center(s: string, w: nat): (r: string)
    ensures |s| <= w ==> |r| == w
    ensures |s| > w ==> r == s
    ensures |s| <= w ==> r[(w - |s|) / 2 .. (w - |s|) / 2 + |s|] == s
    ensures |s| <= w ==> forall k :: 0 <= k < |r| && !((w - |s|) / 2 <= k < (w - |s|) / 2 + |s|) ==> r[k] == ' '
  {
    if |s| < w then
      var pad := w - |s|;
      Repeat(' ', pad / 2) + s + Repeat(' ', pad - pad / 2)
    else s
  }

  /** `parts.join(sep)`. */
  function Join(parts: seq<string>, sep: string): (r: string)
    ensures |parts| == 0 ==> r == ""
    ensures |parts| == 1 ==> r == parts[0]
    decreases |parts|
  {
    if |parts| == 0 then ""
    else if |parts| == 1 then parts[0]
    else Join(parts[..|parts| - 1], sep) + sep + parts[|parts| - 1]
  }

  /** Joining two non-empty runs of parts puts one separator between them. */
  lemma {:induction false} JoinAppend(a: seq<string>, b: seq<string>, sep: string)
    requires |a| >= 1 && |b| >= 1
    ensures Join(a + b, sep) == Join(a, sep) + sep + Join(b, sep)
    decreases |b|
  {
    var ab := a + b;
    if |b| == 1 {
      assert ab[..|ab| - 1] == a;
    } else {
      var b' := b[..|b| - 1];
      assert ab[..|ab| - 1] == a + b';
      JoinAppend(a, b', sep);
      assert b[..|b| - 1] == b';
    }
  }
}
