/**
 * The Kotlin standard-library string operations the modelled code relies on:
 * `Int.toString(radix)`, `String.toInt(radix)`, `padStart`, `split`,
 * `joinToString`, `contains` and `startsWith`.
 */
module Text {
  import opened Wrappers

  /** The digit Kotlin writes for a value below 36: `0`-`9`, then lower-case `a`-`z`. */
  function DigitChar(d: nat): char
    requires d < 36
  {
    if d < 10 then ('0' as int + d) as char else ('a' as int + d - 10) as char
  }

  /** The value of a digit character in the given radix (either case), as `Character.digit` reads ASCII. */
  function DigitValue(c: char, radix: nat): (r: Option<nat>)
    ensures r.Some? ==> r.value < radix
  {
    var v :=
      if '0' <= c <= '9' then c as int - '0' as int
      else if 'a' <= c <= 'z' then c as int - 'a' as int + 10
      else if 'A' <= c <= 'Z' then c as int - 'A' as int + 10
      else -1;
    if 0 <= v < radix then Some(v) else None
  }

  lemma DigitRoundTrip(d: nat, radix: nat)
    requires d < radix <= 36
    ensures DigitValue(DigitChar(d), radix) == Some(d)
  {
  }

  predicate IsRadix(radix: nat) {
    2 <= radix <= 36
  }

  /** The digits of `n` in `radix`, most significant first, with no leading zero. */
  function NatToString(n: nat, radix: nat): (s: string)
    requires IsRadix(radix)
    decreases n
  {
    if n < radix then [DigitChar(n)] else NatToString(n / radix, radix) + [DigitChar(n % radix)]
  }

  /** Kotlin's `Int.toString(radix)` (and `Long.toString()` for radix 10): a leading `-` for negatives. */
  function IntToString(n: int, radix: nat): string
    requires IsRadix(radix)
  {
    if n < 0 then "-" + NatToString(-n, radix) else NatToString(n, radix)
  }

  /** Decimal text, as string templates print an `Int` or a `Long`. */
  function Decimal(n: int): string {
    IntToString(n, 10)
  }

  /** The value of a non-empty run of digits, read from the right. */
  function DigitsValue(s: string, radix: nat): Option<nat>
    decreases |s|
  {
    if s == [] then None
    else
      var last := DigitValue(s[|s| - 1], radix);
      if last.None? then None
      else if |s| == 1 then last
      else
        match DigitsValue(s[..|s| - 1], radix)
        case None => None
        case Some(v) => Some(v * radix + last.value)
  }

  /**
   * Kotlin's `String.toInt(radix)`: an optional sign, then at least one digit.
   * `None` is the NumberFormatException it throws. The 32-bit range check is not
   * modelled: it never matters for the short texts parsed here.
   */
  function ParseInt(s: string, radix: nat): Option<int> {
    if s == [] then None
    else if s[0] == '-' || s[0] == '+' then
      if |s| == 1 then None
      else
        match DigitsValue(s[1..], radix)
        case None => None
        case Some(v) => var i: int := v; Some(if s[0] == '-' then -i else i)
    else DigitsValue(s, radix)
  }

  lemma {:induction false} NatToStringDigits(n: nat, radix: nat)
    requires IsRadix(radix)
    ensures DigitsValue(NatToString(n, radix), radix) == Some(n)
    decreases n
  {
    var s := NatToString(n, radix);
    if n < radix {
      DigitRoundTrip(n, radix);
    } else {
      var q, d := n / radix, n % radix;
      DivShrinks(n, radix);
      DigitRoundTrip(d, radix);
      NatToStringDigits(q, radix);
      DigitsValueSnoc(NatToString(q, radix), DigitChar(d), radix, q, d);
      assert q * radix + d == n;
    }
  }

  lemma DigitsValueSnoc(p: string, c: char, radix: nat, v: nat, d: nat)
    requires p != [] && DigitsValue(p, radix) == Some(v) && DigitValue(c, radix) == Some(d)
    ensures DigitsValue(p + [c], radix) == Some(v * radix + d)
  {
    var s := p + [c];
    assert s[..|s| - 1] == p && s[|s| - 1] == c;
  }

  /** No text written by `NatToString` starts with a sign. */
  lemma {:induction false} NatToStringUnsigned(n: nat, radix: nat)
    requires IsRadix(radix)
    ensures NatToString(n, radix)[0] != '-' && NatToString(n, radix)[0] != '+'
    decreases n
  {
    if n >= radix {
      DivShrinks(n, radix);
      NatToStringUnsigned(n / radix, radix);
      assert NatToString(n, radix) == NatToString(n / radix, radix) + [DigitChar(n % radix)];
    }
  }

  /** Reading back what `Int.toString(radix)` wrote gives the number: the two are inverse. */
  lemma ParseIntToString(n: int, radix: nat)
    requires IsRadix(radix)
    ensures ParseInt(IntToString(n, radix), radix) == Some(n)
  {
    if n < 0 {
      NatToStringDigits(-n, radix);
      assert IntToString(n, radix)[1..] == NatToString(-n, radix);
    } else {
      NatToStringDigits(n, radix);
      NatToStringUnsigned(n, radix);
    }
  }

  /** The number of digits grows with the number: `n` has at most `k` digits iff `n < radix^k`. */
  function Pow(radix: nat, k: nat): (p: nat)
    requires IsRadix(radix)
    ensures p >= 1
  {
    if k == 0 then 1 else MulPositive(radix, Pow(radix, k - 1)); radix * Pow(radix, k - 1)
  }

  lemma MulPositive(a: nat, b: nat)
    requires a >= 1 && b >= 1
    ensures a * b >= 1
  {
  }

  lemma {:induction false} NatToStringLength(n: nat, radix: nat, k: nat)
    requires IsRadix(radix)
    ensures |NatToString(n, radix)| <= k + 1 <==> n < Pow(radix, k + 1)
    decreases n
  {
    if n < radix {
      PowAtLeast(radix, k + 1);
    } else if k == 0 {
      assert Pow(radix, 1) == radix;
      assert |NatToString(n, radix)| == |NatToString(n / radix, radix)| + 1;
    } else {
      DivShrinks(n, radix);
      NatToStringLength(n / radix, radix, k - 1);
      DivBound(n, radix, Pow(radix, k));
      assert Pow(radix, k + 1) == radix * Pow(radix, k);
      assert |NatToString(n, radix)| == |NatToString(n / radix, radix)| + 1;
    }
  }

  lemma {:induction false} PowAtLeast(radix: nat, k: nat)
    requires IsRadix(radix) && k >= 1
    ensures Pow(radix, k) >= radix
  {
    if k > 1 {
      PowAtLeast(radix, k - 1);
      MulMono(radix, 1, Pow(radix, k - 1));
    }
  }

  lemma DivShrinks(n: nat, d: nat)
    requires n >= 1 && d >= 2
    ensures n / d < n
  {
    var q := n / d;
    assert d * q <= n;
    MulMono(q, 2, d);
    assert q * 2 <= n;
  }

  lemma DivBound(n: nat, d: nat, p: nat)
    requires d >= 1
    ensures n / d < p <==> n < d * p
  {
    var q, r := n / d, n % d;
    assert n == d * q + r;
    if q < p {
      assert q <= p - 1;
      assert d * q <= d * (p - 1) by { MulMono(d, q, p - 1); }
    } else {
      assert d * q >= d * p by { MulMono(d, p, q); }
    }
  }

  lemma MulMono(d: nat, a: nat, b: nat)
    requires a <= b
    ensures d * a <= d * b
  {
  }

  /** Kotlin's `padStart(length, padChar)`. */
  function PadStart(s: string, length: nat, pad: char): (r: string)
    ensures |s| >= length ==> r == s
    ensures |s| < length ==> |r| == length && r[length - |s|..] == s
    ensures forall i :: 0 <= i < length - |s| ==> r[i] == pad
  {
    if |s| >= length then s else seq(length - |s|, _ => pad) + s
  }

  /** `t` occurs in `s` starting at index `i`. */
  predicate OccursAt(s: string, t: string, i: int) {
    0 <= i <= |s| - |t| && s[i..i + |t|] == t
  }

  /** `s.contains(t)`. */
  predicate Contains(s: string, t: string)
    decreases |s|
  {
    t <= s || (s != [] && Contains(s[1..], t))
  }

  lemma {:induction false} ContainsMeans(s: string, t: string)
    ensures Contains(s, t) <==> exists i :: OccursAt(s, t, i)
    decreases |s|
  {
    if t <= s {
      assert OccursAt(s, t, 0);
    } else if s != [] {
      ContainsMeans(s[1..], t);
      if exists i :: OccursAt(s, t, i) {
        var i :| OccursAt(s, t, i);
        assert i != 0;
        assert s[1..][i - 1..i - 1 + |t|] == t;
        assert OccursAt(s[1..], t, i - 1);
      }
      if Contains(s[1..], t) {
        var i :| OccursAt(s[1..], t, i);
        assert s[i + 1..i + 1 + |t|] == t;
        assert OccursAt(s, t, i + 1);
      }
    }
  }

  /** Kotlin's `split(sep)` on a one-character delimiter: every occurrence cuts; `""` gives `[""]`. */
  function Split(s: string, sep: char): (r: seq<string>)
    ensures |r| >= 1
    decreases |s|
  {
    if s == [] then [""]
    else
      var rest := Split(s[1..], sep);
      if s[0] == sep then [""] + rest else [[s[0]] + rest[0]] + rest[1..]
  }

  /** Kotlin's `joinToString(sep)` with a one-character separator. */
  function Join(xs: seq<string>, sep: char): string
    decreases |xs|
  {
    if |xs| == 0 then ""
    else if |xs| == 1 then xs[0]
    else xs[0] + [sep] + Join(xs[1..], sep)
  }

  lemma {:induction false} SplitNoSep(a: string, sep: char)
    requires sep !in a
    ensures Split(a, sep) == [a]
    decreases |a|
  {
    if a != [] {
      SplitNoSep(a[1..], sep);
      assert [a[0]] + a[1..] == a;
    }
  }

  lemma {:induction false} SplitAtSep(a: string, sep: char, b: string)
    requires sep !in a
    ensures Split(a + [sep] + b, sep) == [a] + Split(b, sep)
    decreases |a|
  {
    var s := a + [sep] + b;
    if a == [] {
      assert s[1..] == b;
    } else {
      assert s[1..] == a[1..] + [sep] + b;
      SplitAtSep(a[1..], sep, b);
      assert [a[0]] + a[1..] == a;
    }
  }

  /** Splitting what `joinToString` wrote gives the list back, when no element holds the separator. */
  lemma {:induction false} SplitJoin(xs: seq<string>, sep: char)
    requires |xs| >= 1
    requires forall i :: 0 <= i < |xs| ==> sep !in xs[i]
    ensures Split(Join(xs, sep), sep) == xs
    decreases |xs|
  {
    if |xs| == 1 {
      SplitNoSep(xs[0], sep);
    } else {
      SplitJoin(xs[1..], sep);
      SplitAtSep(xs[0], sep, Join(xs[1..], sep));
    }
  }

  /** Splitting a text without the separator gives that one text; in particular `""` gives `[""]`. */
  lemma SplitEmpty(sep: char)
    ensures Split("", sep) == [""]
    ensures Join([], sep) == ""
  {
  }
}
