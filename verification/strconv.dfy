/** The decimal conversions of Go's `strconv` that the engine uses:
    `ParseUint(s, 10, 0)` and `FormatUint(n, 10)`. */
module Strconv {
  import opened Wrappers

  /** Largest value of a Go `uint64`; `ParseUint` with bit size 0 rejects anything above it. */
  const MaxUint64: nat := 0x1_0000_0000_0000_0000 - 1

  predicate IsDigit(c: char) { '0' <= c <= '9' }

  predicate AllDigits(s: string) { forall i | 0 <= i < |s| :: IsDigit(s[i]) }

  function DigitValue(c: char): (d: nat)
    requires IsDigit(c)
    ensures d < 10
  {
    (c as int - '0' as int) as nat
  }

  function DigitChar(d: nat): (c: char)
    requires d < 10
    ensures IsDigit(c) && DigitValue(c) == d
  {
    ('0' as int + d) as char
  }

  /** The value of a string of decimal digits, most significant digit first. */
  function DigitsValue(s: string): nat
    requires AllDigits(s)
  {
    if s == [] then 0 else 10 * DigitsValue(s[..|s| - 1]) + DigitValue(s[|s| - 1])
  }

  /** `strconv.ParseUint(s, 10, 0)`: no sign, no prefix, no underscores, at least one digit,
      and the value must fit in 64 bits. */
  function ParseUint(s: string): (r: Option<nat>)
    ensures r.Some? ==> s != [] && AllDigits(s) && r.value == DigitsValue(s) && r.value <= MaxUint64
    // every digit string whose value fits in 64 bits is accepted, leading zeros and all
    ensures s != [] && AllDigits(s) && DigitsValue(s) <= MaxUint64 ==> r == Some(DigitsValue(s))
    // in particular every string of at most 19 digits fits in 64 bits
    ensures s != [] && AllDigits(s) && |s| <= 19 ==> r.Some?
    // a spelling without leading zeros is the one `FormatUint` writes
    ensures r.Some? && (s[0] != '0' || |s| == 1) ==> FormatUint(r.value) == s
  {
    if s != [] && AllDigits(s) then
      DigitsFit(s);
      FormatCanonical(s);
      if DigitsValue(s) <= MaxUint64 then Some(DigitsValue(s)) else None
    else None
  }

  function Pow10(k: nat): (r: nat)
    ensures r >= 1
  {
    if k == 0 then 1 else 10 * Pow10(k - 1)
  }

  /** `k` digits denote less than `10^k`. */
  lemma {:induction false} DigitsBound(s: string)
    requires AllDigits(s)
    ensures DigitsValue(s) < Pow10(|s|)
  {
    if s != [] {
      var p := s[..|s| - 1];
      assert AllDigits(p) by {
        assert forall i | 0 <= i < |p| :: p[i] == s[i];
      }
      DigitsBound(p);
    }
  }

  lemma {:induction false} Pow10Monotonic(a: nat, b: nat)
    requires a <= b
    ensures Pow10(a) <= Pow10(b)
  {
    if a < b {
      Pow10Monotonic(a, b - 1);
    }
  }

  /** At most 19 digits always fit in a `uint64`. */
  lemma DigitsFit(s: string)
    requires AllDigits(s)
    ensures |s| <= 19 ==> DigitsValue(s) <= MaxUint64
  {
    if |s| <= 19 {
      DigitsBound(s);
      Pow10Monotonic(|s|, 19);
      Pow10Nineteen();
    }
  }

  lemma Pow10Nineteen()
    ensures Pow10(19) == 10_000_000_000_000_000_000
  {
    assert Pow10(4) == 10_000;
    assert Pow10(8) == 100_000_000;
    assert Pow10(12) == 1_000_000_000_000;
    assert Pow10(16) == 10_000_000_000_000_000;
  }

  /** Digits that start with a non-zero digit denote at least 1. */
  lemma {:induction false} LeadingNonzero(s: string)
    requires s != [] && AllDigits(s) && s[0] != '0'
    ensures DigitsValue(s) >= 1
  {
    if |s| > 1 {
      var p := s[..|s| - 1];
      assert AllDigits(p) by {
        assert forall i | 0 <= i < |p| :: p[i] == s[i];
      }
      LeadingNonzero(p);
    }
  }

  /** A decimal spelling without leading zeros is the one `FormatUint` produces. */
  lemma {:induction false} FormatCanonical(s: string)
    requires s != [] && AllDigits(s)
    ensures s[0] != '0' || |s| == 1 ==> FormatUint(DigitsValue(s)) == s
  {
    var last := s[|s| - 1];
    if s[0] == '0' && |s| > 1 {
    } else if |s| == 1 {
      assert s == [last];
      assert DigitsValue(s) == DigitValue(last) by {
        assert s[..0] == [];
      }
    } else {
      var p := s[..|s| - 1];
      assert s == p + [last];
      assert AllDigits(p) by {
        assert forall i | 0 <= i < |p| :: p[i] == s[i];
      }
      assert DigitChar(DigitValue(last)) == last;
      FormatCanonical(p);
      LeadingNonzero(p);
      FormatAppend(DigitsValue(p), DigitValue(last));
    }
  }

  /** Appending a digit to a positive number appends it to the spelling. */
  lemma FormatAppend(v: nat, d: nat)
    requires v >= 1 && d < 10
    ensures FormatUint(10 * v + d) == FormatUint(v) + [DigitChar(d)]
  {
    var n := 10 * v + d;
    assert n / 10 == v && n % 10 == d;
  }

  /** `strconv.FormatUint(n, 10)`: the shortest decimal spelling of `n`. */
  function FormatUint(n: nat): (r: string)
    ensures r != [] && AllDigits(r)
    ensures DigitsValue(r) == n
    ensures r[0] == '0' ==> n == 0
    ensures ' ' !in r
  {
    if n < 10 then [DigitChar(n)]
    else
      var r := FormatUint(n / 10) + [DigitChar(n % 10)];
      assert r[..|r| - 1] == FormatUint(n / 10);
      r
  }

  /** Formatting then parsing gives the number back, for every value a `uint64` can hold. */
  lemma ParseFormat(n: nat)
    requires n <= MaxUint64
    ensures ParseUint(FormatUint(n)) == Some(n)
  {
  }

  /** Parsing a one-character string succeeds exactly on a decimal digit, giving its value. */
  lemma ParseOneChar(c: char)
    ensures ParseUint([c]) == if IsDigit(c) then Some(DigitValue(c)) else None
  {
    assert [c][..0] == [];
    assert AllDigits([c]) <==> IsDigit(c) by {
      assert [c][0] == c;
    }
    if IsDigit(c) {
      assert DigitsValue([c]) == DigitValue(c);
    }
  }
}
