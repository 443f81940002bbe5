/**
  Decimal numerals as the interpreter reads and writes them: the digit runs the
  lexer scans, the names `format!("{}", n)` gives to parameters and arguments,
  and `str::parse::<usize>` as used when the arity of a template is computed.
 */
module Numerals {
  import opened Values

  predicate IsDigit(c: char) {
    '0' <= c <= '9'
  }

  predicate AllDigits(s: string) {
    forall k :: 0 <= k < |s| ==> IsDigit(s[k])
  }

  /** The value of a digit character (0 for any other character). */
  function DigitValue(c: char): nat
  {
    if IsDigit(c) then c as int - '0' as int else 0
  }

  function DigitChar(d: nat): (c: char)
    requires d < 10
    ensures IsDigit(c) && DigitValue(c) == d
  {
    ('0' as int + d) as char
  }

  /** The value of a run of decimal digits, most significant first. */
  function DigitsValue(s: string): nat
  {
    if s == [] then 0 else DigitsValue(s[..|s| - 1]) * 10 + DigitValue(s[|s| - 1])
  }

  /** The value reached by reading the digits s[i..j], one at a time, after
      the value acc has been read: the accumulator of the scanning loops. */
  function Accumulate(acc: nat, s: string, i: nat, j: nat): nat
    requires i <= j <= |s|
    decreases j
  {
    if j == i then acc else Accumulate(acc, s, i, j - 1) * 10 + DigitValue(s[j - 1])
  }

  /** Reading more digits never makes the value smaller, so a scanning loop
      overflows at some step exactly when the value of its whole run is too big. */
  lemma {:induction false} AccumulateMonotone(acc: nat, s: string, i: nat, j: nat, k: nat)
    requires i <= j <= k <= |s|
    ensures Accumulate(acc, s, i, j) <= Accumulate(acc, s, i, k)
    decreases k
  {
    if j < k {
      AccumulateMonotone(acc, s, i, j, k - 1);
      assert Accumulate(acc, s, i, k - 1) <= Accumulate(acc, s, i, k - 1) * 10;
    }
  }

  /** Accumulating from zero reads the digit string s[i..j]. */
  lemma {:induction false} AccumulateSlice(s: string, i: nat, j: nat)
    requires i <= j <= |s|
    ensures Accumulate(0, s, i, j) == DigitsValue(s[i..j])
    decreases j
  {
    if i < j {
      assert s[i..j][..j - i - 1] == s[i..j - 1];
      AccumulateSlice(s, i, j - 1);
    }
  }

  /** Starting the accumulator at the first digit is the same as reading it. */
  lemma {:induction false} AccumulateFirst(s: string, i: nat, j: nat)
    requires i < j <= |s|
    ensures Accumulate(DigitValue(s[i]), s, i + 1, j) == Accumulate(0, s, i, j)
    decreases j
  {
    if i + 1 < j {
      AccumulateFirst(s, i, j - 1);
    }
  }

  /** `format!("{}", n)` for a non-negative integer: the shortest numeral of n. */
  function NatToString(n: nat): (s: string)
    ensures |s| > 0 && AllDigits(s)
    ensures DigitsValue(s) == n
    ensures s[0] == '0' ==> n == 0
  {
    if n < 10 then [DigitChar(n)]
    else
      var prefix := NatToString(n / 10);
      var s := prefix + [DigitChar(n % 10)];
      assert s[..|s| - 1] == prefix;
      s
  }

  lemma NatToStringInjective(a: nat, b: nat)
    requires NatToString(a) == NatToString(b)
    ensures a == b
  {
    assert DigitsValue(NatToString(a)) == a;
  }

  const UsizeMax: int := 0xffff_ffff_ffff_ffff

  /** Rust's `str::parse::<usize>`: an optional `+`, then one or more decimal
      digits whose value fits in 64 bits. */
  function ParseUsize(s: string): Option<nat>
  {
    var digits := if |s| > 0 && s[0] == '+' then s[1..] else s;
    if |digits| > 0 && AllDigits(digits) && DigitsValue(digits) <= UsizeMax
    then Some(DigitsValue(digits))
    else None
  }

  /** Parsing a printed number gives the number back. */
  lemma ParseUsizeNatToString(n: nat)
    requires n <= UsizeMax
    ensures ParseUsize(NatToString(n)) == Some(n)
  {
  }
}
