/**
 * Decimal rendering of non-negative integers, as a template literal renders a
 * JavaScript number that holds a whole value, and the position counter
 * "k / n" the viewer writes beside the image.  `Value` and `ParseCounterLabel`
 * are the inverses that show the rendering loses nothing.
 */
module Decimal {
  import opened Wrappers

  predicate IsDigit(c: char) {
    '0' <= c <= '9'
  }

  predicate AllDigits(s: string) {
    forall i :: 0 <= i < |s| ==> IsDigit(s[i])
  }

  function DigitChar(d: nat): (c: char)
    requires d < 10
    ensures IsDigit(c) && c as int - '0' as int == d
  {
    (d + '0' as int) as char
  }

  function DigitValue(c: char): (d: nat)
    requires IsDigit(c)
    ensures d < 10
  {
    c as int - '0' as int
  }

  /** The shortest decimal numeral of `n`: only digits, no leading zero. */
  function Show(n: nat): (s: string)
    ensures |s| > 0 && AllDigits(s)
    ensures s[0] == '0' <==> n == 0
  {
    if n < 10 then [DigitChar(n)] else Show(n / 10) + [DigitChar(n % 10)]
  }

  /** The number a string of digits denotes. */
  function Value(s: string): nat
    requires AllDigits(s)
  {
    if s == [] then 0 else 10 * Value(s[..|s| - 1]) + DigitValue(s[|s| - 1])
  }

  lemma {:induction false} ValueOfShow(n: nat)
    ensures Value(Show(n)) == n
  {
    var s := Show(n);
    if n >= 10 {
      assert s[..|s| - 1] == Show(n / 10);
      ValueOfShow(n / 10);
    }
  }

  /** Different numbers never render the same. */
  lemma ShowInjective(m: nat, n: nat)
    requires Show(m) == Show(n)
    ensures m == n
  {
    ValueOfShow(m);
    ValueOfShow(n);
  }

  /** The two numbers of the position counter. */
  datatype CounterView = CounterView(position: nat, total: nat)

  /** The counter text: position, a spaced slash, then the album length. */
  function CounterLabel(position: nat, total: nat): string {
    Show(position) + " / " + Show(total)
  }

  /** Index of the first space in `s`, or `|s|` if there is none. */
  function FirstSpace(s: string): (j: nat)
    ensures j <= |s|
    ensures j < |s| ==> s[j] == ' '
    ensures forall i :: 0 <= i < j ==> s[i] != ' '
  {
    if s == [] || s[0] == ' ' then 0 else 1 + FirstSpace(s[1..])
  }

  /** Reads a counter text back into its two numbers; `None` for any other text. */
  function ParseCounterLabel(s: string): Option<CounterView> {
    var j := FirstSpace(s);
    if j + 3 <= |s| && s[j..j + 3] == " / "
       && 0 < j && AllDigits(s[..j])
       && j + 3 < |s| && AllDigits(s[j + 3..])
    then Some(CounterView(Value(s[..j]), Value(s[j + 3..])))
    else None
  }

  lemma {:induction false} FirstSpaceAfterDigits(digits: string, rest: string)
    requires AllDigits(digits) && |rest| > 0 && rest[0] == ' '
    ensures FirstSpace(digits + rest) == |digits|
  {
    if digits != [] {
      assert (digits + rest)[1..] == digits[1..] + rest;
      FirstSpaceAfterDigits(digits[1..], rest);
    } else {
      assert digits + rest == rest;
    }
  }

  /** The counter text can be read back exactly. */
  lemma CounterLabelRoundTrip(position: nat, total: nat)
    ensures ParseCounterLabel(CounterLabel(position, total)) == Some(CounterView(position, total))
  {
    var p, t := Show(position), Show(total);
    var s := CounterLabel(position, total);
    assert s == p + (" / " + t);
    FirstSpaceAfterDigits(p, " / " + t);
    assert s[..|p|] == p;
    assert s[|p|..|p| + 3] == " / ";
    assert s[|p| + 3..] == t;
    ValueOfShow(position);
    ValueOfShow(total);
  }
}
