/** Text form of 128-bit integers: the stream operators of include/debug/cdough_debug.h. Signed overflow is
    undefined in the source, so both directions track whether a value left the signed 128-bit range. */
module Int128 {
  const MAX: int := 0x7fff_ffff_ffff_ffff_ffff_ffff_ffff_ffff
  const MIN: int := -MAX - 1

  predicate InRange(n: int) { MIN <= n <= MAX }

  lemma {:induction false} Range(n: int)
    ensures InRange(n) <==>
      -170141183460469231731687303715884105728 <= n <= 170141183460469231731687303715884105727
  {
  }

  predicate IsDigit(c: char) { '0' <= c <= '9' }

  function DigitOf(c: char): int
    requires IsDigit(c)
  {
    c as int - '0' as int
  }

  function CharOf(d: int): (c: char)
    requires 0 <= d < 10
    ensures IsDigit(c) && DigitOf(c) == d
  {
    (d + '0' as int) as char
  }

  /** The ten digits in the order of their values, from zero. */
  lemma {:induction false} DigitOrder(c: char, d: char)
    requires IsDigit(c) && IsDigit(d)
    ensures (c < d <==> DigitOf(c) < DigitOf(d)) && 0 <= DigitOf(c) <= 9 && DigitOf('0') == 0
  {
  }

  predicate AllDigits(s: string) { forall i :: 0 <= i < |s| ==> IsDigit(s[i]) }

  /** The number a digit string denotes. */
  function Value(s: string): nat
    requires AllDigits(s)
  {
    if s == "" then 0 else 10 * Value(s[..|s| - 1]) + DigitOf(s[|s| - 1])
  }

  /** The digits of a positive number; none for zero. */
  function Digits(n: nat): (s: string)
    ensures AllDigits(s)
  {
    if n == 0 then "" else Digits(n / 10) + [CharOf(n % 10)]
  }

  lemma {:induction false} ValueOfDigits(n: nat)
    ensures Value(Digits(n)) == n
  {
    if n > 0 {
      ValueOfDigits(n / 10);
      assert Digits(n)[..|Digits(n)| - 1] == Digits(n / 10);
    }
  }

  /** Positive numbers are written without leading zeros. */
  lemma {:induction false} NoLeadingZero(n: nat)
    requires n > 0
    ensures Digits(n) != "" && Digits(n)[0] != '0'
  {
    if n >= 10 {
      NoLeadingZero(n / 10);
    } else {
      assert Digits(n) == "" + [CharOf(n)];
    }
  }

  function Text(n: int): string {
    if n == 0 then "0" else if n < 0 then "-" + Digits(-n) else Digits(n)
  }

  /** Place values: the digits of ten times a number and a digit. */
  lemma {:induction false} Decimal()
    ensures Text(1234567890) == "1234567890" && Text(-7) == "-7" && Text(0) == "0"
  {
    DigitsAre("1", '2', 1);
    DigitsAre("12", '3', 12);
    DigitsAre("123", '4', 123);
    DigitsAre("1234", '5', 1234);
    DigitsAre("12345", '6', 12345);
    DigitsAre("123456", '7', 123456);
    DigitsAre("1234567", '8', 1234567);
    DigitsAre("12345678", '9', 12345678);
    DigitsAre("123456789", '0', 123456789);
    DigitsAre("", '7', 0);
  }

  lemma {:induction false} DigitsAre(s: string, c: char, n: nat)
    requires IsDigit(c) && Digits(n) == s && 10 * n + DigitOf(c) > 0
    ensures Digits(10 * n + DigitOf(c)) == s + [c]
  {
    DigitsStep(n, c);
  }

  // ----- Printing -----

  function Reversed(s: string): string {
    if s == "" then "" else Reversed(s[1..]) + [s[0]]
  }

  lemma {:induction false} ReversedSnoc(s: string, c: char)
    ensures Reversed(s + [c]) == [c] + Reversed(s)
  {
    if s != "" {
      ReversedSnoc(s[1..], c);
      assert (s + [c])[1..] == s[1..] + [c];
    } else {
      assert ("" + [c])[1..] == "";
    }
  }

  /** The digit loop: the lowest digit first, then reversed. */
  method PrintDigits(value: nat) returns (text: string)
    ensures text == Digits(value)
  {
    var n, result := value, "";
    while n > 0
      invariant n >= 0 && Digits(value) == Digits(n) + Reversed(result)
    {
      var c := CharOf(n % 10);
      ReversedSnoc(result, c);
      assert Digits(n / 10) + [c] + Reversed(result) == Digits(n / 10) + ([c] + Reversed(result));
      result := result + [c];
      n := n / 10;
    }
    text := Reversed(result);
  }

  /** operator<<. Only the negation of the least value overflows. */
  method Print(value: int) returns (text: string, overflow: bool)
    requires InRange(value)
    ensures overflow <==> value == MIN
    ensures !overflow ==> text == Text(value)
  {
    if value == 0 {
      return "0", false;
    }
    var n, sign := value, "";
    if n < 0 {
      sign := "-";
      n := -n;
      if !InRange(n) {
        return "", true;
      }
    }
    var digits := PrintDigits(n);
    text, overflow := sign + digits, false;
  }

  // ----- Parsing -----

  /** The text after an optional sign. */
  function Unsigned(s: string): string {
    if s != "" && (s[0] == '-' || s[0] == '+') then s[1..] else s
  }

  /** The digits up to the first other character. */
  function DigitPrefix(s: string): (p: string)
    ensures AllDigits(p) && p <= s
  {
    if s == "" || !IsDigit(s[0]) then "" else [s[0]] + DigitPrefix(s[1..])
  }

  lemma {:induction false} PrefixStops(s: string, k: nat)
    requires k <= |s| && AllDigits(s[..k]) && (k < |s| ==> !IsDigit(s[k]))
    ensures DigitPrefix(s) == s[..k]
  {
    if k > 0 {
      assert IsDigit(s[..k][0]);
      assert s[1..][..k - 1] == s[..k][1..];
      PrefixStops(s[1..], k - 1);
      assert [s[0]] + s[1..][..k - 1] == s[..k];
    }
  }

  /** operator>> on one token: the value of the leading digits under the sign, failure exactly when some
      character is left over, overflow exactly when the digits exceed the range. */
  method Parse(s: string) returns (val: int, fail: bool, overflow: bool)
    ensures fail <==> DigitPrefix(Unsigned(s)) != Unsigned(s)
    ensures overflow <==> Value(DigitPrefix(Unsigned(s))) > MAX
    ensures val == (if s != "" && s[0] == '-' then -1 else 1) * Value(DigitPrefix(Unsigned(s)))
  {
    val, fail, overflow := 0, false, false;
    var negative, start := false, 0;
    if s != "" && s[0] == '-' {
      negative, start := true, 1;
    } else if s != "" && s[0] == '+' {
      start := 1;
    }
    ghost var body := Unsigned(s);
    assert s[start..] == body;
    var i := start;
    while i < |s|
      invariant start <= i <= |s| && AllDigits(body[..i - start])
      invariant val == Value(body[..i - start]) && (overflow <==> val > MAX) && !fail
    {
      assert s[i] == body[i - start];
      if IsDigit(s[i]) {
        assert body[..i + 1 - start][..i - start] == body[..i - start];
        overflow := overflow || val * 10 > MAX;
        val := val * 10 + DigitOf(s[i]);
        overflow := overflow || val > MAX;
      } else {
        fail := true;
        break;
      }
      i := i + 1;
    }
    PrefixStops(body, i - start);
    if negative {
      val := -val;
    }
  }

  lemma {:induction false} PrefixOfDigits(s: string)
    requires AllDigits(s)
    ensures DigitPrefix(s) == s
  {
    if s != "" { PrefixOfDigits(s[1..]); }
  }

  /** Printing and parsing back any value above the least one: no overflow and no failure on the way. */
  method RoundTrip(value: int) returns (val: int, fail: bool, overflow: bool)
    requires MIN < value <= MAX
    ensures val == value && !fail && !overflow
  {
    var text, printed := Print(value);
    TextParts(value);
    val, fail, overflow := Parse(text);
  }

  lemma {:induction false} TextParts(value: int)
    ensures var text, n := Text(value), if value < 0 then -value else value;
            && text != "" && (text[0] == '-' <==> value < 0)
            && DigitPrefix(Unsigned(text)) == Unsigned(text) && AllDigits(Unsigned(text)) && Value(Unsigned(text)) == n
  {
    var n: nat := if value < 0 then -value else value;
    ValueOfDigits(n);
    if value == 0 {
      assert "0"[..0] == "";
      PrefixOfDigits("0");
    } else {
      NoLeadingZero(n);
      PrefixOfDigits(Digits(n));
      assert value < 0 ==> Unsigned(Text(value)) == Digits(n);
    }
  }

  /** Different numbers have different texts. */
  lemma {:induction false} TextInjective(a: int, b: int)
    requires Text(a) == Text(b)
    ensures a == b
  {
    TextParts(a);
    TextParts(b);
  }

  /** A digit string without leading zeros is printed back unchanged. */
  lemma {:induction false} DigitsOfValue(s: string)
    requires AllDigits(s) && (s != "" ==> s[0] != '0')
    ensures Digits(Value(s)) == s
  {
    if s != "" {
      var s', c := s[..|s| - 1], s[|s| - 1];
      assert s == s' + [c];
      DigitsOfValue(s');
      LeadingDigit(s);
      var n := Value(s');
      assert Value(s) == 10 * n + DigitOf(c);
      DigitsStep(n, c);
    }
  }

  lemma {:induction false} DigitsStep(n: nat, c: char)
    requires IsDigit(c) && 10 * n + DigitOf(c) > 0
    ensures Digits(10 * n + DigitOf(c)) == Digits(n) + [c]
  {
    var m := 10 * n + DigitOf(c);
    assert m / 10 == n && m % 10 == DigitOf(c);
    assert CharOf(DigitOf(c)) == c;
  }

  lemma {:induction false} LeadingDigit(s: string)
    requires AllDigits(s) && s != "" && s[0] != '0'
    ensures Value(s) > 0
  {
    if |s| > 1 {
      LeadingDigit(s[..|s| - 1]);
    } else {
      assert s[..0] == "";
    }
  }
}
