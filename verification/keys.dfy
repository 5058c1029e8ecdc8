/** The string keys both JavaScript modules build from a name and the current time in
    milliseconds, `${name}_${Date.now()}`, together with their parser. The parser is the
    inverse of the key builder, so two keys are equal only when name and instant are. */
module Keys {
  import opened Common

  predicate IsDigit(c: char) {
    '0' <= c <= '9'
  }

  predicate AllDigits(s: string) {
    forall i :: 0 <= i < |s| ==> IsDigit(s[i])
  }

  function DigitChar(d: nat): (c: char)
    requires d < 10
    ensures IsDigit(c) && (c as int) - ('0' as int) == d
  {
    ('0' as int + d) as char
  }

  /** The decimal text of a non-negative integer, without leading zeros. */
  function Decimal(n: nat): (s: string)
    ensures |s| >= 1 && AllDigits(s)
  {
    if n < 10 then [DigitChar(n)] else Decimal(n / 10) + [DigitChar(n % 10)]
  }

  /** The number a string of decimal digits denotes. */
  function DecimalValue(s: string): nat
    requires AllDigits(s)
  {
    if s == [] then 0
    else DecimalValue(s[..|s| - 1]) * 10 + ((s[|s| - 1] as int) - ('0' as int))
  }

  lemma {:induction false} DecimalRoundTrip(n: nat)
    ensures DecimalValue(Decimal(n)) == n
  {
    if n >= 10 {
      var s := Decimal(n);
      assert s[..|s| - 1] == Decimal(n / 10);
      DecimalRoundTrip(n / 10);
    }
  }

  /** `${name}_${time}` */
  function TimestampKey(name: string, time: nat): string {
    name + "_" + Decimal(time)
  }

  /** Length of the longest all-digit suffix of `s`. */
  function TrailingDigits(s: string): (n: nat)
    ensures n <= |s|
    ensures AllDigits(s[|s| - n..])
    ensures n < |s| ==> !IsDigit(s[|s| - n - 1])
  {
    if s == [] || !IsDigit(s[|s| - 1]) then 0
    else
      var m := TrailingDigits(s[..|s| - 1]);
      TrailingDigitsStep(s, m);
      m + 1
  }

  /** A digit after an all-digit suffix of length `m` gives one of length `m + 1`. */
  lemma TrailingDigitsStep(s: string, m: nat)
    requires s != [] && IsDigit(s[|s| - 1]) && m < |s|
    requires AllDigits(s[..|s| - 1][|s| - 1 - m..])
    requires m < |s| - 1 ==> !IsDigit(s[..|s| - 1][|s| - 2 - m])
    ensures AllDigits(s[|s| - (m + 1)..])
    ensures m + 1 < |s| ==> !IsDigit(s[|s| - m - 2])
  {
    var t := s[..|s| - 1];
    assert s[|s| - (m + 1)..] == t[|t| - m..] + [s[|s| - 1]];
    if m + 1 < |s| {
      assert t[|s| - 2 - m] == s[|s| - m - 2];
    }
  }

  /** Splits a key at its last underscore into the name and the instant. */
  function ParseTimestampKey(key: string): Option<(string, nat)> {
    var n := TrailingDigits(key);
    if n == 0 || n == |key| || key[|key| - n - 1] != '_' then None
    else Some((key[..|key| - n - 1], DecimalValue(key[|key| - n..])))
  }

  lemma {:induction false} TrailingDigitsOfKey(name: string, digits: string)
    requires AllDigits(digits)
    ensures TrailingDigits(name + "_" + digits) == |digits|
  {
    var k := name + "_" + digits;
    if digits != [] {
      assert k[..|k| - 1] == name + "_" + digits[..|digits| - 1];
      TrailingDigitsOfKey(name, digits[..|digits| - 1]);
    } else {
      assert k[|k| - 1] == '_';
    }
  }

  lemma ParseTimestampKeyRoundTrip(name: string, time: nat)
    ensures ParseTimestampKey(TimestampKey(name, time)) == Some((name, time))
  {
    var d := Decimal(time);
    var k := TimestampKey(name, time);
    TrailingDigitsOfKey(name, d);
    assert k[..|k| - |d| - 1] == name;
    assert k[|k| - |d|..] == d;
    DecimalRoundTrip(time);
  }

  /** Two keys built at different instants, or for different names, never collide. */
  lemma TimestampKeyInjective(a: string, t: nat, b: string, u: nat)
    requires TimestampKey(a, t) == TimestampKey(b, u)
    ensures a == b && t == u
  {
    ParseTimestampKeyRoundTrip(a, t);
    ParseTimestampKeyRoundTrip(b, u);
  }
}
