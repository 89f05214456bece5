/** Shared vocabulary of the model: optional values, JavaScript truthiness of
    nullable columns, `split` at a separator and decimal rendering of numbers. */
module Common {

  datatype Option<T> = None | Some(value: T)

  /** A nullable text column is truthy in JavaScript when present and non-empty. */
  predicate TruthyText(s: Option<string>) {
    s.Some? && s.value != ""
  }

  /** A nullable numeric column is truthy when present and not zero. */
  predicate TruthyInt(n: Option<int>) {
    n.Some? && n.value != 0
  }

  // ---------------------------------------------------------------------
  // Splitting at a separator (JavaScript `String.prototype.split(c)`)
  // ---------------------------------------------------------------------

  /** `s.split(c)[0]`: everything before the first `c`, or all of `s` when it has none. */
  function PrefixBefore(s: string, c: char): (r: string)
    ensures r <= s
    ensures c !in r
    ensures |r| < |s| ==> s[|r|] == c
  {
    if s == [] then []
    else if s[0] == c then []
    else [s[0]] + PrefixBefore(s[1..], c)
  }

  /** `parts.join(c)`. */
  function Join(parts: seq<string>, c: char): string
    requires |parts| >= 1
  {
    if |parts| == 1 then parts[0] else parts[0] + [c] + Join(parts[1..], c)
  }

  /** `s.split(c)`: the pieces between the occurrences of `c`, at least one. */
  function Split(s: string, c: char): (parts: seq<string>)
    ensures |parts| >= 1
    ensures forall i :: 0 <= i < |parts| ==> c !in parts[i]
    ensures Join(parts, c) == s
    ensures parts[0] == PrefixBefore(s, c)
    decreases |s|
  {
    var p := PrefixBefore(s, c);
    if |p| == |s| then
      assert p == s;
      [s]
    else
      var tail := s[|p| + 1..];
      var rest := Split(tail, c);
      assert s == p + [c] + tail;
      var parts := [p] + rest;
      assert parts[1..] == rest;
      assert Join(parts, c) == p + [c] + Join(rest, c);
      parts
  }

  /** Splitting a join of separator-free pieces gives the pieces back. */
  lemma {:induction false} SplitJoin(parts: seq<string>, c: char)
    requires |parts| >= 1
    requires forall i :: 0 <= i < |parts| ==> c !in parts[i]
    ensures Split(Join(parts, c), c) == parts
  {
    var s := Join(parts, c);
    if |parts| == 1 {
      PrefixOfSeparatorFree(parts[0], c);
    } else {
      var tail := Join(parts[1..], c);
      assert s == parts[0] + ([c] + tail);
      PrefixBeforeSeparator(parts[0], [c] + tail, c);
      assert s[|parts[0]| + 1..] == tail;
      SplitJoin(parts[1..], c);
      assert Split(s, c) == [parts[0]] + Split(tail, c);
    }
  }

  lemma {:induction false} PrefixOfSeparatorFree(s: string, c: char)
    requires c !in s
    ensures PrefixBefore(s, c) == s
  {
    if s != [] {
      assert c !in s[1..];
      PrefixOfSeparatorFree(s[1..], c);
    }
  }

  lemma {:induction false} PrefixBeforeSeparator(a: string, b: string, c: char)
    requires c !in a
    requires b != [] && b[0] == c
    ensures PrefixBefore(a + b, c) == a
  {
    if a == [] {
      assert a + b == b;
    } else {
      assert (a + b)[1..] == a[1..] + b;
      assert c !in a[1..];
      PrefixBeforeSeparator(a[1..], b, c);
    }
  }

  // ---------------------------------------------------------------------
  // Decimal numbers (template-literal interpolation of an integer)
  // ---------------------------------------------------------------------

  predicate IsDigit(ch: char) {
    '0' <= ch <= '9'
  }

  predicate AllDigits(s: string) {
    forall i :: 0 <= i < |s| ==> IsDigit(s[i])
  }

  function DigitChar(d: nat): (ch: char)
    requires d < 10
    ensures IsDigit(ch)
  {
    (48 + d) as char
  }

  /** The decimal spelling of a natural number, without leading zeros. */
  function NatToString(n: nat): (s: string)
    ensures |s| >= 1 && AllDigits(s)
    ensures |s| > 1 ==> s[0] != '0'
  {
    if n < 10 then [DigitChar(n)] else NatToString(n / 10) + [DigitChar(n % 10)]
  }

  /** `${n}` for an integer `n` (below 10^21, where JavaScript switches to exponent form). */
  function IntToString(n: int): (s: string)
    ensures |s| >= 1
    ensures ':' !in s && '+' !in s && '.' !in s
  {
    if n < 0 then "-" + NatToString(-n) else NatToString(n)
  }

  /** The value of a string of decimal digits. */
  function DigitsValue(s: string): nat
    requires AllDigits(s)
  {
    if s == [] then 0
    else DigitsValue(s[..|s| - 1]) * 10 + (s[|s| - 1] as int - 48)
  }

  /** Reads back an optionally negative decimal integer. */
  function ParseInt(s: string): Option<int> {
    if |s| >= 2 && s[0] == '-' && AllDigits(s[1..]) then Some(-(DigitsValue(s[1..]) as int))
    else if |s| >= 1 && AllDigits(s) then Some(DigitsValue(s))
    else None
  }

  lemma {:induction false} DigitsValueOfNatToString(n: nat)
    ensures DigitsValue(NatToString(n)) == n
  {
    var s := NatToString(n);
    if n >= 10 {
      DigitsValueOfNatToString(n / 10);
      assert s[..|s| - 1] == NatToString(n / 10);
    }
  }

  /** Rendering then reading an integer gives it back. */
  lemma IntToStringRoundTrip(n: int)
    ensures ParseInt(IntToString(n)) == Some(n)
  {
    var s := IntToString(n);
    if n < 0 {
      var digits := NatToString(-n);
      DigitsValueOfNatToString(-n);
      assert s == "-" + digits;
      assert s[1..] == digits;
      assert |s| >= 2 && s[0] == '-' && AllDigits(s[1..]);
    } else {
      DigitsValueOfNatToString(n);
      assert s == NatToString(n);
      assert s[0] != '-';
    }
  }
}
