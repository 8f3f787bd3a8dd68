/** Text as the database and the cursors see it: SQLite's BINARY order on
    strings, fixed-width decimal fields, and the decimal numerals of
    strconv.Itoa and strconv.Atoi. */
module Text {

  datatype Option<+T> = None | Some(value: T)

  /** BINARY collation: compare character by character, a proper prefix first. */
  predicate Less(a: string, b: string) {
    b != [] && (a == [] || a[0] < b[0] || (a[0] == b[0] && Less(a[1..], b[1..])))
  }

  lemma {:induction false} LessIsStrictTotalOrder(a: string, b: string)
    ensures !Less(a, a)
    ensures Less(a, b) ==> !Less(b, a)
    ensures Less(a, b) || a == b || Less(b, a)
    decreases |a|
  {
    if a != [] {
      LessIsStrictTotalOrder(a[1..], if b == [] then [] else b[1..]);
      assert b != [] && a[0] == b[0] && a[1..] == b[1..] ==> a == [a[0]] + a[1..] == [b[0]] + b[1..] == b;
    }
  }

  lemma {:induction false} LessTransitive(a: string, b: string, c: string)
    requires Less(a, b) && Less(b, c)
    ensures Less(a, c)
    decreases |a|
  {
    if a != [] && a[0] == b[0] && b[0] == c[0] {
      LessTransitive(a[1..], b[1..], c[1..]);
    }
  }

  /** Fields of equal width are compared one after the other. */
  lemma {:induction false} LessByFields(a: string, a': string, b: string, b': string)
    requires |a| == |b|
    ensures Less(a + a', b + b') <==> Less(a, b) || (a == b && Less(a', b'))
    decreases |a|
  {
    if a == [] {
      assert a + a' == a' && b + b' == b';
    } else {
      LessByFields(a[1..], a', b[1..], b');
      assert (a + a')[1..] == a[1..] + a' && (b + b')[1..] == b[1..] + b';
      assert a[0] == b[0] && a[1..] == b[1..] ==> a == [a[0]] + a[1..] == [b[0]] + b[1..] == b;
    }
  }

  /** Code points strings.TrimSpace removes. */
  predicate IsSpace(c: char) {
    var n := c as int;
    || 9 <= n <= 13 || n == 32 || n == 0x85 || n == 0xA0 || n == 0x1680 || 0x2000 <= n <= 0x200A
    || n == 0x2028 || n == 0x2029 || n == 0x202F || n == 0x205F || n == 0x3000
  }

  predicate IsBlank(s: string) {
    forall i :: 0 <= i < |s| ==> IsSpace(s[i])
  }

  function Digit(d: nat): char
    requires d < 10
  {
    (48 + d) as char
  }

  predicate IsDigit(c: char) {
    48 <= c as int <= 57
  }

  predicate AllDigits(s: string) {
    forall i :: 0 <= i < |s| ==> IsDigit(s[i])
  }

  function Pow10(w: nat): (p: nat)
    ensures p > 0
  {
    if w == 0 then 1 else 10 * Pow10(w - 1)
  }

  /** The number a string of digits denotes. */
  function Value(s: string): nat
    requires AllDigits(s)
  {
    if s == [] then 0 else 10 * Value(s[..|s| - 1]) + (s[|s| - 1] as int - 48)
  }

  /** The last w decimal digits of n. */
  function Pad(n: nat, w: nat): (s: string)
    ensures |s| == w && AllDigits(s)
  {
    if w == 0 then "" else Pad(n / 10, w - 1) + [Digit(n % 10)]
  }

  lemma {:induction false} PadRoundTrip(n: nat, w: nat)
    requires n < Pow10(w)
    ensures Value(Pad(n, w)) == n
  {
    if w > 0 {
      PadRoundTrip(n / 10, w - 1);
      var s := Pad(n, w);
      assert s[..|s| - 1] == Pad(n / 10, w - 1);
    }
  }

  lemma {:induction false} ValueRoundTrip(s: string)
    requires AllDigits(s)
    ensures Value(s) < Pow10(|s|) && Pad(Value(s), |s|) == s
  {
    if s != [] {
      ValueRoundTrip(s[..|s| - 1]);
      assert s == s[..|s| - 1] + [s[|s| - 1]];
    }
  }

  /** Fixed-width numerals sort as the numbers they denote. */
  lemma {:induction false} PadOrder(m: nat, n: nat, w: nat)
    requires m < Pow10(w) && n < Pow10(w)
    ensures Less(Pad(m, w), Pad(n, w)) <==> m < n
    ensures Pad(m, w) == Pad(n, w) <==> m == n
  {
    PadRoundTrip(m, w);
    PadRoundTrip(n, w);
    if w > 0 {
      PadOrder(m / 10, n / 10, w - 1);
      LessByFields(Pad(m / 10, w - 1), [Digit(m % 10)], Pad(n / 10, w - 1), [Digit(n % 10)]);
    }
  }

  /** A numeral of width w, its separator, and what follows. */
  function Field(n: nat, w: nat, sep: char, rest: string): string {
    Pad(n, w) + ([sep] + rest)
  }

  lemma FieldOrder(m: nat, n: nat, w: nat, sep: char, a: string, b: string)
    requires m < Pow10(w) && n < Pow10(w)
    ensures Less(Field(m, w, sep, a), Field(n, w, sep, b)) <==> m < n || (m == n && Less(a, b))
    ensures Field(m, w, sep, a) == Field(n, w, sep, b) <==> m == n && a == b
  {
    PadOrder(m, n, w);
    assert ([sep] + a)[1..] == a && ([sep] + b)[1..] == b;
    LessByFields(Pad(m, w), [sep] + a, Pad(n, w), [sep] + b);
    var x, y := Field(m, w, sep, a), Field(n, w, sep, b);
    assert x[..w] == Pad(m, w) && x[w + 1..] == a && y[..w] == Pad(n, w) && y[w + 1..] == b;
  }

  const MAX_INT: int := 0x7FFF_FFFF_FFFF_FFFF

  function Itoa(n: nat): (s: string)
    ensures s != [] && AllDigits(s)
  {
    if n < 10 then [Digit(n)] else Itoa(n / 10) + [Digit(n % 10)]
  }

  /** Optional sign, then at least one digit, within 64 bits. */
  function Atoi(s: string): Option<int> {
    var negative := s != [] && s[0] == '-';
    var digits := if s != [] && (s[0] == '-' || s[0] == '+') then s[1..] else s;
    if digits == [] || !AllDigits(digits) then None
    else
      var n: int := Value(digits);
      if negative then (if n <= MAX_INT + 1 then Some(-n) else None)
      else if n <= MAX_INT then Some(n) else None
  }

  lemma {:induction false} ValueOfItoa(n: nat)
    ensures Value(Itoa(n)) == n
  {
    if n >= 10 {
      ValueOfItoa(n / 10);
      var s := Itoa(n);
      assert s[..|s| - 1] == Itoa(n / 10);
    }
  }

  /** A cursor written with Itoa is read back by Atoi. */
  lemma CursorRoundTrip(n: nat)
    requires n <= MAX_INT
    ensures Atoi(Itoa(n)) == Some(n) && Itoa(n) != ""
  {
    ValueOfItoa(n);
    assert IsDigit(Itoa(n)[0]);
  }

  /** A numeral written by Itoa has no leading zero. */
  lemma {:induction false} ItoaIsCanonical(n: nat)
    ensures Itoa(n)[0] == '0' <==> n == 0
    ensures n == 0 ==> Itoa(n) == "0"
  {
    if n >= 10 {
      ItoaIsCanonical(n / 10);
      assert Itoa(n)[0] == Itoa(n / 10)[0];
    }
  }

  /** What Atoi makes of an optional sign and digits: the signed number, if it has 64 bits. */
  lemma AtoiReads(sign: string, digits: string)
    requires sign in {"", "+", "-"} && digits != [] && AllDigits(digits)
    ensures var n: int := Value(digits);
            Atoi(sign + digits) ==
              if sign == "-" then (if n <= 9223372036854775808 then Some(-n) else None)
              else if n <= 9223372036854775807 then Some(n) else None
  {
    assert IsDigit(digits[0]);
    if sign == "" { assert sign + digits == digits; } else { assert (sign + digits)[1..] == digits; }
  }

  /** Atoi reads nothing else. */
  lemma AtoiReadsOnlyNumerals(s: string)
    requires Atoi(s).Some?
    ensures s != [] && (AllDigits(s) || (s[0] in {'+', '-'} && |s| > 1 && AllDigits(s[1..])))
  {
  }

  /** Of the ASCII characters, tab to carriage return and the blank are spaces. */
  lemma AsciiSpaces(c: char)
    requires (c as int) < 128
    ensures IsSpace(c) <==> c in {'\t', '\n', 11 as char, 12 as char, '\r', ' '}
  {
  }
}
