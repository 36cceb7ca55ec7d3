/** Decimal conversions of Go's strconv package, as they behave where Go's
    `int` is 64 bits wide: `Atoi` (string to int, used for the priority and
    the task id) and `Itoa` (int to string, used to build a task's path).
    Go strings are bytes; every character that matters here is ASCII, and any
    other character is a syntax error to `Atoi` whatever its encoding, so a
    Dafny `string` stands for the Go string. */
module GoStrconv {

  const MaxInt64: int := 0x7FFF_FFFF_FFFF_FFFF
  const MinInt64: int := -0x8000_0000_0000_0000
  const MaxUint64: int := 0xFFFF_FFFF_FFFF_FFFF
  /** The smallest n with n * 10 > MaxUint64: ParseUint's overflow cutoff for base 10. */
  const Cutoff10: int := MaxUint64 / 10 + 1

  predicate IsDigit(c: char) {
    '0' <= c <= '9'
  }

  function DigitValue(c: char): (d: nat)
    requires IsDigit(c)
    ensures d < 10
  {
    c as int - '0' as int
  }

  function DigitChar(d: nat): (c: char)
    requires d < 10
    ensures IsDigit(c) && DigitValue(c) == d
  {
    ('0' as int + d) as char
  }

  predicate AllDigits(s: string) {
    forall i :: 0 <= i < |s| ==> IsDigit(s[i])
  }

  function Pow10(k: nat): (p: nat)
    ensures p >= 1
  {
    if k == 0 then 1 else 10 * Pow10(k - 1)
  }

  /** The number a digit string denotes, most significant digit first. This is
      the reference that the scanning loop below is proved against. */
  function DecimalValue(ds: string): nat
    requires AllDigits(ds)
  {
    if ds == [] then 0 else DecimalValue(ds[..|ds| - 1]) * 10 + DigitValue(ds[|ds| - 1])
  }

  /** The string with its leading sign, if any, removed. */
  function Unsigned(s: string): (u: string)
    ensures |u| <= |s|
  {
    if |s| > 0 && (s[0] == '+' || s[0] == '-') then s[1..] else s
  }

  /** What `Atoi` accepts without a syntax error: an optional sign and at least one digit. */
  predicate IsDecimal(s: string) {
    |Unsigned(s)| > 0 && AllDigits(Unsigned(s))
  }

  function SignedValue(s: string): int
    requires IsDecimal(s)
  {
    if s[0] == '-' then -(DecimalValue(Unsigned(s)) as int) else DecimalValue(Unsigned(s))
  }

  /** The nearest 64-bit integer. */
  function Clamp64(x: int): int {
    if x > MaxInt64 then MaxInt64 else if x < MinInt64 then MinInt64 else x
  }

  /** The digits of `s` before its first non-digit. */
  function DigitPrefix(s: string): (p: string)
    ensures AllDigits(p) && p <= s
    ensures |p| < |s| ==> !IsDigit(s[|p|])
  {
    if s == [] || !IsDigit(s[0]) then [] else [s[0]] + DigitPrefix(s[1..])
  }

  /** The number that the digits after the optional sign and before the first
      non-digit denote: what ParseUint has accumulated when it meets that
      non-digit, unless it has overflowed before. */
  function PrefixValue(s: string): nat {
    DecimalValue(DigitPrefix(Unsigned(s)))
  }

  datatype UintScan = Scanned(n: nat) | SyntaxError | RangeError

  /** The digit loop of Go's ParseUint(s, 10, 64), started with `n` already
      accumulated: a non-digit is a syntax error, and an overflow stops the
      scan with a range error at once, before the rest is looked at. */
  function ScanUint(s: string, n: nat): UintScan {
    if s == [] then Scanned(n)
    else if !IsDigit(s[0]) then SyntaxError
    else if n >= Cutoff10 then RangeError
    else if n * 10 + DigitValue(s[0]) > MaxUint64 then RangeError
    else ScanUint(s[1..], n * 10 + DigitValue(s[0]))
  }

  /** ParseInt's range check: an unsigned magnitude and a sign to the nearest int64. */
  function SignAndClamp(neg: bool, u: nat): int {
    if !neg && u >= 0x8000_0000_0000_0000 then MaxInt64
    else if neg && u > 0x8000_0000_0000_0000 then MinInt64
    else if neg then -(u as int)
    else u
  }

  /** strconv.Atoi with its error discarded, as `x, _ := strconv.Atoi(s)`:
      Go's ParseInt(s, 10, 0). A syntax error gives 0; an out-of-range
      value gives the nearest int64. (Atoi's own fast path for inputs shorter
      than 19 bytes returns the same values.) */
  function Atoi(s: string): (r: int)
    ensures MinInt64 <= r <= MaxInt64
  {
    if s == [] then 0
    else
      var neg := s[0] == '-';
      var digits := Unsigned(s);
      if digits == [] then 0
      else
        match ScanUint(digits, 0)
        case SyntaxError => 0
        case RangeError => SignAndClamp(neg, MaxUint64)
        case Scanned(u) => SignAndClamp(neg, u)
  }

  /** The decimal digits of a natural number, without leading zeros. */
  function NatDigits(n: nat): (s: string)
    ensures |s| > 0 && AllDigits(s) && DecimalValue(s) == n
    ensures |s| > 1 ==> s[0] != '0'
  {
    if n < 10 then [DigitChar(n)]
    else
      var init := NatDigits(n / 10);
      var s := init + [DigitChar(n % 10)];
      assert s[..|s| - 1] == init;
      s
  }

  /** strconv.Itoa: a minus sign for negative numbers, then the digits. */
  function Itoa(i: int): (s: string)
    ensures IsDecimal(s) && SignedValue(s) == i
    ensures (s[0] == '-' <==> i < 0) && s[0] != '+'
    ensures |Unsigned(s)| > 1 ==> Unsigned(s)[0] != '0'
  {
    if i < 0 then
      var s := "-" + NatDigits(-i);
      assert Unsigned(s) == NatDigits(-i);
      s
    else
      var s := NatDigits(i);
      assert Unsigned(s) == s;
      s
  }

  lemma {:induction false} ScanConcat(a: string, b: string, n: nat)
    ensures ScanUint(a + b, n) ==
      match ScanUint(a, n)
      case Scanned(m) => ScanUint(b, m)
      case other => other
  {
    if a == [] {
      assert a + b == b;
    } else {
      assert (a + b)[0] == a[0];
      assert (a + b)[1..] == a[1..] + b;
      if IsDigit(a[0]) && n < Cutoff10 && n * 10 + DigitValue(a[0]) <= MaxUint64 {
        ScanConcat(a[1..], b, n * 10 + DigitValue(a[0]));
      }
    }
  }

  /** Scanning a digit string yields the number it denotes, or a range error
      exactly when that number exceeds MaxUint64. */
  lemma {:induction false} ScanDigits(ds: string, n: nat)
    requires AllDigits(ds) && n <= MaxUint64
    ensures var total := n * Pow10(|ds|) + DecimalValue(ds);
      ScanUint(ds, n) == if total <= MaxUint64 then Scanned(total) else RangeError
  {
    if ds != [] {
      var k := |ds| - 1;
      var init, c := ds[..k], ds[k];
      assert ds == init + [c];
      assert AllDigits(init);
      ScanConcat(init, [c], n);
      ScanDigits(init, n);
      var m := n * Pow10(k) + DecimalValue(init);
      ShiftDigit(n, k, DecimalValue(init), DigitValue(c));
      if m <= MaxUint64 {
        ScanOneDigit(c, m);
      }
    }
  }

  lemma ShiftDigit(n: nat, k: nat, v: nat, d: nat)
    ensures n * Pow10(k + 1) + (v * 10 + d) == (n * Pow10(k) + v) * 10 + d
  {
    var p := Pow10(k);
    assert Pow10(k + 1) == 10 * p;
    assert n * (10 * p) == (n * p) * 10;
  }

  lemma ScanOneDigit(c: char, m: nat)
    requires IsDigit(c) && m <= MaxUint64
    ensures ScanUint([c], m) ==
      if m * 10 + DigitValue(c) <= MaxUint64 then Scanned(m * 10 + DigitValue(c)) else RangeError
  {
    assert [c][1..] == [];
  }

  /** A string with an optional sign and digits parses to the number it
      denotes, clamped to the 64-bit range. */
  lemma AtoiDecimal(s: string)
    requires IsDecimal(s)
    ensures Atoi(s) == Clamp64(SignedValue(s))
  {
    ScanDigits(Unsigned(s), 0);
  }

  /** The unsigned part of `s` is its digit prefix followed by the rest,
      which is empty or starts with a non-digit. */
  lemma SplitAtPrefix(s: string) returns (ds: string, rest: string)
    ensures ds == DigitPrefix(Unsigned(s)) && Unsigned(s) == ds + rest
    ensures rest != [] ==> !IsDigit(rest[0])
  {
    ds := DigitPrefix(Unsigned(s));
    rest := Unsigned(s)[|ds|..];
    assert Unsigned(s) == ds + rest;
  }

  /** A string that is not an optional sign followed by digits parses to 0,
      as long as its leading digits fit in 64 unsigned bits: ParseUint reaches
      the offending character and reports a syntax error. */
  lemma AtoiNonDecimal(s: string)
    requires !IsDecimal(s) && PrefixValue(s) <= MaxUint64
    ensures Atoi(s) == 0
  {
    var ds, rest := SplitAtPrefix(s);
    if Unsigned(s) != [] {
      assert rest != [];
      ScanConcat(ds, rest, 0);
      ScanDigits(ds, 0);
    }
  }

  /** Once the leading digits exceed the unsigned 64-bit range, whatever
      follows them is never examined: the result is the int64 bound of the
      string's sign even when a non-digit comes later. */
  lemma AtoiOverflowFirst(s: string)
    requires PrefixValue(s) > MaxUint64
    ensures |s| > 0 && Atoi(s) == if s[0] == '-' then MinInt64 else MaxInt64
  {
    var ds, rest := SplitAtPrefix(s);
    assert ds != [];
    assert Unsigned(s)[0] == ds[0];
    ScanConcat(ds, rest, 0);
    ScanDigits(ds, 0);
  }

  /** Itoa and Atoi are inverse on the 64-bit range. */
  lemma AtoiItoa(i: int)
    requires MinInt64 <= i <= MaxInt64
    ensures IsDecimal(Itoa(i)) && Atoi(Itoa(i)) == i
  {
    AtoiDecimal(Itoa(i));
  }
}
