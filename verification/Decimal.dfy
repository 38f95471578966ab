/** Numbers as the source prints and scans them: printf's "%lu" and "%d", and
    sscanf's "%lu", "%d" and "%i" with their white space, sign, base prefix and
    overflow rules (64-bit conversion, then truncation for int). */
module Decimal {
  import opened Prelude

  const U64: int := 0x1_0000_0000_0000_0000
  const I64: int := 0x8000_0000_0000_0000
  const I32: int := 0x8000_0000
  const U32: int := 0x1_0000_0000

  /** uint64_t */
  type Word64 = n: int | 0 <= n < 0x1_0000_0000_0000_0000

  function Digit(d: nat): char
    requires d < 10
  {
    ('0' as int + d) as char
  }

  /** Printing: "%lu", and "%d" of a non-negative value. */
  function Digits(n: nat): (s: string)
    ensures s != [] && forall i :: 0 <= i < |s| ==> '0' <= s[i] <= '9'
    ensures s[0] == '0' <==> n == 0
    ensures n == 0 ==> |s| == 1
  {
    if n < 10 then [Digit(n)] else Digits(n / 10) + [Digit(n % 10)]
  }

  /** 16 for anything that is no digit in any base used. */
  function Value(c: char): (v: nat)
    ensures v <= 16
  {
    if '0' <= c <= '9' then c as int - '0' as int
    else if 'a' <= c <= 'f' then c as int - 'a' as int + 10
    else if 'A' <= c <= 'F' then c as int - 'A' as int + 10
    else 16
  }

  /** The value of the longest prefix of digits, on top of what was read before. */
  function ScanDigits(s: string, base: nat, acc: nat): nat {
    if s == [] || Value(s[0]) >= base then acc else ScanDigits(s[1..], base, acc * base + Value(s[0]))
  }

  predicate IsSpace(c: char) {
    c == ' ' || '\t' as int <= c as int <= '\r' as int
  }

  function SkipSpace(s: string): string {
    if s != [] && IsSpace(s[0]) then SkipSpace(s[1..]) else s
  }

  predicate Negative(s: string) {
    s != [] && s[0] == '-'
  }

  function SkipSign(s: string): string {
    if s != [] && (s[0] == '-' || s[0] == '+') then s[1..] else s
  }

  predicate HexPrefix(s: string) {
    |s| > 2 && s[0] == '0' && (s[1] == 'x' || s[1] == 'X') && Value(s[2]) < 16
  }

  /** The magnitude after the sign; None when no digit follows.  `auto` is "%i". */
  function Magnitude(s: string, auto: bool): Option<nat> {
    if auto && HexPrefix(s) then Some(ScanDigits(s[2..], 16, 0))
    else if s == [] || Value(s[0]) >= 10 then None
    else if auto && s[0] == '0' then Some(ScanDigits(s, 8, 0))
    else Some(ScanDigits(s, 10, 0))
  }

  /** sscanf "%lu" into a uint64_t. */
  function ScanU64(s: string): (r: Option<nat>)
    ensures r.Some? ==> r.value < U64
  {
    var t := SkipSpace(s);
    match Magnitude(SkipSign(t), false)
    case None => None
    case Some(m) =>
      if m >= U64 then Some(U64 - 1)
      else if Negative(t) then Some((U64 - m) % U64)
      else Some(m)
  }

  /** The low 32 bits, read as a signed number. */
  function ToInt32(n: int): (i: int)
    ensures -I32 <= i < I32
    ensures -I32 <= n < I32 ==> i == n
  {
    (n + I32) % U32 - I32
  }

  /** sscanf "%d" or, with `auto`, "%i" into an int. */
  function ScanInt(s: string, auto: bool): (r: Option<int>)
    ensures r.Some? ==> -I32 <= r.value < I32
  {
    var t := SkipSpace(s);
    match Magnitude(SkipSign(t), auto)
    case None => None
    case Some(m) =>
      var k: int := m;
      Some(ToInt32(if Negative(t) then (if k > I64 then -I64 else -k) else if k >= I64 then I64 - 1 else k))
  }

  lemma {:induction false} ScanPrinted(n: nat, rest: string)
    ensures ScanDigits(Digits(n) + rest, 10, 0) == ScanDigits(rest, 10, n)
    decreases n
  {
    if n < 10 {
      assert ([Digit(n)] + rest)[1..] == rest;
    } else {
      var d := [Digit(n % 10)];
      ScanPrinted(n / 10, d + rest);
      assert Digits(n) + rest == Digits(n / 10) + (d + rest);
      assert (d + rest)[0] == Digit(n % 10) && (d + rest)[1..] == rest;
      assert n / 10 * 10 + n % 10 == n;
    }
  }

  /** Scanning what was printed gives the number back: all of 0..2^64-1 through
      "%lu", all of 0..2^31-1 through "%d" and "%i". */
  lemma PrintScan(n: nat)
    ensures n < U64 ==> ScanU64(Digits(n)) == Some(n)
    ensures n < I32 ==> ScanInt(Digits(n), false) == Some(n) && ScanInt(Digits(n), true) == Some(n)
  {
    ScanPrinted(n, []);
    var s := Digits(n);
    assert s + [] == s;
    assert SkipSpace(s) == s && SkipSign(s) == s && !HexPrefix(s);
    assert ScanDigits([], 10, n) == n;
    if n == 0 {
      assert s[1..] == [] && ScanDigits(s, 8, 0) == 0;
    }
    assert Magnitude(s, false) == Some(n) && Magnitude(s, true) == Some(n);
  }

  /** A larger number read as an int: clamped to 64 bits, then cut to 32. */
  lemma PrintScanInt(n: nat)
    ensures forall auto :: ScanInt(Digits(n), auto) == Some(ToInt32(if n >= I64 then I64 - 1 else n))
  {
    ScanPrinted(n, []);
    var s := Digits(n);
    assert s + [] == s;
    assert SkipSpace(s) == s && SkipSign(s) == s && !HexPrefix(s);
    assert ScanDigits([], 10, n) == n;
    if n == 0 {
      assert s[1..] == [] && ScanDigits(s, 8, 0) == 0;
    }
    assert Magnitude(s, true) == Some(n) && Magnitude(s, false) == Some(n);
  }

  lemma DigitsInjective(m: nat, n: nat)
    requires Digits(m) == Digits(n)
    ensures m == n
  {
    ScanPrinted(m, []);
    ScanPrinted(n, []);
    assert Digits(m) + [] == Digits(m) && Digits(n) + [] == Digits(n);
  }

  /** The number that decimal digits stand for, the last one counting once. */
  function Decimal(s: string): nat
    requires forall i :: 0 <= i < |s| ==> '0' <= s[i] <= '9'
  {
    if s == [] then 0
    else
      var last := s[|s| - 1];
      10 * Decimal(s[..|s| - 1]) + (last as int - '0' as int)
  }

  /** What is printed is the decimal notation. */
  lemma {:induction false} DigitsAreDecimal(n: nat)
    ensures Decimal(Digits(n)) == n
    decreases n
  {
    var s := Digits(n);
    if n < 10 {
      assert s[..0] == [];
    } else {
      DigitsAreDecimal(n / 10);
      assert s[..|s| - 1] == Digits(n / 10) && s[|s| - 1] == Digit(n % 10);
    }
  }

  /** A sign and leading white space. */
  lemma SignedScan(n: nat)
    requires 0 < n <= I32
    ensures var r := ScanInt("-" + Digits(n), false); r.Some? && r.value + n == 0
    ensures ScanInt(" " + Digits(n - 1), false) == Some(n - 1)
  {
    PrintScan(n - 1);
    ScanPrinted(n, []);
    var (s, t) := (Digits(n), Digits(n - 1));
    assert s + [] == s && ("-" + s)[1..] == s && (" " + t)[1..] == t;
    assert SkipSpace("-" + s) == "-" + s && SkipSpace(" " + t) == SkipSpace(t) == t;
    assert ScanDigits(s, 10, 0) == n;
    assert Magnitude(s, false) == Some(n);
  }

  /** No number: nothing is scanned. */
  lemma NoNumber(s: string, auto: bool)
    requires s == "" || 'g' <= s[0] <= 'z'
    ensures ScanInt(s, auto).None? && ScanU64(s).None?
  {
  }
}
