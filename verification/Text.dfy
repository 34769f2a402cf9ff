/** ASCII text: decimal numbers, Python's `int()` and `strip()`, hexadecimal, and splitting. */
module Text {
  import opened Wrappers

  type Byte = b: nat | b < 256

  // ------------------------------------------------------------------
  // Characters
  // ------------------------------------------------------------------

  predicate IsDigit(c: char) { '0' <= c <= '9' }

  predicate IsSpace(c: char) {
    c == ' ' || 9 as char <= c <= 13 as char || 28 as char <= c <= 31 as char
  }

  predicate IsLower(c: char) { 'a' <= c <= 'z' }

  predicate IsUpper(c: char) { 'A' <= c <= 'Z' }

  function ToUpper(c: char): char {
    if IsLower(c) then c - 'a' + 'A' else c
  }

  function ToLower(c: char): char {
    if IsUpper(c) then c - 'A' + 'a' else c
  }

  function Upper(s: string): string {
    seq(|s|, i requires 0 <= i < |s| => ToUpper(s[i]))
  }

  function Lower(s: string): string {
    seq(|s|, i requires 0 <= i < |s| => ToLower(s[i]))
  }

  // ------------------------------------------------------------------
  // Stripping and splitting
  // ------------------------------------------------------------------

  function StripLeft(s: string): string {
    if s != [] && IsSpace(s[0]) then StripLeft(s[1..]) else s
  }

  function StripRight(s: string): string {
    if s != [] && IsSpace(s[|s| - 1]) then StripRight(s[..|s| - 1]) else s
  }

  function Strip(s: string): string { StripRight(StripLeft(s)) }

  /** The first position of `c`, or the length of `s`. */
  function Find(s: string, c: char): (k: nat)
    ensures k <= |s| && (forall i :: 0 <= i < k ==> s[i] != c) && (k < |s| ==> s[k] == c)
  {
    if s == [] || s[0] == c then 0 else 1 + Find(s[1..], c)
  }

  /** `s` cut at every `c`. */
  function Split(s: string, c: char): seq<string>
    decreases |s|
  {
    var k := Find(s, c);
    if k == |s| then [s] else [s[..k]] + Split(s[k + 1..], c)
  }

  ghost predicate Lacks(s: string, c: char) {
    forall i :: 0 <= i < |s| ==> s[i] != c
  }

  function Join(a: string, c: char, b: string): string {
    a + [c] + b
  }

  lemma SplitFirst(a: string, c: char, b: string)
    requires Lacks(a, c)
    ensures Split(Join(a, c, b), c) == [a] + Split(b, c)
  {
    var s := Join(a, c, b);
    assert s[|a|] == c && forall i :: 0 <= i < |a| ==> s[i] == a[i];
    assert Find(s, c) == |a|;
    assert s[..|a|] == a && s[|a| + 1..] == b;
  }

  lemma SplitNone(a: string, c: char)
    requires Lacks(a, c)
    ensures Split(a, c) == [a]
  {
  }

  /** The parts with a `c` between each two. */
  function Rejoin(parts: seq<string>, c: char): string
    requires parts != []
  {
    if |parts| == 1 then parts[0] else Join(parts[0], c, Rejoin(parts[1..], c))
  }

  /** What was cut can be put together again, and no part holds the separator. */
  lemma {:induction false} SplitRejoins(s: string, c: char)
    ensures Split(s, c) != [] && Rejoin(Split(s, c), c) == s
    ensures forall i :: 0 <= i < |Split(s, c)| ==> Lacks(Split(s, c)[i], c)
    decreases |s|
  {
    var k := Find(s, c);
    if k < |s| {
      SplitRejoins(s[k + 1..], c);
      assert Split(s, c)[1..] == Split(s[k + 1..], c);
      assert s == s[..k] + [c] + s[k + 1..];
    }
  }

  // ------------------------------------------------------------------
  // Decimal numbers
  // ------------------------------------------------------------------

  function DigitChar(d: nat): (c: char)
    requires d < 10
    ensures IsDigit(c)
  {
    '0' + d as char
  }

  function DigitValue(c: char): nat
    requires IsDigit(c)
  {
    (c - '0') as nat
  }

  /** A number in decimal, as `str()` prints it. */
  function Decimal(n: nat): (s: string)
    ensures s != [] && forall i :: 0 <= i < |s| ==> IsDigit(s[i])
  {
    if n < 10 then [DigitChar(n)] else Decimal(n / 10) + [DigitChar(n % 10)]
  }

  predicate DigitsOrUnderscores(s: string) {
    forall i :: 0 <= i < |s| ==> IsDigit(s[i]) || s[i] == '_'
  }

  /** Digits, with single underscores allowed between them. */
  predicate IsNumeral(s: string) {
    && s != []
    && DigitsOrUnderscores(s)
    && IsDigit(s[0]) && IsDigit(s[|s| - 1])
    && (forall i :: 0 < i < |s| ==> IsDigit(s[i - 1]) || IsDigit(s[i]))
  }

  function NumeralValue(s: string): nat
    requires DigitsOrUnderscores(s)
  {
    if s == [] then 0
    else
      var before := NumeralValue(s[..|s| - 1]);
      if s[|s| - 1] == '_' then before else 10 * before + DigitValue(s[|s| - 1])
  }

  /** `int()` on ASCII text: surrounding whitespace, one sign, and a numeral. */
  function ParseInt(text: string): Option<int> {
    var s := Strip(text);
    var negative := s != [] && s[0] == '-';
    var digits := if s != [] && (s[0] == '-' || s[0] == '+') then s[1..] else s;
    if !IsNumeral(digits) then None
    else
      var value: int := NumeralValue(digits);
      Some(if negative then -value else value)
  }

  lemma {:induction false} DecimalValue(n: nat)
    ensures NumeralValue(Decimal(n)) == n
  {
    if n >= 10 {
      DecimalValue(n / 10);
      var s := Decimal(n);
      assert s[..|s| - 1] == Decimal(n / 10);
    } else {
      assert Decimal(n)[..0] == [];
    }
  }

  lemma StripNothing(s: string)
    requires s != [] && !IsSpace(s[0]) && !IsSpace(s[|s| - 1])
    ensures Strip(s) == s
  {
  }

  ghost predicate AllDigits(s: string) {
    s != [] && forall i :: 0 <= i < |s| ==> IsDigit(s[i])
  }

  lemma UnsignedParses(s: string)
    requires AllDigits(s)
    ensures ParseInt(s) == Some(NumeralValue(s))
  {
    StripNothing(s);
    assert s[0] != '-' && s[0] != '+';
  }

  lemma PlusParses(s: string)
    requires AllDigits(s)
    ensures ParseInt("+" + s) == Some(NumeralValue(s))
  {
    var text := "+" + s;
    assert text[0] == '+' && text[|text| - 1] == s[|s| - 1];
    StripNothing(text);
    assert text[1..] == s;
  }

  /** `int()` reads back what `str()` prints, with or without a plus sign. */
  lemma {:induction false} ParseDecimal(n: nat)
    ensures ParseInt(Decimal(n)) == Some(n)
    ensures ParseInt("+" + Decimal(n)) == Some(n)
  {
    DecimalValue(n);
    UnsignedParses(Decimal(n));
    PlusParses(Decimal(n));
  }

  /** A number as `str()` prints it: digits only, and no leading zero but for zero itself. */
  predicate IsPlainNumeral(s: string) {
    s != [] && (forall i :: 0 <= i < |s| ==> IsDigit(s[i])) && (|s| > 1 ==> s[0] != '0')
  }

  lemma {:induction false} DecimalIsPlain(n: nat)
    ensures IsPlainNumeral(Decimal(n)) && (n > 0 ==> Decimal(n)[0] != '0')
  {
    if n >= 10 {
      DecimalIsPlain(n / 10);
    }
  }

  /** A plain numeral is what its value is printed as. */
  lemma {:induction false} PlainIsDecimal(s: string)
    requires IsPlainNumeral(s)
    ensures Decimal(NumeralValue(s)) == s && (s[0] != '0' ==> NumeralValue(s) > 0)
  {
    var n := |s| - 1;
    var digit := DigitValue(s[n]);
    assert DigitChar(digit) == s[n];
    if n == 0 {
      assert s[..0] == [] && s == [s[0]];
    } else {
      PlainIsDecimal(s[..n]);
      var before := NumeralValue(s[..n]);
      assert NumeralValue(s) == 10 * before + digit;
      assert (10 * before + digit) / 10 == before && (10 * before + digit) % 10 == digit;
      assert s == s[..n] + [s[n]];
    }
  }

  lemma DecimalInjective(m: nat, n: nat)
    requires Decimal(m) == Decimal(n)
    ensures m == n
  {
    DecimalValue(m);
    DecimalValue(n);
  }

  // ------------------------------------------------------------------
  // Hexadecimal
  // ------------------------------------------------------------------

  function HexChar(d: nat): (c: char)
    requires d < 16
  {
    if d < 10 then '0' + d as char else 'a' + (d - 10) as char
  }

  function HexValue(c: char): Option<nat> {
    if IsDigit(c) then Some((c - '0') as nat)
    else if 'a' <= c <= 'f' then Some((c - 'a') as nat + 10)
    else if 'A' <= c <= 'F' then Some((c - 'A') as nat + 10)
    else None
  }

  /** `bytes.hex()`: two lower-case digits a byte. */
  function Hex(bytes: seq<Byte>): string {
    if bytes == [] then "" else [HexChar(bytes[0] / 16), HexChar(bytes[0] % 16)] + Hex(bytes[1..])
  }

  predicate IsHexSpace(c: char) { c == ' ' || 9 as char <= c <= 13 as char }

  /** `bytes.fromhex()`: digit pairs of either case, whitespace allowed between pairs. */
  function FromHex(s: string): Option<seq<Byte>>
    decreases |s|
  {
    if s == [] then Some([])
    else if IsHexSpace(s[0]) then FromHex(s[1..])
    else if |s| < 2 then None
    else
      match (HexValue(s[0]), HexValue(s[1]), FromHex(s[2..]))
      case (Some(high), Some(low), Some(rest)) =>
        if high < 16 && low < 16 then Some([high * 16 + low] + rest) else None
      case _ => None
  }

  lemma HexCharValue(d: nat)
    requires d < 16
    ensures HexValue(HexChar(d)) == Some(d) && !IsHexSpace(HexChar(d)) && HexChar(d) != '$'
  {
  }

  lemma {:induction false} HexRoundTrip(bytes: seq<Byte>)
    ensures FromHex(Hex(bytes)) == Some(bytes)
    ensures Lacks(Hex(bytes), '$')
  {
    if bytes != [] {
      var s, b := Hex(bytes), bytes[0];
      HexRoundTrip(bytes[1..]);
      HexCharValue(b / 16);
      HexCharValue(b % 16);
      assert s[0] == HexChar(b / 16) && s[1] == HexChar(b % 16) && s[2..] == Hex(bytes[1..]);
      assert bytes == [b / 16 * 16 + b % 16] + bytes[1..];
    }
  }

  predicate IsLowerHex(s: string) {
    forall i :: 0 <= i < |s| ==> IsDigit(s[i]) || 'a' <= s[i] <= 'f'
  }

  lemma {:induction false} HexIsLower(bytes: seq<Byte>)
    ensures IsLowerHex(Hex(bytes))
  {
    if bytes != [] {
      HexIsLower(bytes[1..]);
    }
  }

  lemma LowerHexDigit(c: char)
    requires IsDigit(c) || 'a' <= c <= 'f'
    ensures !IsHexSpace(c) && HexValue(c).Some? && HexValue(c).value < 16 && HexChar(HexValue(c).value) == c
  {
  }

  lemma HexDigits(high: nat, low: nat)
    requires high < 16 && low < 16
    ensures (high * 16 + low) / 16 == high && (high * 16 + low) % 16 == low
  {
  }

  /** Digit pairs in lower case are what their bytes are printed as. */
  lemma {:induction false} LowerHexIsHex(s: string)
    requires IsLowerHex(s) && FromHex(s).Some?
    ensures Hex(FromHex(s).value) == s
    decreases |s|
  {
    if s != [] {
      LowerHexDigit(s[0]);
      LowerHexDigit(s[1]);
      LowerHexIsHex(s[2..]);
      var high, low, rest := HexValue(s[0]).value, HexValue(s[1]).value, FromHex(s[2..]).value;
      var bytes := [high * 16 + low] + rest;
      assert FromHex(s).value == bytes && bytes[1..] == rest;
      HexDigits(high, low);
      assert s == [s[0], s[1]] + s[2..];
    }
  }
}
