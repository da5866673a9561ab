/** Shared vocabulary of the model: optional values, results, 256-bit hashes,
    and the integer and string conventions of the C++ sources that Dafny does
    not share (truncating division, ASCII lower-casing, `std::stoi`,
    `uint256S`). */
module Common {

  datatype Option<+T> = None | Some(value: T)

  datatype Result<+T, +E> = Ok(value: T) | Err(error: E)

  /** A JSON-RPC parameter: a string or an integer. */
  datatype Json = JStr(str: string) | JInt(num: int)

  const NotAString: string := "JSON value is not a string as expected"
  const NotAnInteger: string := "JSON value is not an integer as expected"

  /** A `uint256` (offer hash, transaction id, block hash) as its numeric value. */
  type Hash = nat

  /** `uint256::IsNull()` holds exactly for the all-zero value. */
  const NullHash: Hash := 0

  /** 2^256: every `uint256` is below it. */
  const HashModulus: nat := 0x1_0000000000000000_0000000000000000_0000000000000000_0000000000000000

  /** C++ integer division: the quotient is truncated toward zero. */
  function TDiv(a: int, b: int): (q: int)
    requires b > 0
    ensures a >= 0 ==> 0 <= q && 0 <= a - q * b < b
    ensures a < 0 ==> q <= 0 && -b < a - q * b <= 0
  {
    if a >= 0 then a / b else -((-a) / b)
  }

  lemma MulStep(x: int, b: int)
    requires x >= 1 && b > 0
    ensures x * b >= b
  {
  }

  /** Truncating division is monotone in the dividend. */
  lemma TDivMonotone(a: int, a': int, b: int)
    requires b > 0 && a <= a'
    ensures TDiv(a, b) <= TDiv(a', b)
  {
    var q, q' := TDiv(a, b), TDiv(a', b);
    if q > q' {
      MulStep(q - q', b);
      assert false;
    }
  }

  // ---------------------------------------------------------------------
  // Strings

  /** `tolower` in the "C" locale: only 'A'..'Z' change. */
  function ToLowerChar(c: char): (r: char)
    ensures 'A' <= c <= 'Z' ==> 'a' <= r <= 'z' && r as int == c as int + 32
    ensures !('A' <= c <= 'Z') ==> r == c
  {
    if 'A' <= c <= 'Z' then (c as int + 32) as char else c
  }

  /** `boost::algorithm::to_lower_copy` with ASCII case mapping. */
  function ToLower(s: string): (r: string)
    ensures |r| == |s|
    ensures forall i :: 0 <= i < |s| ==> r[i] == ToLowerChar(s[i])
  {
    seq(|s|, i requires 0 <= i < |s| => ToLowerChar(s[i]))
  }

  /** Bytes `c` takes in UTF-8. */
  function Utf8Width(c: char): (n: nat)
    ensures 1 <= n <= 4
    ensures n == 1 <==> (c as int) < 0x80
  {
    if (c as int) < 0x80 then 1
    else if (c as int) < 0x800 then 2
    else if (c as int) < 0x1_0000 then 3
    else 4
  }

  /** `std::string::size()` of the UTF-8 encoding of `s`: its length in
      bytes, not in characters. */
  function Utf8Length(s: string): (n: nat)
    ensures |s| <= n <= 4 * |s|
    ensures n == |s| <==> forall i :: 0 <= i < |s| ==> (s[i] as int) < 0x80
  {
    if |s| == 0 then 0
    else
      assert forall i :: 1 <= i < |s| ==> s[i] == s[1..][i - 1];
      Utf8Width(s[0]) + Utf8Length(s[1..])
  }

  /** Lower-casing twice is lower-casing once. */
  lemma ToLowerIdempotent(s: string)
    ensures ToLower(ToLower(s)) == ToLower(s)
  {
    assert forall i :: 0 <= i < |s| ==> ToLower(ToLower(s))[i] == ToLower(s)[i];
  }

  /** Two strings are equal up to ASCII case. */
  predicate EqualsIgnoreCase(a: string, b: string)
  {
    ToLower(a) == ToLower(b)
  }

  predicate IsDigit(c: char)
  {
    '0' <= c <= '9'
  }

  predicate IsSpace(c: char)
  {
    c == ' ' || c == '\t' || c == '\n' || c == '\r' || c == '\U{B}' || c == '\U{C}'
  }

  /** Number of leading characters of `s` satisfying `IsDigit`. */
  function LeadingDigits(s: string): (n: nat)
    ensures n <= |s|
    ensures forall i :: 0 <= i < n ==> IsDigit(s[i])
    ensures n < |s| ==> !IsDigit(s[n])
  {
    if |s| == 0 || !IsDigit(s[0]) then 0 else 1 + LeadingDigits(s[1..])
  }

  /** Decimal value of a string of digits, most significant first. */
  function DecimalValue(s: string): nat
    requires forall i :: 0 <= i < |s| ==> IsDigit(s[i])
  {
    if |s| == 0 then 0
    else
      assert IsDigit(s[|s| - 1]);
      DecimalValue(s[..|s| - 1]) * 10 + (s[|s| - 1] as int - '0' as int)
  }

  function DropSpaces(s: string): (r: string)
    ensures |r| <= |s|
    ensures |r| > 0 ==> !IsSpace(r[0])
  {
    if |s| > 0 && IsSpace(s[0]) then DropSpaces(s[1..]) else s
  }

  /** `std::stoi`: leading white space, an optional sign, then at least one
      digit; the first non-digit ends the number. `None` stands for the
      `std::invalid_argument` the C++ library throws. */
  function StoI(s: string): (r: Option<int>)
  {
    var t := DropSpaces(s);
    var neg := |t| > 0 && t[0] == '-';
    var u := if |t| > 0 && (t[0] == '-' || t[0] == '+') then t[1..] else t;
    var n := LeadingDigits(u);
    if n == 0 then None
    else if neg then Some(-(DecimalValue(u[..n]) as int))
    else Some(DecimalValue(u[..n]))
  }

  /** Decimal spelling of a natural number, most significant digit first. */
  function NatToDecimal(n: nat): (s: string)
    ensures |s| > 0
    ensures forall i :: 0 <= i < |s| ==> IsDigit(s[i])
  {
    if n < 10 then [('0' as int + n) as char]
    else NatToDecimal(n / 10) + [('0' as int + n % 10) as char]
  }

  lemma {:induction false} DecimalRoundTrip(n: nat)
    ensures DecimalValue(NatToDecimal(n)) == n
  {
    var s := NatToDecimal(n);
    if n >= 10 {
      DecimalRoundTrip(n / 10);
      assert s[..|s| - 1] == NatToDecimal(n / 10);
    }
  }

  lemma LeadingDigitsAll(s: string)
    requires forall i :: 0 <= i < |s| ==> IsDigit(s[i])
    ensures LeadingDigits(s) == |s|
  {
  }

  /** What a command-line user types as a non-negative number is what
      `std::stoi` reads back. */
  lemma StoIRoundTrip(n: nat)
    ensures StoI(NatToDecimal(n)) == Some(n)
  {
    var s := NatToDecimal(n);
    LeadingDigitsAll(s);
    assert DropSpaces(s) == s;
    assert s[..|s|] == s;
    DecimalRoundTrip(n);
  }

  // ---------------------------------------------------------------------
  // uint256S

  /** `HexDigit`: the value of a hexadecimal digit, or -1. */
  function HexDigitValue(c: char): (v: int)
    ensures -1 <= v < 16
  {
    if '0' <= c <= '9' then c as int - '0' as int
    else if 'a' <= c <= 'f' then c as int - 'a' as int + 10
    else if 'A' <= c <= 'F' then c as int - 'A' as int + 10
    else -1
  }

  predicate IsHexDigit(c: char)
  {
    HexDigitValue(c) >= 0
  }

  function LeadingHexDigits(s: string): (n: nat)
    ensures n <= |s|
    ensures forall i :: 0 <= i < n ==> IsHexDigit(s[i])
  {
    if |s| == 0 || !IsHexDigit(s[0]) then 0 else 1 + LeadingHexDigits(s[1..])
  }

  /** Value of a run of hexadecimal digits, most significant first. */
  function HexValue(s: string): nat
    requires forall i :: 0 <= i < |s| ==> IsHexDigit(s[i])
  {
    if |s| == 0 then 0
    else
      assert IsHexDigit(s[|s| - 1]);
      HexValue(s[..|s| - 1]) * 16 + HexDigitValue(s[|s| - 1])
  }

  /** `uint256S`: skip white space and an optional "0x", read the run of hex
      digits that follows; only its last 64 digits fit, so the value is taken
      modulo 2^256. A string without hex digits gives the null hash. */
  function ParseHash(s: string): (h: Hash)
    ensures h < HashModulus
  {
    var t := DropSpaces(s);
    var u := if |t| >= 2 && t[0] == '0' && (t[1] == 'x' || t[1] == 'X') then t[2..] else t;
    HexValue(u[..LeadingHexDigits(u)]) % HashModulus
  }

  /** Lower-case hexadecimal digit for 0..15. */
  function HexChar(d: nat): (c: char)
    requires d < 16
    ensures IsHexDigit(c) && HexDigitValue(c) == d
  {
    if d < 10 then ('0' as int + d) as char else ('a' as int + d - 10) as char
  }

  function Pow16(w: nat): (p: nat)
    ensures p >= 1
  {
    if w == 0 then 1 else 16 * Pow16(w - 1)
  }

  /** `w` hexadecimal digits of `n`, most significant first (`GetHex` with w = 64). */
  function ToHex(n: nat, w: nat): (s: string)
    ensures |s| == w
    ensures forall i :: 0 <= i < |s| ==> IsHexDigit(s[i])
  {
    if w == 0 then [] else ToHex(n / 16, w - 1) + [HexChar(n % 16)]
  }

  lemma {:induction false} HexRoundTrip(n: nat, w: nat)
    requires n < Pow16(w)
    ensures HexValue(ToHex(n, w)) == n
  {
    if w > 0 {
      var s := ToHex(n, w);
      assert s[..|s| - 1] == ToHex(n / 16, w - 1);
      HexRoundTrip(n / 16, w - 1);
    }
  }

  lemma {:induction false} LeadingHexDigitsAll(s: string)
    requires forall i :: 0 <= i < |s| ==> IsHexDigit(s[i])
    ensures LeadingHexDigits(s) == |s|
  {
    if |s| > 0 {
      LeadingHexDigitsAll(s[1..]);
    }
  }

  lemma {:induction false} Pow16Add(a: nat, b: nat)
    ensures Pow16(a + b) == Pow16(a) * Pow16(b)
  {
    if a > 0 {
      Pow16Add(a - 1, b);
    }
  }

  lemma Pow16Of64()
    ensures Pow16(64) == HashModulus
  {
    assert Pow16(8) == 0x1_0000_0000;
    Pow16Add(8, 8);
    Pow16Add(16, 16);
    Pow16Add(32, 32);
  }

  /** Parsing the 64-digit hex spelling of a hash gives the hash back. */
  lemma ParseHashRoundTrip(h: Hash)
    requires h < HashModulus
    ensures ParseHash(ToHex(h, 64)) == h
  {
    var s := ToHex(h, 64);
    Pow16Of64();
    HexRoundTrip(h, 64);
    LeadingHexDigitsAll(s);
    assert HexDigitValue(s[0]) >= 0;
    assert DropSpaces(s) == s;
    assert !(s[0] == '0' && (s[1] == 'x' || s[1] == 'X'));
    assert s[..64] == s;
  }
}
