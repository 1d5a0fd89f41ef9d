/** Decimal integers (big.Int String and SetString, base 10) and standard base64 (section 4 of RFC 4648). */
module TextCodecs {
  import opened Arithmetic
  import opened Wrappers

  newtype byte = x: int | 0 <= x < 256

  // ---------------------------------------------------------------- decimal

  function DigitChar(d: nat): char
    requires d < 10
  {
    ('0' as int + d) as char
  }

  predicate IsDigit(c: char) {
    '0' <= c <= '9'
  }

  function FormatNat(n: nat): (s: string)
    ensures s != [] && forall c :: c in s ==> IsDigit(c)
  {
    if n < 10 then [DigitChar(n)] else FormatNat(n / 10) + [DigitChar(n % 10)]
  }

  function FormatInt(n: int): string {
    if n < 0 then "-" + FormatNat(-n) else FormatNat(n)
  }

  function ParseNat(s: string): Option<nat> {
    if s == [] || !IsDigit(s[|s| - 1]) then None
    else
      var last := s[|s| - 1] as int - '0' as int;
      if |s| == 1 then Some(last)
      else
        var front := ParseNat(s[..|s| - 1]);
        if front.None? then None else Some(10 * front.value + last)
  }

  /** One optional sign, then at least one digit and nothing else. */
  function ParseInt(s: string): Option<int> {
    if s != [] && (s[0] == '-' || s[0] == '+') then
      var n := ParseNat(s[1..]);
      if n.None? then None
      else
        var m: int := n.value;
        Some(if s[0] == '-' then -m else m)
    else
      var n := ParseNat(s);
      if n.None? then None else Some(n.value)
  }

  lemma {:induction false} ParseNatFormat(n: nat)
    ensures ParseNat(FormatNat(n)) == Some(n)
  {
    if n >= 10 {
      ParseNatFormat(n / 10);
      assert FormatNat(n)[..|FormatNat(n)| - 1] == FormatNat(n / 10);
    }
  }

  lemma SignedDigits(digits: string, n: nat)
    requires digits != [] && IsDigit(digits[0]) && ParseNat(digits) == Some(n)
    ensures ParseInt(digits) == Some(n) && ParseInt("-" + digits) == Some(-(n as int))
  {
    assert ("-" + digits)[1..] == digits;
  }

  /** Every integer, of any size and sign, survives its decimal text. */
  lemma ParseIntFormat(n: int)
    ensures ParseInt(FormatInt(n)) == Some(n)
  {
    var m: nat := if n < 0 then -n else n;
    var digits := FormatNat(m);
    assert digits[0] in digits;
    ParseNatFormat(m);
    SignedDigits(digits, m);
  }

  function Pow10(k: nat): nat {
    if k == 0 then 1 else 10 * Pow10(k - 1)
  }

  lemma {:induction false} Pow10IsPositive(k: nat)
    ensures Pow10(k) >= 1
  {
    if k > 0 {
      Pow10IsPositive(k - 1);
    }
  }

  lemma DivideByTen(n: nat, k: nat)
    ensures Pow10(k) >= 1 && Pow10(k + 1) >= 1
    ensures n / 10 / Pow10(k) == n / Pow10(k + 1)
    ensures n / 10 < Pow10(k) <==> n < Pow10(k + 1)
  {
    Pow10IsPositive(k);
    var p := Pow10(k);
    var q, r := n / 10 / p, n / 10 % p;
    assert n / 10 == q * p + r;
    assert n == (q * p + r) * 10 + n % 10;
    assert n == q * (10 * p) + (10 * r + n % 10) by {
      assert (q * p + r) * 10 == q * (10 * p) + 10 * r;
    }
    QuotientIsUnique(n, q, 10 * r + n % 10, 10 * p);
  }

  /** The k-th character from the right is the digit of 10^k, there are no more places than needed, and no leading zero. */
  lemma {:induction false} DecimalPlaces(n: nat, k: nat)
    ensures |FormatNat(n)| > 0 && Pow10(k) >= 1
    ensures k < |FormatNat(n)| ==> FormatNat(n)[|FormatNat(n)| - 1 - k] as int - '0' as int == n / Pow10(k) % 10
    ensures k >= |FormatNat(n)| ==> n < Pow10(k)
    ensures n > 0 ==> FormatNat(n)[0] != '0'
    decreases n
  {
    Pow10IsPositive(k);
    if n >= 10 {
      DecimalPlaces(n / 10, if k == 0 then 0 else k - 1);
      if k > 0 {
        DivideByTen(n, k - 1);
      }
    } else if k > 0 {
      Pow10IsPositive(k - 1);
    }
  }

  /** A minus sign for the negative numbers, in front of the digits of the absolute value. */
  lemma SignInFront(n: int)
    ensures n < 0 ==> FormatInt(n) == ['-'] + FormatNat(-n)
    ensures n >= 0 ==> FormatInt(n) == FormatNat(n) && FormatInt(n)[0] != '-'
  {
    if n >= 0 {
      assert FormatNat(n)[0] in FormatNat(n);
    }
  }

  // ---------------------------------------------------------------- base64

  /** A symbol is a sextet, or PAD for the equals sign; -1 stands for any other character. */
  const PAD := 64

  function SymbolChar(i: nat): (c: char)
    requires i <= PAD
    ensures c !in {'\n', '\r'}
  {
    if i < 26 then ('A' as int + i) as char
    else if i < 52 then ('a' as int + i - 26) as char
    else if i < 62 then ('0' as int + i - 52) as char
    else if i == 62 then '+' else if i == 63 then '/' else '='
  }

  function Symbol(c: char): (i: int)
    ensures -1 <= i <= PAD
  {
    if 'A' <= c <= 'Z' then c as int - 'A' as int
    else if 'a' <= c <= 'z' then c as int - 'a' as int + 26
    else if '0' <= c <= '9' then c as int - '0' as int + 52
    else if c == '+' then 62
    else if c == '/' then 63
    else if c == '=' then PAD
    else -1
  }

  lemma SymbolOfChar(i: nat)
    requires i <= PAD
    ensures Symbol(SymbolChar(i)) == i
  {
  }

  function Sextet0(a: byte): (i: nat) ensures i < 64 { a as int / 4 }
  function Sextet1(a: byte, b: byte): (i: nat) ensures i < 64 { a as int % 4 * 16 + b as int / 16 }
  function Sextet2(b: byte, c: byte): (i: nat) ensures i < 64 { b as int % 16 * 4 + c as int / 64 }
  function Sextet3(c: byte): (i: nat) ensures i < 64 { c as int % 64 }

  /** Three bytes to four symbols; one or two left over are filled up with zero bits and padded. */
  function EncodeSymbols(data: seq<byte>): (s: seq<nat>)
    ensures forall i :: i in s ==> i <= PAD
  {
    if data == [] then []
    else if |data| == 1 then [Sextet0(data[0]), Sextet1(data[0], 0), PAD, PAD]
    else if |data| == 2 then [Sextet0(data[0]), Sextet1(data[0], data[1]), Sextet2(data[1], 0), PAD]
    else
      [Sextet0(data[0]), Sextet1(data[0], data[1]), Sextet2(data[1], data[2]), Sextet3(data[2])] + EncodeSymbols(data[3..])
  }

  /** The alphabet: capital letters, small letters, digits, plus and slash, each range in order. */
  lemma AlphabetIsStandard(i: nat)
    requires i < 64
    ensures SymbolChar(0) == 'A' && SymbolChar(25) == 'Z' && SymbolChar(26) == 'a' && SymbolChar(51) == 'z'
    ensures SymbolChar(52) == '0' && SymbolChar(61) == '9' && SymbolChar(62) == '+' && SymbolChar(63) == '/' && SymbolChar(PAD) == '='
    ensures i !in {25, 51, 61, 62, 63} ==> SymbolChar(i + 1) as int == SymbolChar(i) as int + 1
  {
  }

  /** Every three bytes and their four symbols are the same 24-bit number, most significant part first. */
  lemma {:induction false} GroupsKeepTheirBits(data: seq<byte>, g: nat)
    requires 3 * g + 3 <= |data|
    ensures var s := EncodeSymbols(data);
      && 4 * g + 4 <= |s| && s[4 * g] < 64 && s[4 * g + 1] < 64 && s[4 * g + 2] < 64 && s[4 * g + 3] < 64
      && s[4 * g] * 0x4_0000 + s[4 * g + 1] * 0x1000 + s[4 * g + 2] * 0x40 + s[4 * g + 3]
        == data[3 * g] as int * 0x1_0000 + data[3 * g + 1] as int * 0x100 + data[3 * g + 2] as int
    decreases g
  {
    if g == 0 {
      SameBits(data[0], data[1], data[2]);
    } else {
      var rest := EncodeSymbols(data[3..]);
      GroupsKeepTheirBits(data[3..], g - 1);
      assert forall i :: 0 <= i < |rest| ==> EncodeSymbols(data)[4 + i] == rest[i];
    }
  }

  lemma SameBits(a: byte, b: byte, c: byte)
    ensures Sextet0(a) * 0x4_0000 + Sextet1(a, b) * 0x1000 + Sextet2(b, c) * 0x40 + Sextet3(c)
      == a as int * 0x1_0000 + b as int * 0x100 + c as int
  {
  }

  /** Four symbols for every three bytes begun. */
  lemma {:induction false} SymbolsPerGroup(data: seq<byte>)
    ensures |EncodeSymbols(data)| == (|data| + 2) / 3 * 4
    decreases |data|
  {
    if |data| >= 3 {
      SymbolsPerGroup(data[3..]);
      assert (|data[3..]| + 2) / 3 + 1 == (|data| + 2) / 3;
    }
  }

  /** After any number of whole groups the rest is encoded on its own: one or two bytes left over give the last four symbols. */
  lemma {:induction false} RestIsEncodedAlone(data: seq<byte>, g: nat)
    requires 3 * g <= |data|
    ensures 4 * g <= |EncodeSymbols(data)| && EncodeSymbols(data)[4 * g..] == EncodeSymbols(data[3 * g..])
    decreases g
  {
    if g == 0 {
      assert data[0..] == data;
    } else {
      var rest := EncodeSymbols(data[3..]);
      RestIsEncodedAlone(data[3..], g - 1);
      assert EncodeSymbols(data)[4..] == rest;
      assert EncodeSymbols(data)[4 * g..] == rest[4 * (g - 1)..];
      assert data[3..][3 * (g - 1)..] == data[3 * g..];
    }
  }

  /** These are the same number as the bytes, filled up with zero bits, and padded with equals signs. */
  lemma LeftoverKeepsItsBits(a: byte, b: byte)
    ensures var s := EncodeSymbols([a]);
      |s| == 4 && s[0] * 0x4_0000 + s[1] * 0x1000 == a as int * 0x1_0000 && s[2] == PAD && s[3] == PAD
    ensures var s := EncodeSymbols([a, b]);
      |s| == 4 && s[0] * 0x4_0000 + s[1] * 0x1000 + s[2] * 0x40 == a as int * 0x1_0000 + b as int * 0x100 && s[3] == PAD
  {
    SameBits(a, 0, 0);
    SameBits(a, b, 0);
  }

  function EncodeBase64(data: seq<byte>): string {
    var symbols := EncodeSymbols(data);
    seq(|symbols|, i requires 0 <= i < |symbols| => assert symbols[i] in symbols; SymbolChar(symbols[i]))
  }

  function First(i: int, j: int): byte requires 0 <= i < 64 && 0 <= j < 64 { (i * 4 + j / 16) as byte }
  function Second(j: int, k: int): byte requires 0 <= j < 64 && 0 <= k < 64 { (j % 16 * 16 + k / 4) as byte }
  function Third(k: int, l: int): byte requires 0 <= k < 64 && 0 <= l < 64 { (k % 4 * 64 + l) as byte }

  predicate IsSextet(i: int) {
    0 <= i < 64
  }

  /** Groups of four; padding only in the last one; the bits that padding cuts off are ignored, as the decoder is not strict. */
  function DecodeSymbols(s: seq<int>): Option<seq<byte>> {
    if s == [] then Some([])
    else if |s| < 4 || !IsSextet(s[0]) || !IsSextet(s[1]) then None
    else if |s| == 4 && s[2] == PAD && s[3] == PAD then Some([First(s[0], s[1])])
    else if !IsSextet(s[2]) then None
    else if |s| == 4 && s[3] == PAD then Some([First(s[0], s[1]), Second(s[1], s[2])])
    else if !IsSextet(s[3]) then None
    else
      var rest := DecodeSymbols(s[4..]);
      if rest.None? then None else Some([First(s[0], s[1]), Second(s[1], s[2]), Third(s[2], s[3])] + rest.value)
  }

  function WithoutNewlines(s: string): string {
    if s == [] then []
    else if s[0] == '\n' || s[0] == '\r' then WithoutNewlines(s[1..])
    else [s[0]] + WithoutNewlines(s[1..])
  }

  function Symbols(s: string): seq<int> {
    seq(|s|, i requires 0 <= i < |s| => Symbol(s[i]))
  }

  function DecodeBase64(s: string): Option<seq<byte>> {
    DecodeSymbols(Symbols(WithoutNewlines(s)))
  }

  /** The four sextets of three bytes give the bytes back. */
  lemma SextetsOfBytes(a: byte, b: byte, c: byte)
    ensures First(Sextet0(a), Sextet1(a, b)) == a
    ensures Second(Sextet1(a, b), Sextet2(b, c)) == b
    ensures Third(Sextet2(b, c), Sextet3(c)) == c
  {
  }

  lemma DecodePadded(i: int, j: int, k: int)
    requires IsSextet(i) && IsSextet(j) && IsSextet(k)
    ensures DecodeSymbols([i, j, PAD, PAD]) == Some([First(i, j)])
    ensures DecodeSymbols([i, j, k, PAD]) == Some([First(i, j), Second(j, k)])
  {
  }

  lemma DecodeQuad(i: int, j: int, k: int, l: int, rest: seq<int>)
    requires IsSextet(i) && IsSextet(j) && IsSextet(k) && IsSextet(l) && DecodeSymbols(rest).Some?
    ensures DecodeSymbols([i, j, k, l] + rest) == Some([First(i, j), Second(j, k), Third(k, l)] + DecodeSymbols(rest).value)
  {
    assert ([i, j, k, l] + rest)[4..] == rest;
  }

  lemma DecodeOne(a: byte)
    ensures DecodeSymbols([Sextet0(a), Sextet1(a, 0), PAD, PAD]) == Some([a])
  {
    DecodePadded(Sextet0(a), Sextet1(a, 0), 0);
    SextetsOfBytes(a, 0, 0);
  }

  lemma DecodeTwo(a: byte, b: byte)
    ensures DecodeSymbols([Sextet0(a), Sextet1(a, b), Sextet2(b, 0), PAD]) == Some([a, b])
  {
    DecodePadded(Sextet0(a), Sextet1(a, b), Sextet2(b, 0));
    SextetsOfBytes(a, b, 0);
  }

  lemma DecodeThree(a: byte, b: byte, c: byte, rest: seq<int>)
    requires DecodeSymbols(rest).Some?
    ensures DecodeSymbols([Sextet0(a), Sextet1(a, b), Sextet2(b, c), Sextet3(c)] + rest)
         == Some([a, b, c] + DecodeSymbols(rest).value)
  {
    DecodeQuad(Sextet0(a), Sextet1(a, b), Sextet2(b, c), Sextet3(c), rest);
    SextetsOfBytes(a, b, c);
  }

  lemma {:induction false} DecodeSymbolsEncode(data: seq<byte>)
    ensures DecodeSymbols(EncodeSymbols(data)) == Some(data)
  {
    if |data| == 1 {
      DecodeOne(data[0]);
      assert data == [data[0]];
    } else if |data| == 2 {
      DecodeTwo(data[0], data[1]);
      assert data == [data[0], data[1]];
    } else if |data| > 2 {
      DecodeSymbolsEncode(data[3..]);
      DecodeThree(data[0], data[1], data[2], EncodeSymbols(data[3..]));
      assert data == [data[0], data[1], data[2]] + data[3..];
    }
  }

  lemma {:induction false} NothingToStrip(s: string)
    requires forall c :: c in s ==> c != '\n' && c != '\r'
    ensures WithoutNewlines(s) == s
  {
    if s != [] {
      assert s[0] in s && forall c :: c in s[1..] ==> c in s;
      NothingToStrip(s[1..]);
    }
  }

  /** Every byte string survives its base64 text. */
  lemma DecodeBase64Encode(data: seq<byte>)
    ensures DecodeBase64(EncodeBase64(data)) == Some(data)
  {
    var symbols, text := EncodeSymbols(data), EncodeBase64(data);
    NothingToStrip(text);
    forall i | 0 <= i < |symbols|
      ensures Symbol(text[i]) == symbols[i]
    {
      assert symbols[i] in symbols;
      SymbolOfChar(symbols[i]);
    }
    assert Symbols(text) == symbols;
    DecodeSymbolsEncode(data);
  }
}
