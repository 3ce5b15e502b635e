/** What the base64 symbols mean: each group of four symbols spells the 24 bits of three bytes. */
module Base64Bits {
  import opened Base64Url

  function ByteAt(bytes: seq<Byte>, i: nat): int {
    if i < |bytes| then bytes[i] else 0
  }

  function DigitAt(s: string, i: nat): int {
    if i < |s| && Value(s[i]).Some? then Value(s[i]).value else 0
  }

  /** The 24 bits of the three bytes from `i`; bytes missing from the last group read as zero. */
  function BitsOfBytes(bytes: seq<Byte>, i: nat): int {
    65536 * ByteAt(bytes, i) + 256 * ByteAt(bytes, i + 1) + ByteAt(bytes, i + 2)
  }

  /** The 24 bits of the four symbols from `i`, six bits each; missing symbols read as zero. */
  function BitsOfSymbols(s: string, i: nat): int {
    262144 * DigitAt(s, i) + 4096 * DigitAt(s, i + 1) + 64 * DigitAt(s, i + 2) + DigitAt(s, i + 3)
  }

  lemma GroupOfDigits(a: Byte, b: Byte, c: Byte)
    ensures 262144 * (a / 4) + 4096 * (a % 4 * 16 + b / 16) + 64 * (b % 16 * 4 + c / 64) + c % 64
         == 65536 * a + 256 * b + c
  {
  }

  /** The symbols of a group, each with the digit that it stands for. */
  lemma FirstSymbols(bytes: seq<Byte>)
    requires bytes != []
    ensures var s, a, b, c := Symbols(bytes), ByteAt(bytes, 0), ByteAt(bytes, 1), ByteAt(bytes, 2);
            && |s| >= 2 && (|bytes| >= 2 <==> |s| >= 3) && (|bytes| >= 3 <==> |s| >= 4)
            && s[0] == Symbol(a / 4) && s[1] == Symbol(a % 4 * 16 + b / 16)
            && (|s| >= 3 ==> s[2] == Symbol(b % 16 * 4 + c / 64)) && (|s| >= 4 ==> s[3] == Symbol(c % 64))
  {
    hide Value, Symbol;
  }

  lemma FirstDigits(bytes: seq<Byte>)
    ensures var s, a, b, c := Symbols(bytes), ByteAt(bytes, 0), ByteAt(bytes, 1), ByteAt(bytes, 2);
            && DigitAt(s, 0) == a / 4 && DigitAt(s, 1) == a % 4 * 16 + b / 16
            && DigitAt(s, 2) == b % 16 * 4 + c / 64 && DigitAt(s, 3) == c % 64
  {
    if bytes != [] {
      FirstSymbols(bytes);
      hide Value, Symbol, Symbols;
      var a, b, c := ByteAt(bytes, 0), ByteAt(bytes, 1), ByteAt(bytes, 2);
      ValueOfSymbol(a / 4);
      ValueOfSymbol(a % 4 * 16 + b / 16);
      ValueOfSymbol(b % 16 * 4 + c / 64);
      ValueOfSymbol(c % 64);
    }
  }

  lemma DigitsShift(bytes: seq<Byte>, i: nat)
    requires |bytes| >= 3
    ensures DigitAt(Symbols(bytes), i + 4) == DigitAt(Symbols(bytes[3..]), i)
  {
    hide Value, Symbol;
    var s, t := Symbols(bytes), Symbols(bytes[3..]);
    assert s[4..] == t;
    hide Symbols;
    assert i < |t| ==> t[i] == s[i + 4];
  }

  lemma BytesShift(bytes: seq<Byte>, i: nat)
    requires |bytes| >= 3
    ensures BitsOfBytes(bytes[3..], i) == BitsOfBytes(bytes, i + 3)
  {
  }

  lemma SymbolsShift(bytes: seq<Byte>, j: nat)
    requires |bytes| >= 3
    ensures BitsOfSymbols(Symbols(bytes[3..]), j) == BitsOfSymbols(Symbols(bytes), j + 4)
  {
    hide Symbols, DigitAt, Value;
    DigitsShift(bytes, j);
    DigitsShift(bytes, j + 1);
    DigitsShift(bytes, j + 2);
    DigitsShift(bytes, j + 3);
  }

  lemma FirstGroup(bytes: seq<Byte>)
    ensures BitsOfSymbols(Symbols(bytes), 0) == BitsOfBytes(bytes, 0)
  {
    FirstDigits(bytes);
    var a: Byte, b: Byte, c: Byte := ByteAt(bytes, 0), ByteAt(bytes, 1), ByteAt(bytes, 2);
    hide Symbols, DigitAt, ByteAt, Value;
    GroupOfDigits(a, b, c);
  }

  lemma BeyondTheEnd(bytes: seq<Byte>, i: nat, j: nat)
    requires |bytes| <= i && |Symbols(bytes)| <= j
    ensures BitsOfSymbols(Symbols(bytes), j) == BitsOfBytes(bytes, i)
  {
    hide Symbols, Value;
  }

  /** Group by group the symbols spell the same 24 bits as the bytes: section 4 of RFC 4648. */
  lemma {:induction false} SymbolsAreTheBits(bytes: seq<Byte>, g: nat)
    ensures BitsOfSymbols(Symbols(bytes), 4 * g) == BitsOfBytes(bytes, 3 * g)
    decreases g
  {
    hide Value, Symbols, BitsOfSymbols, BitsOfBytes;
    if g == 0 {
      FirstGroup(bytes);
    } else if |bytes| <= 3 {
      BeyondTheEnd(bytes, 3 * g, 4 * g);
    } else {
      SymbolsAreTheBits(bytes[3..], g - 1);
      BytesShift(bytes, 3 * g - 3);
      SymbolsShift(bytes, 4 * g - 4);
    }
  }

  // ---------------------------------------------------------------- the encoding, symbol by symbol

  /** The alphabet of section 5 of RFC 4648. */
  const UrlAlphabet := "ABCDEFGHIJKLMNOPQRSTUVWXYZ" + "abcdefghijklmnopqrstuvwxyz" + "0123456789" + "-_"

  lemma UrlSymbolOf(d: int)
    requires 0 <= d < 64
    ensures |UrlAlphabet| == 64
    ensures UrlAlphabet[d] == if Symbol(d) == '+' then '-' else if Symbol(d) == '/' then '_' else Symbol(d)
  {
    assert d < 26 ==> UrlAlphabet[d] == "ABCDEFGHIJKLMNOPQRSTUVWXYZ"[d];
    assert 26 <= d < 52 ==> UrlAlphabet[d] == "abcdefghijklmnopqrstuvwxyz"[d - 26];
    assert 52 <= d < 62 ==> UrlAlphabet[d] == "0123456789"[d - 52];
  }

  lemma SymbolOfValue(c: char)
    requires Value(c).Some?
    ensures 0 <= Value(c).value < 64 && Symbol(Value(c).value) == c
  {
  }

  lemma DigitBounds(s: string, i: nat)
    ensures 0 <= DigitAt(s, i) < 64
  {
    if i < |s| && Value(s[i]).Some? {
      SymbolOfValue(s[i]);
    }
  }

  /** Six of 24 bits: the first six for 0, the last six for 3. */
  function Sextet(bits: int, k: nat): (d: int)
    ensures 0 <= d < 64
  {
    bits / (if k == 0 then 262144 else if k == 1 then 4096 else if k == 2 then 64 else 1) % 64
  }

  lemma SecondSextet(d0: int, d1: int, low: int)
    requires 0 <= d1 < 64 && 0 <= low < 4096
    ensures Sextet(262144 * d0 + 4096 * d1 + low, 1) == d1
  {
    assert (262144 * d0 + 4096 * d1 + low) / 4096 == 64 * d0 + d1;
  }

  lemma ThirdSextet(high: int, d2: int, low: int)
    requires 0 <= d2 < 64 && 0 <= low < 64
    ensures Sextet(4096 * high + 64 * d2 + low, 2) == d2
  {
    assert (4096 * high + 64 * d2 + low) / 64 == 64 * high + d2;
  }

  lemma SextetsOf(d0: int, d1: int, d2: int, d3: int)
    requires 0 <= d0 < 64 && 0 <= d1 < 64 && 0 <= d2 < 64 && 0 <= d3 < 64
    ensures var bits := 262144 * d0 + 4096 * d1 + 64 * d2 + d3;
            Sextet(bits, 0) == d0 && Sextet(bits, 1) == d1 && Sextet(bits, 2) == d2 && Sextet(bits, 3) == d3
  {
    var bits := 262144 * d0 + 4096 * d1 + 64 * d2 + d3;
    SecondSextet(d0, d1, 64 * d2 + d3);
    ThirdSextet(64 * d0 + d1, d2, d3);
    assert bits / 262144 == d0;
    assert bits == 64 * (4096 * d0 + 64 * d1 + d2) + d3;
  }

  lemma DigitIsSextet(s: string, i: nat)
    ensures DigitAt(s, i) == Sextet(BitsOfSymbols(s, i / 4 * 4), i % 4)
  {
    var j := i / 4 * 4;
    DigitBounds(s, j);
    DigitBounds(s, j + 1);
    DigitBounds(s, j + 2);
    DigitBounds(s, j + 3);
    hide DigitAt;
    SextetsOf(DigitAt(s, j), DigitAt(s, j + 1), DigitAt(s, j + 2), DigitAt(s, j + 3));
    hide Sextet;
    assert i == j + i % 4;
  }

  lemma EncodedDigit(bytes: seq<Byte>, i: nat)
    requires i < |Encode(bytes)|
    ensures 0 <= DigitAt(Symbols(bytes), i) < 64 && |UrlAlphabet| == 64
    ensures Encode(bytes)[i] == UrlAlphabet[DigitAt(Symbols(bytes), i)]
  {
    hide Encode, Value, Symbol, Symbols;
    EncodeIsUrlSymbols(bytes);
    var s := Symbols(bytes);
    assert Value(s[i]).Some?;
    SymbolOfValue(s[i]);
    UrlSymbolOf(Value(s[i]).value);
  }

  /** Symbol `i` of an encoding is the one of the url-safe alphabet for six bits: those in place
      `i % 4` of the three bytes that the group spells. */
  lemma EncodedSymbol(bytes: seq<Byte>, i: nat)
    requires i < |Encode(bytes)|
    ensures |UrlAlphabet| == 64
    ensures Encode(bytes)[i] == UrlAlphabet[Sextet(BitsOfBytes(bytes, i / 4 * 3), i % 4)]
  {
    hide Encode, Symbols, Value, Symbol, DigitAt, BitsOfSymbols, BitsOfBytes, Sextet, UrlAlphabet;
    EncodedDigit(bytes, i);
    DigitIsSextet(Symbols(bytes), i);
    SymbolsAreTheBits(bytes, i / 4);
  }

  // ---------------------------------------------------------------- the decoding, byte by byte

  /** Eight of 24 bits: the first eight for 0, the last eight for 2. */
  function Octet(bits: int, k: nat): (b: Byte)
  {
    bits / (if k == 0 then 65536 else if k == 1 then 256 else 1) % 256
  }

  lemma OctetsOfBytes(a: Byte, b: Byte, c: Byte)
    ensures var bits := 65536 * a + 256 * b + c; Octet(bits, 0) == a && Octet(bits, 1) == b && Octet(bits, 2) == c
  {
    var bits := 65536 * a + 256 * b + c;
    assert bits / 65536 == a;
    assert bits / 256 == 256 * a + b;
    assert bits == 256 * (256 * a + b) + c;
  }

  lemma OctetsOf(d0: int, d1: int, d2: int, d3: int)
    requires 0 <= d0 < 64 && 0 <= d1 < 64 && 0 <= d2 < 64 && 0 <= d3 < 64
    ensures var bits := 262144 * d0 + 4096 * d1 + 64 * d2 + d3;
            && Octet(bits, 0) == d0 * 4 + d1 / 16
            && Octet(bits, 1) == d1 % 16 * 16 + d2 / 4
            && Octet(bits, 2) == d2 % 4 * 64 + d3
  {
    hide Octet;
    var a, b, c := d0 * 4 + d1 / 16, d1 % 16 * 16 + d2 / 4, d2 % 4 * 64 + d3;
    OctetsOfBytes(a, b, c);
    assert d1 == d1 / 16 * 16 + d1 % 16 && d2 == d2 / 4 * 4 + d2 % 4;
    assert 262144 * d0 + 4096 * d1 + 64 * d2 + d3 == 65536 * a + 256 * b + c;
  }

  lemma FirstBytes(s: string)
    requires |s| % 4 != 1 && AllSymbols(s)
    ensures var n, d0, d1, d2, d3 := |BytesOf(s)|, DigitAt(s, 0), DigitAt(s, 1), DigitAt(s, 2), DigitAt(s, 3);
            && (n > 0 ==> BytesOf(s)[0] == d0 * 4 + d1 / 16)
            && (n > 1 ==> BytesOf(s)[1] == d1 % 16 * 16 + d2 / 4)
            && (n > 2 ==> BytesOf(s)[2] == d2 % 4 * 64 + d3)
  {
    hide Value;
  }

  lemma FirstOctets(s: string, i: nat)
    requires |s| % 4 != 1 && AllSymbols(s) && i < 3 && i < |BytesOf(s)|
    ensures BytesOf(s)[i] == Octet(BitsOfSymbols(s, 0), i)
  {
    hide Octet, Value, AllSymbols, BytesOf, DigitAt;
    FirstBytes(s);
    DigitBounds(s, 0);
    DigitBounds(s, 1);
    DigitBounds(s, 2);
    DigitBounds(s, 3);
    OctetsOf(DigitAt(s, 0), DigitAt(s, 1), DigitAt(s, 2), DigitAt(s, 3));
  }

  lemma LaterDigits(s: string, j: nat)
    requires |s| >= 4
    ensures BitsOfSymbols(s[4..], j) == BitsOfSymbols(s, j + 4)
  {
    hide Value;
  }

  lemma FewBytes(s: string)
    requires |s| % 4 != 1 && AllSymbols(s) && |s| < 4
    ensures |BytesOf(s)| == 3 * |s| / 4
  {
    hide Value;
  }

  lemma LaterBytes(s: string)
    requires |s| >= 4 && |s| % 4 != 1 && AllSymbols(s)
    ensures |BytesOf(s)| == 3 + |BytesOf(s[4..])|
    ensures forall i | 0 <= i < |BytesOf(s[4..])| :: BytesOf(s)[i + 3] == BytesOf(s[4..])[i]
  {
    hide Value;
  }

  /** Byte `i` of a decoded text of symbols is eight bits of its group: those in place `i % 3`.
      Bits that fill up no byte are dropped, whatever they are. */
  lemma {:induction false} DecodedByte(s: string, i: nat)
    requires |s| % 4 != 1 && AllSymbols(s)
    ensures |BytesOf(s)| == 3 * |s| / 4
    ensures i < |BytesOf(s)| ==> BytesOf(s)[i] == Octet(BitsOfSymbols(s, i / 3 * 4), i % 3)
    decreases |s|
  {
    hide Value, BitsOfSymbols, Octet, BytesOf;
    if |s| < 4 {
      FewBytes(s);
    } else {
      DecodedByte(s[4..], if i >= 3 then i - 3 else 0);
      LaterBytes(s);
      if 3 <= i {
        LaterDigits(s, (i - 3) / 3 * 4);
        assert (i - 3) / 3 * 4 + 4 == i / 3 * 4 && (i - 3) % 3 == i % 3;
      }
    }
    if i < 3 && i < |BytesOf(s)| {
      FirstOctets(s, i);
    }
  }
}
