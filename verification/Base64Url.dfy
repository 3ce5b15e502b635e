/** The base64url codec of the OIDC client: section 5 of RFC 4648 without padding, built on the
    platform's `btoa` and forgiving `atob`. */
module Base64Url {
  import opened Domain

  type Byte = b: int | 0 <= b < 256

  // ---------------------------------------------------------------- alphabet

  function Symbol(d: int): char
    requires 0 <= d < 64
  {
    if d < 26 then 'A' + d as char
    else if d < 52 then 'a' + (d - 26) as char
    else if d < 62 then '0' + (d - 52) as char
    else if d == 62 then '+' else '/'
  }

  function Value(c: char): Option<int> {
    if 'A' <= c <= 'Z' then Some(c as int - 'A' as int)
    else if 'a' <= c <= 'z' then Some(c as int - 'a' as int + 26)
    else if '0' <= c <= '9' then Some(c as int - '0' as int + 52)
    else if c == '+' then Some(62)
    else if c == '/' then Some(63)
    else None
  }

  lemma ValueOfSymbol(d: int)
    requires 0 <= d < 64
    ensures Value(Symbol(d)) == Some(d) && Symbol(d) != '='
  {
  }

  predicate IsUrlSymbol(c: char) {
    'A' <= c <= 'Z' || 'a' <= c <= 'z' || '0' <= c <= '9' || c == '-' || c == '_'
  }

  // ---------------------------------------------------------------- btoa and atob

  /** The symbols of the bytes, three bytes to four symbols, without padding. */
  function Symbols(bytes: seq<Byte>): (s: string)
    ensures |s| == (4 * |bytes| + 2) / 3
    ensures forall i | 0 <= i < |s| :: Value(s[i]).Some?
  {
    if bytes == [] then ""
    else if |bytes| == 1 then [Symbol(bytes[0] / 4), Symbol(bytes[0] % 4 * 16)]
    else if |bytes| == 2 then
      [Symbol(bytes[0] / 4), Symbol(bytes[0] % 4 * 16 + bytes[1] / 16), Symbol(bytes[1] % 16 * 4)]
    else
      [Symbol(bytes[0] / 4), Symbol(bytes[0] % 4 * 16 + bytes[1] / 16),
       Symbol(bytes[1] % 16 * 4 + bytes[2] / 64), Symbol(bytes[2] % 64)] + Symbols(bytes[3..])
  }

  /** `btoa`: the last group is padded to four symbols. */
  function Btoa(bytes: seq<Byte>): string {
    Symbols(bytes) + if |bytes| % 3 == 1 then "==" else if |bytes| % 3 == 2 then "=" else ""
  }

  predicate IsAsciiWhitespace(c: char) {
    c == '\t' || c == '\n' || c == '\U{0C}' || c == '\r' || c == ' '
  }

  function WithoutWhitespace(s: string): string {
    if s == "" then ""
    else (if IsAsciiWhitespace(s[0]) then "" else [s[0]]) + WithoutWhitespace(s[1..])
  }

  /** A text of a multiple of four symbols loses one or two trailing `=`. */
  function WithoutPadding(s: string): string {
    if |s| % 4 != 0 || s == "" || s[|s| - 1] != '=' then s
    else if s[|s| - 2] == '=' then s[..|s| - 2]
    else s[..|s| - 1]
  }

  /** The bytes of a text of symbols; bits left over in the last group are dropped. */
  function BytesOf(s: string): seq<Byte>
    requires |s| % 4 != 1 && forall i | 0 <= i < |s| :: Value(s[i]).Some?
  {
    if s == "" then []
    else
      var d0, d1 := Value(s[0]).value, Value(s[1]).value;
      var first := [d0 * 4 + d1 / 16];
      if |s| == 2 then first else
      var d2 := Value(s[2]).value;
      var second := first + [d1 % 16 * 16 + d2 / 4];
      if |s| == 3 then second else
      second + [d2 % 4 * 64 + Value(s[3]).value] + BytesOf(s[4..])
  }

  /** `atob`, the forgiving base64 decode of the platform; None where it throws. */
  function Atob(s: string): Option<seq<Byte>> {
    var t := WithoutPadding(WithoutWhitespace(s));
    if |t| % 4 != 1 && (forall i | 0 <= i < |t| :: Value(t[i]).Some?) then Some(BytesOf(t)) else None
  }

  // ---------------------------------------------------------------- the codec

  /** `s.replace(/from/g, to)`. */
  function ReplaceAll(s: string, from: char, to: char): (r: string)
    ensures |r| == |s| && forall i | 0 <= i < |s| :: r[i] == if s[i] == from then to else s[i]
  {
    seq(|s|, i requires 0 <= i < |s| => if s[i] == from then to else s[i])
  }

  /** `s.replace(/=+$/g, "")`. */
  function StripEquals(s: string): string {
    if s != "" && s[|s| - 1] == '=' then StripEquals(s[..|s| - 1]) else s
  }

  function Encode(bytes: seq<Byte>): string {
    StripEquals(ReplaceAll(ReplaceAll(Btoa(bytes), '+', '-'), '/', '_'))
  }

  function Normalized(input: string): string {
    ReplaceAll(ReplaceAll(input, '-', '+'), '_', '/')
  }

  function Decode(input: string): Option<seq<Byte>> {
    var normalized := Normalized(input);
    var padding := if |normalized| % 4 == 0 then "" else seq(4 - |normalized| % 4, _ => '=');
    Atob(normalized + padding)
  }

  /** encodeBase64Url: the loop makes a binary string of the bytes. */
  method EncodeBase64Url(bytes: array<Byte>) returns (text: string)
    ensures text == Encode(bytes[..])
  {
    var binary: seq<Byte> := [];
    for index := 0 to bytes.Length
      invariant binary == bytes[..index]
    {
      binary := binary + [bytes[index]];
    }
    assert bytes[..bytes.Length] == bytes[..];
    text := StripEquals(ReplaceAll(ReplaceAll(Btoa(binary), '+', '-'), '/', '_'));
  }

  /** decodeBase64UrlBytes: the loop copies the decoded binary string into a byte array. */
  method DecodeBase64UrlBytes(input: string) returns (r: Option<array<Byte>>)
    ensures r.None? <==> Decode(input).None?
    ensures r.Some? ==> fresh(r.value) && r.value[..] == Decode(input).value
  {
    hide Value, Atob;
    var normalized := ReplaceAll(ReplaceAll(input, '-', '+'), '_', '/');
    var padding := if |normalized| % 4 == 0 then "" else seq(4 - |normalized| % 4, _ => '=');
    var decoded := Atob(normalized + padding);
    if decoded.None? {
      return None;
    }
    var binary := decoded.value;
    hide Decode;
    var bytes := new Byte[|binary|];
    for index := 0 to |binary|
      invariant forall i | 0 <= i < index :: bytes[i] == binary[i]
    {
      bytes[index] := binary[index];
    }
    assert bytes[..] == binary;
    return Some(bytes);
  }

  // ---------------------------------------------------------------- round trip

  predicate AllSymbols(s: string) {
    forall i | 0 <= i < |s| :: Value(s[i]).Some?
  }

  function UrlSymbols(s: string): (r: string)
    ensures |r| == |s| && forall i | 0 <= i < |s| :: r[i] == if s[i] == '+' then '-' else if s[i] == '/' then '_'
            else s[i]
  {
    ReplaceAll(ReplaceAll(s, '+', '-'), '/', '_')
  }

  lemma {:induction false} StripEqualsOf(s: string, n: nat)
    requires forall i | 0 <= i < |s| :: s[i] != '='
    ensures StripEquals(s + seq(n, _ => '=')) == s
  {
    var t := s + seq(n, _ => '=');
    if n == 0 {
      assert t == s;
    } else {
      assert t[..|t| - 1] == s + seq(n - 1, _ => '=');
      StripEqualsOf(s, n - 1);
    }
  }

  function PadLength(n: nat): nat {
    if n % 3 == 1 then 2 else if n % 3 == 2 then 1 else 0
  }

  /** The encoding is the unpadded symbols with the two URL-safe replacements. */
  lemma EncodeIsUrlSymbols(bytes: seq<Byte>)
    ensures Encode(bytes) == UrlSymbols(Symbols(bytes))
  {
    var core, n := Symbols(bytes), PadLength(|bytes|);
    assert Btoa(bytes) == core + seq(n, _ => '=');
    assert UrlSymbols(Btoa(bytes)) == UrlSymbols(core) + seq(n, _ => '=');
    forall i | 0 <= i < |core| ensures UrlSymbols(core)[i] != '=' {
      assert Value(core[i]).Some?;
    }
    StripEqualsOf(UrlSymbols(core), n);
  }

  lemma PaddingFitsLength(n: nat)
    ensures var m := (4 * n + 2) / 3;
            m % 4 != 1 && PadLength(n) == (if m % 4 == 0 then 0 else 4 - m % 4) && (m + PadLength(n)) % 4 == 0
  {
    var k := n / 3;
    assert n == 3 * k + n % 3;
    assert (4 * n + 2) / 3 == 4 * k + if n % 3 == 0 then 0 else if n % 3 == 1 then 2 else 3;
  }

  lemma NormalizedUndoesUrlSymbols(core: string)
    requires AllSymbols(core)
    ensures Normalized(UrlSymbols(core)) == core
  {
    var back := Normalized(UrlSymbols(core));
    forall i | 0 <= i < |core| ensures back[i] == core[i] {
      assert Value(core[i]).Some?;
    }
  }

  /** Decoding an encoding hands `atob` exactly what `btoa` made. */
  lemma DecodeUndoesReplacement(bytes: seq<Byte>)
    ensures Decode(Encode(bytes)) == Atob(Btoa(bytes))
  {
    EncodeIsUrlSymbols(bytes);
    PaddingFitsLength(|bytes|);
    var core := Symbols(bytes);
    NormalizedUndoesUrlSymbols(core);
    hide Value, Symbols, Atob, Encode, UrlSymbols, AllSymbols;
    assert Btoa(bytes) == core + seq(PadLength(|bytes|), _ => '=');
    assert PadLength(|bytes|) == 0 ==> Btoa(bytes) == core + "";
  }

  lemma {:induction false} NoWhitespaceToRemove(s: string)
    requires forall i | 0 <= i < |s| :: !IsAsciiWhitespace(s[i])
    ensures WithoutWhitespace(s) == s
  {
    if s != "" {
      NoWhitespaceToRemove(s[1..]);
      assert s == [s[0]] + s[1..];
    }
  }

  lemma PaddedLoses(s: string, k: nat)
    requires k < 4 && (|s| + k) % 4 == 0 && forall i | 0 <= i < |s| :: s[i] != '='
    ensures var t := WithoutPadding(s + seq(k, _ => '='));
            if k <= 2 then t == s else t == s + "=" && Value(t[|s|]).None?
  {
    var padded := s + seq(k, _ => '=');
    if k == 1 {
      assert padded[..|padded| - 1] == s;
    } else if k == 2 {
      assert padded[..|padded| - 2] == s;
    } else if k == 3 {
      assert padded[..|padded| - 2] == s + "=";
    }
  }

  lemma PaddingComesOff(bytes: seq<Byte>)
    ensures WithoutPadding(WithoutWhitespace(Btoa(bytes))) == Symbols(bytes)
  {
    var core, k := Symbols(bytes), PadLength(|bytes|);
    assert Btoa(bytes) == core + seq(k, _ => '=');
    forall i | 0 <= i < |core| ensures core[i] != '=' && !IsAsciiWhitespace(core[i]) {
      assert Value(core[i]).Some?;
    }
    NoWhitespaceToRemove(Btoa(bytes));
    PaddingFitsLength(|bytes|);
    hide Value, Symbols, Btoa, WithoutWhitespace, WithoutPadding;
    PaddedLoses(core, k);
  }

  lemma OneByteDecodes(a: Byte)
    ensures BytesOf([Symbol(a / 4), Symbol(a % 4 * 16)]) == [a]
  {
    ValueOfSymbol(a / 4);
    ValueOfSymbol(a % 4 * 16);
    hide Value, Symbol;
  }

  lemma TwoBytesDecode(a: Byte, b: Byte)
    ensures BytesOf([Symbol(a / 4), Symbol(a % 4 * 16 + b / 16), Symbol(b % 16 * 4)]) == [a, b]
  {
    ValueOfSymbol(a / 4);
    ValueOfSymbol(a % 4 * 16 + b / 16);
    ValueOfSymbol(b % 16 * 4);
    hide Value, Symbol;
  }

  lemma GroupArithmetic(a: Byte, b: Byte, c: Byte)
    ensures a / 4 * 4 + (a % 4 * 16 + b / 16) / 16 == a
    ensures (a % 4 * 16 + b / 16) % 16 * 16 + (b % 16 * 4 + c / 64) / 4 == b
    ensures (b % 16 * 4 + c / 64) % 4 * 64 + c % 64 == c
  {
  }

  lemma GroupDecodes(bytes: seq<Byte>)
    requires |bytes| >= 3 && |Symbols(bytes[3..])| % 4 != 1 && |Symbols(bytes)| % 4 != 1
    ensures BytesOf(Symbols(bytes)) == bytes[..3] + BytesOf(Symbols(bytes[3..]))
  {
    var a, b, c := bytes[0], bytes[1], bytes[2];
    ValueOfSymbol(a / 4);
    ValueOfSymbol(a % 4 * 16 + b / 16);
    ValueOfSymbol(b % 16 * 4 + c / 64);
    ValueOfSymbol(c % 64);
    var s := Symbols(bytes);
    hide Value, Symbol;
    assert s[4..] == Symbols(bytes[3..]);
    GroupArithmetic(a, b, c);
    assert BytesOf(s) == [a] + [b] + [c] + BytesOf(s[4..]);
    assert bytes[..3] == [a] + [b] + [c];
  }

  lemma {:induction false} BytesOfSymbols(bytes: seq<Byte>)
    ensures |Symbols(bytes)| % 4 != 1 && BytesOf(Symbols(bytes)) == bytes
  {
    hide Value, Symbol;
    PaddingFitsLength(|bytes|);
    if bytes == [] {
    } else if |bytes| == 1 {
      OneByteDecodes(bytes[0]);
    } else if |bytes| == 2 {
      TwoBytesDecode(bytes[0], bytes[1]);
    } else {
      hide Symbols, BytesOf;
      BytesOfSymbols(bytes[3..]);
      GroupDecodes(bytes);
    }
  }

  /** For every byte sequence, decoding its encoding gives it back. */
  lemma DecodeUndoesEncode(bytes: seq<Byte>)
    ensures Decode(Encode(bytes)) == Some(bytes)
  {
    DecodeUndoesReplacement(bytes);
    PaddingComesOff(bytes);
    BytesOfSymbols(bytes);
  }

  /** So different byte sequences have different encodings. */
  lemma EncodeIsInjective(a: seq<Byte>, b: seq<Byte>)
    requires Encode(a) == Encode(b)
    ensures a == b
  {
    DecodeUndoesEncode(a);
    DecodeUndoesEncode(b);
  }

  /** The encoding uses the URL-safe alphabet only, has ceil(4n/3) symbols, and so never 1 mod 4. */
  lemma EncodingShape(bytes: seq<Byte>)
    ensures forall i | 0 <= i < |Encode(bytes)| :: IsUrlSymbol(Encode(bytes)[i])
    ensures |Encode(bytes)| == (4 * |bytes| + 2) / 3
    ensures |Encode(bytes)| % 4 != 1
  {
    EncodeIsUrlSymbols(bytes);
    PaddingFitsLength(|bytes|);
    var core := Symbols(bytes);
    forall i | 0 <= i < |core| ensures IsUrlSymbol(UrlSymbols(core)[i]) {
      assert Value(core[i]).Some?;
    }
  }

  predicate EitherAlphabet(s: string) {
    forall i | 0 <= i < |s| :: IsUrlSymbol(s[i]) || s[i] == '+' || s[i] == '/'
  }

  lemma NormalizedSymbols(input: string)
    ensures AllSymbols(Normalized(input)) <==> EitherAlphabet(input)
  {
    var normalized := Normalized(input);
    forall i | 0 <= i < |input|
      ensures Value(normalized[i]).Some? <==> IsUrlSymbol(input[i]) || input[i] == '+' || input[i] == '/' {}
  }

  lemma AtobAccepts(s: string, t: string)
    requires t == WithoutPadding(WithoutWhitespace(s))
    ensures Atob(s) == if |t| % 4 != 1 && AllSymbols(t) then Some(BytesOf(t)) else None
  {
    hide Value, WithoutPadding, WithoutWhitespace, BytesOf;
  }

  function PadTo4(n: nat): nat {
    if n % 4 == 0 then 0 else 4 - n % 4
  }

  lemma DecodePads(input: string)
    ensures Decode(input) == Atob(Normalized(input) + seq(PadTo4(|input|), _ => '='))
  {
    hide Atob, Value;
    assert Normalized(input) + "" == Normalized(input) + seq(0, _ => '=');
  }
}
