/** Which texts `decodeBase64UrlBytes` accepts: `atob` forgives whitespace and missing padding. */
module Base64Forgiving {
  import opened Domain
  import opened Base64Url
  import opened Base64Bits

  /** The text without whitespace and without the `=` at its end. */
  function Core(input: string): string {
    StripEquals(WithoutWhitespace(input))
  }

  /** How many `=` follow the core when `atob` gets the text: its own, and those appended to fill
      up its raw length, whitespace included. */
  function EqualsSigns(input: string): int {
    |WithoutWhitespace(input)| - |Core(input)| + PadTo4(|input|)
  }

  /** `core` symbols and `e` times `=`: none, or the one or two that fill up a multiple of four. */
  predicate WellPadded(core: int, e: int) {
    core % 4 != 1 && (e == 0 || (e <= 2 && (core + e) % 4 == 0))
  }

  predicate Unpadded(t: string) {
    |t| % 4 != 1 && AllSymbols(t)
  }

  lemma UnpaddedMeans(t: string)
    requires Unpadded(t)
    ensures |t| % 4 != 1 && AllSymbols(t)
  {
  }

  lemma {:induction false} WithoutWhitespaceOf(a: string, b: string)
    ensures WithoutWhitespace(a + b) == WithoutWhitespace(a) + WithoutWhitespace(b)
  {
    if a == "" {
      assert a + b == b;
    } else {
      assert (a + b)[1..] == a[1..] + b;
      WithoutWhitespaceOf(a[1..], b);
    }
  }

  lemma NormalizedAt(s: string, i: nat)
    requires i < |s|
    ensures Normalized(s)[i] == if s[i] == '-' then '+' else if s[i] == '_' then '/' else s[i]
  {
  }

  lemma NormalizedOf(a: string, b: string)
    ensures Normalized(a + b) == Normalized(a) + Normalized(b)
  {
  }

  lemma NormalizedNothing()
    ensures Normalized("") == ""
    ensures forall c :: Normalized([c]) == [if c == '-' then '+' else if c == '_' then '/' else c]
  {
  }

  lemma {:induction false} NormalizedUnspaced(s: string)
    ensures WithoutWhitespace(Normalized(s)) == Normalized(WithoutWhitespace(s))
  {
    if s != "" {
      NormalizedUnspaced(s[1..]);
      NormalizedOf([s[0]], s[1..]);
      NormalizedOf(if IsAsciiWhitespace(s[0]) then "" else [s[0]], WithoutWhitespace(s[1..]));
      NormalizedAt(s, 0);
      NormalizedAt([s[0]], 0);
      hide Normalized;
      assert s == [s[0]] + s[1..];
      assert Normalized(s)[1..] == Normalized(s[1..]);
      NormalizedNothing();
    }
  }

  lemma {:induction false} StripSplits(s: string)
    ensures var r := StripEquals(s); r <= s && s == r + seq(|s| - |r|, _ => '=') && (r != "" ==> r[|r| - 1] != '=')
  {
    if s != "" && s[|s| - 1] == '=' {
      StripSplits(s[..|s| - 1]);
    }
  }

  lemma NormalizedSplits(w: string)
    ensures var r := StripEquals(w);
            |r| <= |w| && Normalized(w) == Normalized(r) + seq(|w| - |r|, _ => '=')
  {
    StripSplits(w);
    var r, rest := StripEquals(w), seq(|w| - |StripEquals(w)|, _ => '=');
    NormalizedOf(r, rest);
    assert Normalized(rest) == rest;
    hide Normalized, StripEquals;
  }

  lemma EqualsJoin(s: string, j: nat, k: nat)
    ensures s + seq(j, _ => '=') + seq(k, _ => '=') == s + seq(j + k, _ => '=')
  {
  }

  /** Without whitespace, `atob` gets the normalized core and its `=`. */
  lemma UnspacedInput(input: string)
    ensures 0 <= EqualsSigns(input)
    ensures WithoutWhitespace(Normalized(input) + seq(PadTo4(|input|), _ => '='))
         == Normalized(Core(input)) + seq(EqualsSigns(input), _ => '=')
  {
    var k, w := PadTo4(|input|), WithoutWhitespace(input);
    WithoutWhitespaceOf(Normalized(input), seq(k, _ => '='));
    NoWhitespaceToRemove(seq(k, _ => '='));
    NormalizedUnspaced(input);
    hide WithoutWhitespace, StripEquals, Normalized, PadTo4;
    NormalizedSplits(w);
    EqualsJoin(Normalized(Core(input)), |w| - |Core(input)|, k);
  }

  lemma DecodesCore(input: string)
    ensures 0 <= EqualsSigns(input)
    ensures var t := WithoutPadding(Normalized(Core(input)) + seq(EqualsSigns(input), _ => '='));
            Decode(input) == if Unpadded(t) then Some(BytesOf(t)) else None
  {
    UnspacedInput(input);
    DecodePads(input);
    var s := Normalized(input) + seq(PadTo4(|input|), _ => '=');
    hide Atob, Decode, WithoutPadding, WithoutWhitespace, Core, EqualsSigns, Normalized, AllSymbols, PadTo4;
    AtobAccepts(s, WithoutPadding(WithoutWhitespace(s)));
  }

  lemma SymbolsWithEquals(core: string, left: nat)
    ensures AllSymbols(core + seq(left, _ => '=')) <==> AllSymbols(core) && left == 0
  {
    var s := core + seq(left, _ => '=');
    if left > 0 {
      assert s[|core|] == '=';
    } else {
      assert s == core;
    }
  }

  /** How many of `e` times `=` after `core` other symbols are no padding. */
  function LeftOver(core: nat, e: nat): nat {
    if e > 0 && (core + e) % 4 == 0 then if e >= 2 then e - 2 else 0 else e
  }

  lemma EqualsLeft(core: string, e: nat)
    requires core != "" ==> core[|core| - 1] != '='
    ensures WithoutPadding(core + seq(e, _ => '=')) == core + seq(LeftOver(|core|, e), _ => '=')
  {
    var s := core + seq(e, _ => '=');
    if e >= 2 {
      assert s[|s| - 1] == '=' && s[|s| - 2] == '=';
      assert s[..|s| - 2] == core + seq(e - 2, _ => '=');
    } else if e == 1 {
      assert s[|s| - 1] == '=' && s[..|s| - 1] == core + seq(0, _ => '=');
    } else {
      assert s == core;
    }
  }

  lemma PaddingLeft(core: string, e: nat)
    requires core != "" ==> core[|core| - 1] != '='
    ensures var t := WithoutPadding(core + seq(e, _ => '='));
            && (Unpadded(t) <==> AllSymbols(core) && WellPadded(|core|, e))
            && (Unpadded(t) ==> t == core)
  {
    EqualsLeft(core, e);
    hide WithoutPadding, AllSymbols;
    SymbolsWithEquals(core, LeftOver(|core|, e));
  }

  lemma NormalizedCore(core: string)
    requires core != "" ==> core[|core| - 1] != '='
    ensures |Normalized(core)| == |core| && (core != "" ==> Normalized(core)[|core| - 1] != '=')
    ensures AllSymbols(Normalized(core)) <==> EitherAlphabet(core)
  {
    NormalizedSymbols(core);
    if core != "" {
      NormalizedAt(core, |core| - 1);
    }
  }

  /** Exactly when a text decodes: its core consists of symbols of either alphabet, has a length
      other than 1 mod 4, and is followed by no `=` at all or by the one or two that fill it up to
      a multiple of four. */
  lemma DecodesIff(input: string)
    ensures var core, e := Core(input), EqualsSigns(input);
            Decode(input).Some? <==> EitherAlphabet(core) && WellPadded(|core|, e)
  {
    StripSplits(WithoutWhitespace(input));
    var core := Core(input);
    assert core != "" ==> core[|core| - 1] != '=';
    hide Decode, Core, Normalized, WithoutPadding, WithoutWhitespace, StripEquals, AllSymbols, EitherAlphabet;
    hide EqualsSigns, WellPadded, Unpadded;
    DecodesCore(input);
    NormalizedCore(core);
    PaddingLeft(Normalized(core), EqualsSigns(input));
  }

  /** And what it decodes to: byte by byte the bits of its core, with padding or without. */
  lemma DecodesTo(input: string, i: nat)
    requires Decode(input).Some?
    ensures var symbols, bytes := Normalized(Core(input)), Decode(input).value;
            && |bytes| == 3 * |Core(input)| / 4
            && (i < |bytes| ==> bytes[i] == Octet(BitsOfSymbols(symbols, i / 3 * 4), i % 3))
  {
    StripSplits(WithoutWhitespace(input));
    var core := Core(input);
    assert core != "" ==> core[|core| - 1] != '=';
    hide Decode, Core, Normalized, WithoutPadding, WithoutWhitespace, StripEquals, AllSymbols, EitherAlphabet;
    hide EqualsSigns, WellPadded, Unpadded, BitsOfSymbols, Octet;
    DecodesCore(input);
    NormalizedCore(core);
    PaddingLeft(Normalized(core), EqualsSigns(input));
    assert Unpadded(Normalized(core));
    UnpaddedMeans(Normalized(core));
    DecodedByte(Normalized(core), i);
  }
}
