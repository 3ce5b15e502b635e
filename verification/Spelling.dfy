/** The texts that spell a uuid. */
module Spelling {
  import opened Domain

  function HexDigit(d: nat): char
    requires d < 16
  {
    if d < 10 then '0' + d as char else 'a' + (d - 10) as char
  }

  /** The last `count` hexadecimal digits of `n`. */
  function HexDigits(n: nat, count: nat): (s: string)
    ensures |s| == count
    ensures forall c | c in s :: '0' <= c <= '9' || 'a' <= c <= 'f'
  {
    if count == 0 then "" else HexDigits(n / 16, count - 1) + [HexDigit(n % 16)]
  }

  /** Without hyphens, which Go and Postgres both read. */
  function Compact(id: Uuid): string {
    HexDigits(id, 32)
  }

  function Hyphenated(s: string): string
    requires |s| == 32
  {
    s[..8] + "-" + s[8..12] + "-" + s[12..16] + "-" + s[16..20] + "-" + s[20..]
  }

  /** What `id::text` prints. */
  function CanonicalText(id: Uuid): string {
    Hyphenated(Compact(id))
  }

  /** In braces, which both read too. */
  function Braced(id: Uuid): string {
    "{" + CanonicalText(id) + "}"
  }

  function UpperChar(c: char): char {
    if 'a' <= c <= 'f' then 'A' + (c - 'a') else c
  }

  function UpperCase(s: string): string {
    seq(|s|, i requires 0 <= i < |s| => UpperChar(s[i]))
  }

  predicate HasLetter(s: string) {
    exists i :: 0 <= i < |s| && 'a' <= s[i] <= 'f'
  }

  /** The id given by `text`, one of the texts that both parsers read as `id`. */
  function Spell(id: Uuid, text: string): IdText {
    if text == CanonicalText(id) then Canonical(id) else Variant(id, true, text)
  }

  // ---------------------------------------------------------------- texts and ids

  function Pow16(n: nat): nat {
    if n == 0 then 1 else 16 * Pow16(n - 1)
  }

  /** A 128-bit value. */
  predicate IsUuid(id: Uuid) {
    id < Pow16(32)
  }

  /** The text that an `IdText` stands for. */
  function TextOf(t: IdText): string {
    match t
    case Blank => ""
    case Garbage(raw) => raw
    case Canonical(id) => CanonicalText(id)
    case Variant(_, _, text) => text
  }

  /** A value that stands for a text: what is not called canonical is no canonical text. Values
      that are not proper stand for nothing, and what is claimed of them says nothing. */
  ghost predicate Proper(t: IdText) {
    match t
    case Blank => true
    case Garbage(raw) => raw != "" && forall id :: raw != CanonicalText(id)
    case Canonical(id) => IsUuid(id)
    case Variant(id, _, text) => text != "" && IsUuid(id) && forall other :: text != CanonicalText(other)
  }

  lemma HexDigitIsInjective(a: nat, b: nat)
    requires a < 16 && b < 16 && HexDigit(a) == HexDigit(b)
    ensures a == b
  {
  }

  lemma {:induction false} DigitsAreInjective(a: nat, b: nat, count: nat)
    requires a < Pow16(count) && b < Pow16(count) && HexDigits(a, count) == HexDigits(b, count)
    ensures a == b
  {
    if count > 0 {
      var s, t := HexDigits(a, count), HexDigits(b, count);
      assert s[..count - 1] == HexDigits(a / 16, count - 1) && s[count - 1] == HexDigit(a % 16);
      assert t[..count - 1] == HexDigits(b / 16, count - 1) && t[count - 1] == HexDigit(b % 16);
      DigitsAreInjective(a / 16, b / 16, count - 1);
      HexDigitIsInjective(a % 16, b % 16);
    }
  }

  lemma HyphensAreInjective(s: string, t: string)
    requires |s| == |t| == 32 && Hyphenated(s) == Hyphenated(t)
    ensures s == t
  {
    var h, k := Hyphenated(s), Hyphenated(t);
    assert h[..8] == s[..8] && h[9..13] == s[8..12] && h[14..18] == s[12..16];
    assert k[..8] == t[..8] && k[9..13] == t[8..12] && k[14..18] == t[12..16];
    assert h[19..23] == s[16..20] && h[24..] == s[20..] && k[19..23] == t[16..20] && k[24..] == t[20..];
    assert s == s[..8] + s[8..12] + s[12..16] + s[16..20] + s[20..];
    assert t == t[..8] + t[8..12] + t[12..16] + t[16..20] + t[20..];
  }

  lemma CanonicalLength(id: Uuid)
    ensures |CanonicalText(id)| == 36
  {
  }

  /** Comparing the texts of ids, as the Go code does, is comparing the values that stand for them
      here, when one is a text that the database prints. */
  lemma ComparingTextsIsComparing(t: IdText, id: Uuid)
    requires Proper(t) && IsUuid(id)
    ensures TextOf(t) == CanonicalText(id) <==> t == Canonical(id)
  {
    hide HexDigits, Hyphenated, Pow16;
    assert |CanonicalText(id)| == 36 by { CanonicalLength(id); }
    if t.Canonical? && CanonicalText(t.id) == CanonicalText(id) {
      HyphensAreInjective(Compact(t.id), Compact(id));
      DigitsAreInjective(t.id, id, 32);
    }
  }

  /** The spellings used here are proper ones. */
  lemma SpellIsProper(id: Uuid, text: string)
    requires IsUuid(id) && (text == Compact(id) || text == Braced(id) || text == CanonicalText(id))
    ensures Proper(Spell(id, text)) && TextOf(Spell(id, text)) == text
  {
    hide HexDigits, Hyphenated, Pow16;
    CanonicalLength(id);
    assert |Compact(id)| == 32;
    forall other ensures text != CanonicalText(id) ==> text != CanonicalText(other) {
      CanonicalLength(other);
    }
  }

  // ---------------------------------------------------------------- other spellings

  lemma CompactIsNotCanonical(id: Uuid)
    ensures Compact(id) != CanonicalText(id) && Braced(id) != CanonicalText(id)
  {
    hide HexDigits;
    assert |Compact(id)| == 32 && |CanonicalText(id)| == 36 && |Braced(id)| == 38;
  }

  /** An upper-case text is another text exactly if the id has a hexadecimal letter. */
  lemma UpperCaseDiffersIffLetter(id: Uuid)
    ensures UpperCase(CanonicalText(id)) != CanonicalText(id) <==> HasLetter(CanonicalText(id))
  {
    hide CanonicalText;
    var s := CanonicalText(id);
    forall i | 0 <= i < |s| ensures UpperCase(s)[i] != s[i] <==> 'a' <= s[i] <= 'f' {
    }
  }

  lemma {:induction false} LeadingZeros(count: nat)
    ensures HexDigits(0, count) == seq(count, _ => '0')
  {
    if count > 0 { LeadingZeros(count - 1); }
  }

  lemma SeededDigits()
    ensures Compact(0x1001) == seq(28, _ => '0') + "1001"
  {
    LeadingZeros(28);
    assert HexDigits(0x1, 29) == HexDigits(0, 28) + "1";
    assert HexDigits(0x10, 30) == HexDigits(0x1, 29) + "0";
    assert HexDigits(0x100, 31) == HexDigits(0x10, 30) + "0";
    assert HexDigits(0x1001, 32) == HexDigits(0x100, 31) + "1";
    hide HexDigits;
  }

  lemma HyphensAreNoLetters(s: string)
    requires |s| == 32 && HasLetter(Hyphenated(s))
    ensures HasLetter(s)
  {
    var t := Hyphenated(s);
    var i :| 0 <= i < |t| && 'a' <= t[i] <= 'f';
    var k := if i < 8 then i else if i < 13 then i - 1 else if i < 18 then i - 2 else if i < 23 then i - 3 else i - 4;
    assert s[k] == t[i];
  }

  /** The right choice of the first seeded question, like every seeded id, has no letter in it. */
  lemma SeededHasNoLetter()
    ensures !HasLetter(CanonicalText(0x1001))
  {
    SeededDigits();
    var s := Compact(0x1001);
    hide HexDigits, Compact, Hyphenated;
    if HasLetter(Hyphenated(s)) {
      HyphensAreNoLetters(s);
    }
  }
}
