// src/lib/recoveryCrypto.ts: recovery codes in Crockford's base 32.
module Crockford {
  import opened Wrappers
  import opened Text
  import opened Bits

  type byte = x: int | 0 <= x < 256

  const CROCKFORD := "0123456789ABCDEFGHJKMNPQRSTVWXYZ"
  const CODE_BYTES := 20
  const CODE_CHARS := 32
  const MAX_CODE_INPUT_LENGTH := 64

  predicate CodeChar(c: char) {
    '0' <= c <= '9' || 'A' <= c <= 'H' || 'J' <= c <= 'K' || 'M' <= c <= 'N' || 'P' <= c <= 'T' || 'V' <= c <= 'Z'
  }

  /** The digits 0 to 31 in order, skipping I, L, O and U. */
  function CharOf(d: int): char
    requires 0 <= d < 32
  {
    if d < 10 then '0' + d as char
    else if d < 18 then 'A' + (d - 10) as char
    else if d < 20 then 'J' + (d - 18) as char
    else if d < 22 then 'M' + (d - 20) as char
    else if d < 27 then 'P' + (d - 22) as char
    else 'V' + (d - 27) as char
  }

  function DigitOf(c: char): (d: int)
    requires CodeChar(c)
    ensures 0 <= d < 32 && CharOf(d) == c
  {
    if c <= '9' then c as int - '0' as int
    else if c <= 'H' then c as int - 'A' as int + 10
    else if c <= 'K' then c as int - 'J' as int + 18
    else if c <= 'N' then c as int - 'M' as int + 20
    else if c <= 'T' then c as int - 'P' as int + 22
    else c as int - 'V' as int + 27
  }

  lemma {:induction false} CharDigit(d: int)
    requires 0 <= d < 32
    ensures CodeChar(CharOf(d)) && DigitOf(CharOf(d)) == d
  {
  }

  lemma {:induction false} Alphabet(d: int)
    requires 0 <= d < 32
    ensures |CROCKFORD| == 32 && CROCKFORD[d] == CharOf(d)
  {
    assert CROCKFORD == "01234567" + "89ABCDEF" + "GHJKMNPQ" + "RSTVWXYZ";
    if d < 8 {
      assert CROCKFORD[d] == "01234567"[d];
    } else if d < 16 {
      assert CROCKFORD[d] == "89ABCDEF"[d - 8];
    } else if d < 24 {
      assert CROCKFORD[d] == "GHJKMNPQ"[d - 16];
    } else {
      assert CROCKFORD[d] == "RSTVWXYZ"[d - 24];
    }
  }

  // ------------------------------------------------------------ what an encoding is

  /** The big-endian number a byte string writes. */
  function Big(bytes: seq<byte>): nat {
    if bytes == [] then 0 else 256 * Big(bytes[..|bytes| - 1]) + bytes[|bytes| - 1]
  }

  /** The number a string of base-32 digits writes. */
  function Big32(s: string): nat
    requires forall i | 0 <= i < |s| :: CodeChar(s[i])
  {
    if s == [] then 0 else 32 * Big32(s[..|s| - 1]) + DigitOf(s[|s| - 1])
  }

  /** The m lowest base-32 digits of a number. */
  function Expansion(v: nat, m: nat): (s: string)
    ensures |s| == m && forall i | 0 <= i < m :: CodeChar(s[i])
  {
    if m == 0 then []
    else
      CharDigit(v % 32);
      Expansion(v / 32, m - 1) + [CharOf(v % 32)]
  }

  function CharCount(n: nat): nat { (8 * n + 4) / 5 }

  /** The unused low bits of the last digit. */
  function Padding(n: nat): nat { 5 * CharCount(n) - 8 * n }

  /** The base-32 expansion of the bytes, zero-padded at the low end. */
  function Encoding(bytes: seq<byte>): (s: string)
    ensures |s| == CharCount(|bytes|) && forall i | 0 <= i < |s| :: CodeChar(s[i])
  {
    Expansion(Shl(Big(bytes), Padding(|bytes|)), CharCount(|bytes|))
  }

  function ToBytes(v: nat, n: nat): (bytes: seq<byte>)
    ensures |bytes| == n
  {
    if n == 0 then [] else ToBytes(v / 256, n - 1) + [v % 256]
  }

  /** A decoder: drop the padding and read the number back in bytes. */
  function Decode(s: string, n: nat): seq<byte>
    requires forall i | 0 <= i < |s| :: CodeChar(s[i])
    requires |s| == CharCount(n)
  {
    ToBytes(Shr(Big32(s), Padding(n)), n)
  }

  lemma {:induction false} Big32Snoc(s: string, c: char)
    requires CodeChar(c) && forall i | 0 <= i < |s| :: CodeChar(s[i])
    ensures Big32(s + [c]) == 32 * Big32(s) + DigitOf(c)
  {
    assert (s + [c])[..|s|] == s;
  }

  lemma {:induction false} BigSnoc(bytes: seq<byte>, b: byte)
    ensures Big(bytes + [b]) == 256 * Big(bytes) + b
  {
    assert (bytes + [b])[..|bytes|] == bytes;
  }

  lemma {:induction false} BigBounded(bytes: seq<byte>)
    ensures Big(bytes) < Pow2(8 * |bytes|)
    decreases |bytes|
  {
    if bytes != [] {
      BigBounded(bytes[..|bytes| - 1]);
      EightUp(0, 8 * (|bytes| - 1));
    }
  }

  lemma {:induction false} NoDigits()
    ensures Expansion(0, 0) == []
  {
  }

  lemma {:induction false} ExpansionSnoc(v: nat, d: nat, m: nat)
    requires d < 32
    ensures Expansion(32 * v + d, m + 1) == Expansion(v, m) + [CharOf(d)]
  {
    hide CharOf;
    assert (32 * v + d) % 32 == d && (32 * v + d) / 32 == v;
  }

  /** Digits and number determine each other. */
  lemma {:induction false} ExpansionOfValue(s: string)
    requires forall i | 0 <= i < |s| :: CodeChar(s[i])
    ensures Expansion(Big32(s), |s|) == s
    decreases |s|
  {
    hide Expansion, DigitOf, CharOf, CodeChar;
    if s == [] {
      NoDigits();
    } else {
      var front, c := s[..|s| - 1], s[|s| - 1];
      ExpansionOfValue(front);
      ExpansionSnoc(Big32(front), DigitOf(c), |front|);
      assert s == front + [c];
    }
  }

  lemma {:induction false} ValueOfExpansion(v: nat, m: nat)
    requires v < Pow2(5 * m)
    ensures Big32(Expansion(v, m)) == v
    decreases m
  {
    if m > 0 {
      FiveUp(0, 5 * (m - 1));
      ValueOfExpansion(v / 32, m - 1);
      CharDigit(v % 32);
      Big32Snoc(Expansion(v / 32, m - 1), CharOf(v % 32));
    }
  }

  lemma {:induction false} BytesOfBig(bytes: seq<byte>)
    ensures ToBytes(Big(bytes), |bytes|) == bytes
    decreases |bytes|
  {
    if bytes != [] {
      BytesOfBig(bytes[..|bytes| - 1]);
    }
  }

  /** Decoding an encoding gives the bytes back, for every length. */
  lemma {:induction false} RoundTrip(bytes: seq<byte>)
    ensures Decode(Encoding(bytes), |bytes|) == bytes
  {
    var n, p := |bytes|, Padding(|bytes|);
    BigBounded(bytes);
    ShlBound(Big(bytes), 8 * n, p);
    assert 8 * n + p == 5 * CharCount(n);
    ValueOfExpansion(Shl(Big(bytes), p), CharCount(n));
    ShrUndoesShl(Big(bytes), p);
    BytesOfBig(bytes);
  }

  // ---------------------------------------------------------------- the encoder

  /** The digits out so far, then the bits still held, write the bytes taken in. */
  ghost predicate Emitted(out: string, bits: nat, rest: nat, bytes: seq<byte>) {
    && (forall i | 0 <= i < |out| :: CodeChar(out[i]))
    && 5 * |out| + bits == 8 * |bytes|
    && Shl(Big32(out), bits) + rest == Big(bytes)
  }

  lemma {:induction false} LowFive(v: nat)
    ensures And(v, 31) == Low(v, 5) < 32
  {
    FiveUp(0, 0);
    MaskIsLow(v, 5);
  }

  /** One digit leaves the accumulator. */
  lemma {:induction false} EmitDigit(out: string, bits: nat, value: nat, bytes: seq<byte>)
    requires bits >= 5 && Emitted(out, bits, Low(value, bits), bytes)
    ensures var d := And(Shr(value, bits - 5), 31);
            d < 32 && Emitted(out + [CharOf(d)], bits - 5, Low(value, bits - 5), bytes)
  {
    hide And, Shl, Shr, Low, Pow2, CharOf, DigitOf, Big, Big32;
    var k, h := bits - 5, Big32(out);
    var d := And(Shr(value, k), 31);
    LowFive(Shr(value, k));
    FiveBits(value, k);
    FiveUp(h, k);
    ShlShl(h, 5, k);
    ShlSum(32 * h, d, k);
    CharDigit(d);
    Big32Snoc(out, CharOf(d));
  }

  /** One byte enters the accumulator. */
  lemma {:induction false} AddByte(out: string, bits: nat, value: nat, bytes: seq<byte>, b: byte)
    requires bits < 5 && value < Pow2(bits) && Emitted(out, bits, value, bytes)
    ensures var v := Or(Shl(value, 8), b);
            && v == 256 * value + b < Pow2(bits + 8) <= Pow2(12)
            && Emitted(out, bits + 8, Low(v, bits + 8), bytes + [b])
  {
    hide Or, Shl, Low, Pow2, Big, Big32;
    ByteUp(value);
    OrIsAdd(value, 8, b);
    EightUp(Big32(out), bits);
    EightUp(0, bits);
    LowOfSmall(256 * value + b, bits + 8);
    BigSnoc(bytes, b);
    TwelveBits(bits);
  }

  lemma {:induction false} TwelveBits(bits: nat)
    requires bits < 5
    ensures Pow2(bits + 8) <= Pow2(12)
  {
    EightUp(0, bits);
    EightUp(0, 4);
    assert Pow2(1) == 2 && Pow2(2) == 4 && Pow2(3) == 8 && Pow2(4) == 16;
  }

  lemma {:induction false} Finished(out: string, bytes: seq<byte>, p: nat)
    requires p < 5 && 5 * |out| == 8 * |bytes| + p
    requires forall i | 0 <= i < |out| :: CodeChar(out[i])
    requires Big32(out) == Shl(Big(bytes), p)
    ensures out == Encoding(bytes)
  {
    assert |out| == CharCount(|bytes|) && p == Padding(|bytes|);
    ExpansionOfValue(out);
  }

  lemma {:induction false} NothingEmitted()
    ensures Emitted("", 0, 0, []) && Pow2(0) == 1
  {
  }

  lemma {:induction false} AllEmitted(out: string, bytes: seq<byte>)
    requires Emitted(out, 0, 0, bytes)
    ensures out == Encoding(bytes)
  {
    Finished(out, bytes, 0);
  }

  /** The last, partly filled digit. */
  lemma {:induction false} LastDigit(out: string, bits: nat, value: nat, bytes: seq<byte>)
    requires 0 < bits < 5 && value < Pow2(bits) && Emitted(out, bits, value, bytes)
    ensures var d := And(Shl(value, 5 - bits), 31);
            d < 32 && out + [CharOf(d)] == Encoding(bytes)
  {
    hide And, Shl, Low, Pow2, CharOf, DigitOf, Big, Big32, Encoding;
    var p, h := 5 - bits, Big32(out);
    var d := Shl(value, p);
    ShlBound(value, bits, p);
    FiveUp(h, 0);
    LowFive(d);
    LowOfSmall(d, 5);
    ShlShl(h, bits, p);
    ShlSum(Shl(h, bits), value, p);
    CharDigit(d);
    Big32Snoc(out, CharOf(d));
    Finished(out + [CharOf(d)], bytes, p);
  }

  /** encodeCrockford emits exactly the base-32 expansion, and its accumulator never exceeds twelve bits. */
  method EncodeCrockford(bytes: seq<byte>) returns (out: string)
    ensures out == Encoding(bytes)
  {
    hide *;
    var value, bits := 0, 0;
    out := "";
    NothingEmitted();
    var i := 0;
    while i < |bytes|
      invariant 0 <= i <= |bytes| && 0 <= bits < 5 && 0 <= value < Pow2(bits)
      invariant Emitted(out, bits, value, bytes[..i])
    {
      ghost var done := bytes[..i + 1];
      assert done == bytes[..i] + [bytes[i]];
      AddByte(out, bits, value, bytes[..i], bytes[i]);
      value := Or(Shl(value, 8), bytes[i]);
      bits := bits + 8;
      while bits >= 5
        invariant 0 <= bits <= 12 && 0 <= value < Pow2(12)
        invariant Emitted(out, bits, Low(value, bits), done)
      {
        var d := And(Shr(value, bits - 5), 31);
        EmitDigit(out, bits, value, done);
        Alphabet(d);
        out := out + [CROCKFORD[d]];
        bits := bits - 5;
      }
      value := Masked(value, bits);
      i := i + 1;
    }
    assert bytes[..i] == bytes;
    if bits > 0 {
      var d := And(Shl(value, 5 - bits), 31);
      LastDigit(out, bits, value, bytes);
      Alphabet(d);
      out := out + [CROCKFORD[d]];
    } else {
      AllEmitted(out, bytes);
    }
  }

  lemma {:induction false} OneShifted(k: nat)
    ensures Shl(1, k) == Pow2(k)
  {
    if k > 0 {
      OneShifted(k - 1);
    }
  }

  /** value & ((1 << bits) - 1): the bits not yet emitted. */
  function Masked(value: nat, bits: nat): (r: nat)
    ensures r == Low(value, bits)
  {
    MaskIsLow(value, bits);
    OneShifted(bits);
    And(value, Shl(1, bits) - 1)
  }

  // --------------------------------------------------------------- the normaliser

  predicate Separator(c: char) { IsSpace(c) || c == '-' }

  /** The look-alikes of 0 and 1. */
  function LookAlike(u: char): char { if u == 'O' then '0' else if u == 'I' || u == 'L' then '1' else u }

  function Folded(u: string): string {
    if u == [] then []
    else Folded(u[..|u| - 1]) + if Separator(u[|u| - 1]) then [] else [LookAlike(u[|u| - 1])]
  }

  /** Upper case, separators removed, look-alikes replaced. */
  function Canonical(s: string): string {
    if s == [] then [] else Canonical(s[..|s| - 1]) + Folded(Upper(s[|s| - 1]))
  }

  predicate Code(s: string) { |s| == CODE_CHARS && forall i | 0 <= i < |s| :: CodeChar(s[i]) }

  function Normalize(input: string): Option<string> {
    if |input| > MAX_CODE_INPUT_LENGTH then None
    else if Code(Canonical(input)) then Some(Canonical(input))
    else None
  }

  /** The code characters that a ligature, or sharp s, is upper-cased and folded to; none for any other character. */
  function Ligature(c: char): string {
    match c
    case '\U{00DF}' => "SS"
    case '\U{FB00}' => "FF"
    case '\U{FB01}' => "F1"
    case '\U{FB02}' => "F1"
    case '\U{FB03}' => "FF1"
    case '\U{FB04}' => "FF1"
    case '\U{FB05}' => "ST"
    case '\U{FB06}' => "ST"
    case _ => ""
  }

  /** A typed character that stands for a code character: either case, O for 0, I or L for 1, dotless i and long s included. */
  predicate StandsFor(typed: char, c: char) {
    || typed == c
    || ('A' <= c <= 'Z' && typed == LowerChar(c))
    || (c == '0' && typed in "Oo")
    || (c == '1' && typed in "IiLl\U{0131}")
    || (c == 'S' && typed == '\U{017F}')
  }

  /** The typed text is the code, spelt in any of those ways, with separators anywhere. */
  predicate Spells(typed: string, code: string) {
    if typed == [] then code == []
    else
      var front, c := typed[..|typed| - 1], typed[|typed| - 1];
      var l := Ligature(c);
      if c == '-' || IsSpace(c) then Spells(front, code)
      else if l != "" then |l| <= |code| && code[|code| - |l|..] == l && Spells(front, code[..|code| - |l|])
      else code != [] && StandsFor(c, code[|code| - 1]) && Spells(front, code[..|code| - 1])
  }

  lemma {:induction false} FoldedSnoc(u: string, c: char)
    ensures Folded(u + [c]) == Folded(u) + if Separator(c) then [] else [LookAlike(c)]
  {
    assert (u + [c])[..|u|] == u;
  }

  lemma {:induction false} FoldedOne(c: char)
    ensures Folded([c]) == if Separator(c) then [] else [LookAlike(c)]
  {
    assert [c] == [] + [c];
    FoldedSnoc([], c);
  }

  /** A ligature is no separator, and any other character has one upper-case character, a separator if it is one. */
  lemma {:induction false} UpperKinds(c: char)
    ensures Ligature(c) != "" ==> !Separator(c)
    ensures Ligature(c) == "" ==> |Upper(c)| == 1 && (Separator(c) <==> Separator(Upper(c)[0]))
  {
  }

  /** What one typed character contributes. */
  lemma {:induction false} FoldedUpper(c: char)
    ensures Separator(c) ==> Folded(Upper(c)) == []
    ensures Ligature(c) != "" ==> !Separator(c) && Folded(Upper(c)) == Ligature(c)
    ensures !Separator(c) && Ligature(c) == "" ==> |Upper(c)| == 1 && Folded(Upper(c)) == [LookAlike(Upper(c)[0])]
  {
    UpperKinds(c);
    hide Folded, Separator, Ligature, Upper, LookAlike;
    if Ligature(c) != "" {
      FoldedLigature(c);
    } else {
      assert Upper(c) == [Upper(c)[0]];
      FoldedOne(Upper(c)[0]);
    }
  }

  /** Letters fold one by one. */
  lemma {:induction false} FoldedLetters(a: char, b: char, c: char)
    requires 'A' <= a <= 'Z' && 'A' <= b <= 'Z' && 'A' <= c <= 'Z'
    ensures Folded([a, b]) == [LookAlike(a), LookAlike(b)]
    ensures Folded([a, b, c]) == [LookAlike(a), LookAlike(b), LookAlike(c)]
  {
    FoldedOne(a);
    FoldedSnoc([a], b);
    FoldedSnoc([a, b], c);
    hide Folded, LookAlike;
    assert [a] + [b] == [a, b];
    assert [a, b] + [c] == [a, b, c];
  }

  lemma {:induction false} FoldedLigature(c: char)
    requires Ligature(c) != ""
    ensures Folded(Upper(c)) == Ligature(c)
  {
    hide Folded;
    FoldedLetters('S', 'S', 'S');
    FoldedLetters('F', 'F', 'I');
    FoldedLetters('F', 'F', 'L');
    FoldedLetters('F', 'I', 'I');
    FoldedLetters('F', 'L', 'L');
    FoldedLetters('S', 'T', 'T');
  }

  lemma {:induction false} FoldStands(typed: char, c: char)
    requires CodeChar(c) && !Separator(typed) && Ligature(typed) == ""
    ensures |Upper(typed)| == 1 && (StandsFor(typed, c) <==> LookAlike(Upper(typed)[0]) == c)
  {
  }

  /** Appending to a text whose end is known. */
  lemma {:induction false} SameEnd(a: string, l: string, code: string)
    ensures a + l == code <==> |l| <= |code| && code[|code| - |l|..] == l && a == code[..|code| - |l|]
  {
    if |l| <= |code| && code[|code| - |l|..] == l && a == code[..|code| - |l|] {
      assert code == code[..|code| - |l|] + code[|code| - |l|..];
    }
  }

  lemma {:induction false} CanonicalSnoc(s: string, c: char)
    ensures Canonical(s + [c]) == Canonical(s) + Folded(Upper(c))
  {
    hide Folded, Upper;
    assert (s + [c])[..|s|] == s;
  }

  lemma {:induction false} NothingSpells(code: string)
    ensures Canonical([]) == code <==> Spells([], code)
  {
  }

  /** The last character contributes a ligature's letters. */
  lemma {:induction false} SpellsLigature(front: string, c: char, code: string)
    requires !Separator(c) && Ligature(c) != ""
    ensures var l := Ligature(c);
            Spells(front + [c], code) <==>
            |l| <= |code| && code[|code| - |l|..] == l && Spells(front, code[..|code| - |l|])
  {
    hide IsSpace, Ligature, StandsFor;
    assert (front + [c])[..|front|] == front;
  }

  lemma {:induction false} SpellsLetter(front: string, c: char, code: string)
    requires !Separator(c) && Ligature(c) == ""
    ensures Spells(front + [c], code) <==>
            code != [] && StandsFor(c, code[|code| - 1]) && Spells(front, code[..|code| - 1])
  {
    hide IsSpace, Ligature, StandsFor;
    assert (front + [c])[..|front|] == front;
  }

  lemma {:induction false} SpellsSeparator(front: string, c: char, code: string)
    requires Separator(c)
    ensures Spells(front + [c], code) <==> Spells(front, code)
  {
    hide IsSpace, Ligature, StandsFor;
    assert (front + [c])[..|front|] == front;
  }

  lemma {:induction false} CanonicalSpells(typed: string, code: string)
    requires forall i | 0 <= i < |code| :: CodeChar(code[i])
    ensures Canonical(typed) == code <==> Spells(typed, code)
    decreases |typed|
  {
    hide Canonical, Spells, Folded, Upper, Separator, Ligature, StandsFor, LookAlike, CodeChar;
    if typed == [] {
      NothingSpells(code);
    } else {
      var front, c := typed[..|typed| - 1], typed[|typed| - 1];
      assert typed == front + [c];
      CanonicalSnoc(front, c);
      FoldedUpper(c);
      SameEnd(Canonical(front), Folded(Upper(c)), code);
      if Separator(c) {
        SpellsSeparator(front, c, code);
        CanonicalSpells(front, code);
        assert Canonical(front) + [] == Canonical(front);
      } else if Ligature(c) != "" {
        SpellsLigature(front, c, code);
        if |Ligature(c)| <= |code| {
          CanonicalSpells(front, code[..|code| - |Ligature(c)|]);
        }
      } else {
        SpellsLetter(front, c, code);
        if code != [] {
          CanonicalSpells(front, code[..|code| - 1]);
          FoldStands(c, code[|code| - 1]);
          assert code[|code| - 1..] == [code[|code| - 1]];
        }
      }
    }
  }

  /** The code characters are those of the alphabet. */
  lemma {:induction false} CodeCharExactly(c: char)
    ensures CodeChar(c) <==> c in "0123456789ABCDEFGHJKMNPQRSTVWXYZ"
  {
    Alphabet(0);
    if CodeChar(c) {
      Alphabet(DigitOf(c));
    } else if c in CROCKFORD {
      var d :| 0 <= d < 32 && CROCKFORD[d] == c;
      Alphabet(d);
      CharDigit(d);
    }
  }

  /** A text of at most 64 characters normalises to a code exactly when it spells it: 32 characters of the alphabet. */
  lemma {:induction false} NormalizeAccepts(typed: string, code: string)
    ensures Normalize(typed) == Some(code) <==>
            && |typed| <= 64 && Spells(typed, code)
            && |code| == 32 && forall i | 0 <= i < |code| :: code[i] in "0123456789ABCDEFGHJKMNPQRSTVWXYZ"
  {
    hide CodeChar, Spells, Canonical;
    forall c: char ensures CodeChar(c) <==> c in "0123456789ABCDEFGHJKMNPQRSTVWXYZ" {
      CodeCharExactly(c);
    }
    if Code(code) {
      CanonicalSpells(typed, code);
    }
  }

  /** raw.match(/.{4}/g).join("-") */
  function Grouped(raw: string): string {
    if |raw| < 4 then [] else if |raw| < 8 then raw[..4] else raw[..4] + "-" + Grouped(raw[4..])
  }

  /** Groups of four characters in order, one dash between two groups; a shorter rest is dropped. */
  lemma {:induction false} GroupedExactly(raw: string, k: nat)
    ensures |Grouped(raw)| == if |raw| < 4 then 0 else |raw| / 4 * 5 - 1
    ensures k < |Grouped(raw)| ==> k - k / 5 < |raw| && Grouped(raw)[k] == if k % 5 == 4 then '-' else raw[k - k / 5]
    decreases |raw|
  {
    if |raw| >= 8 {
      GroupedExactly(raw[4..], if k < 5 then 0 else k - 5);
    }
  }

  lemma {:induction false} CanonicalConcat(a: string, b: string)
    ensures Canonical(a + b) == Canonical(a) + Canonical(b)
    decreases |b|
  {
    hide Folded, Upper;
    if b == [] {
      assert a + b == a;
    } else {
      var front, c := b[..|b| - 1], b[|b| - 1];
      CanonicalConcat(a, front);
      assert a + b == (a + front) + [c] && b == front + [c];
      CanonicalSnoc(a + front, c);
      CanonicalSnoc(front, c);
      hide Canonical;
    }
  }

  lemma {:induction false} FoldedCode(c: char)
    requires CodeChar(c)
    ensures Folded(Upper(c)) == [c]
  {
    FoldedOne(c);
  }

  lemma {:induction false} CanonicalOfCode(s: string)
    requires forall i | 0 <= i < |s| :: CodeChar(s[i])
    ensures Canonical(s) == s
    decreases |s|
  {
    hide Folded, Upper;
    if s != [] {
      CanonicalOfCode(s[..|s| - 1]);
      FoldedCode(s[|s| - 1]);
      assert s == s[..|s| - 1] + [s[|s| - 1]];
    }
  }

  lemma {:induction false} DashVanishes()
    ensures Canonical("-") == []
  {
    assert "-"[..0] == [];
    FoldedOne('-');
  }

  lemma {:induction false} CanonicalOfGroups(raw: string)
    requires |raw| % 4 == 0 && forall i | 0 <= i < |raw| :: CodeChar(raw[i])
    ensures Canonical(Grouped(raw)) == raw
    ensures |Grouped(raw)| <= |raw| + |raw| / 4
    decreases |raw|
  {
    hide Canonical, Folded, Upper;
    if |raw| >= 8 {
      CanonicalOfGroups(raw[4..]);
      CanonicalConcat(raw[..4] + "-", Grouped(raw[4..]));
      CanonicalConcat(raw[..4], "-");
      CanonicalOfCode(raw[..4]);
      DashVanishes();
      assert raw[..4] + "-" + Grouped(raw[4..]) == (raw[..4] + "-") + Grouped(raw[4..]);
      assert raw == raw[..4] + raw[4..];
    } else {
      assert Grouped(raw) == raw;
      CanonicalOfCode(raw);
    }
  }

  /** generateRecoveryCode, given its random bytes. */
  method GenerateRecoveryCode(random: seq<byte>) returns (display: string)
    requires |random| == CODE_BYTES
    ensures Normalize(display) == Some(Encoding(random))
    ensures |display| == 39 && forall k | 0 <= k < 39 :: display[k] == if k % 5 == 4 then '-' else Encoding(random)[k - k / 5]
  {
    var raw := EncodeCrockford(random);
    DisplayNormalizes(random);
    display := Grouped(raw);
    forall k: nat ensures |display| == 39 && (k < 39 ==> display[k] == if k % 5 == 4 then '-' else raw[k - k / 5]) {
      GroupedExactly(raw, k);
    }
  }

  /** The displayed form of 20 bytes normalises back to the raw code, which decodes to those bytes. */
  lemma {:induction false} DisplayNormalizes(random: seq<byte>)
    requires |random| == CODE_BYTES
    ensures Normalize(Grouped(Encoding(random))) == Some(Encoding(random))
    ensures Decode(Encoding(random), CODE_BYTES) == random
  {
    CanonicalOfGroups(Encoding(random));
    RoundTrip(random);
  }
}
