/** Known answers of the generator, and what the texts drawn from it look like. */
module RandomAnchors {
  import opened Sequences
  import opened Text
  import opened SeededRandom

  // ----- Draws

  /** The first two draws of seed 0, in parts of 2^32. */
  lemma FirstDraws()
    ensures Nth(0, 1) == WordValue(0x6d2b79f5) == 1144304738.0 / 4294967296.0
    ensures Nth(0, 2) == WordValue(0xda56f3ea) == 1416247.0 / 4294967296.0
  {
    hide WordValue;
    FirstWord();
    SecondWord();
    assert 2 * INCREMENT == 0xda56f3ea;
  }

  lemma FirstWord()
    ensures WordValue(0x6d2b79f5) == 1144304738.0 / 4294967296.0
  {
    hide Mix;
    MixOfFirst();
  }

  lemma SecondWord()
    ensures WordValue(0xda56f3ea) == 1416247.0 / 4294967296.0
  {
    hide Mix;
    MixOfSecond();
  }

  lemma MixOfFirst()
    ensures Mix(0x6d2b79f5) == 1144304738
  {
  }

  lemma MixOfSecond()
    ensures Mix(0xda56f3ea) == 1416247
  {
  }

  /** Scaling picks the interval of width 1/n that the draw lies in. */
  lemma ScaledExactly(draw: real, n: nat, k: nat)
    requires 0.0 <= draw < 1.0 && n > 0
    ensures Scaled(draw, n) == k <==> k as real <= draw * n as real < (k + 1) as real
  {
    ScaledBelow(draw, n);
    var x := draw * n as real;
    assert x.Floor as real <= x < (x.Floor + 1) as real;
  }

  // ----- Characters

  /** The alphabet of tokens: digits and letters but the four that are easily misread, each once. */
  lemma Base58Exactly(c: char)
    ensures c in BASE58 <==> (c in DIGITS || c in CAPITALS || c in SMALL) && c !in "0OIl"
  {
    hide DIGITS, CAPITALS, SMALL;
    DigitListed(c);
    CapitalListed(c);
    SmallListed(c);
    Base58Digits(c);
    Base58Capitals(c);
    Base58Small(c);
  }

  lemma Base58Digits(c: char)
    ensures c in "123456789" <==> '1' <= c <= '9'
  {
    if '1' <= c <= '9' { assert "123456789"[c as int - '1' as int] == c; }
  }

  lemma Base58Capitals(c: char)
    ensures c in "ABCDEFGHJKLMNPQRSTUVWXYZ" <==> 'A' <= c <= 'Z' && c != 'I' && c != 'O'
  {
    var text, at := "ABCDEFGHJKLMNPQRSTUVWXYZ", c as int - 'A' as int;
    if 'A' <= c < 'I' { assert text[at] == c; }
    if 'I' < c < 'O' { assert text[at - 1] == c; }
    if 'O' < c <= 'Z' { assert text[at - 2] == c; }
  }

  lemma Base58Small(c: char)
    ensures c in "abcdefghijkmnopqrstuvwxyz" <==> 'a' <= c <= 'z' && c != 'l'
  {
    var text, at := "abcdefghijkmnopqrstuvwxyz", c as int - 'a' as int;
    if 'a' <= c < 'l' { assert text[at] == c; }
    if 'l' < c <= 'z' { assert text[at - 1] == c; }
  }

  lemma Base58Count()
    ensures |BASE58| == 58
  {
  }

  /** A slug: 17 to 64 digits or letters, none of them easily misread. */
  lemma SlugExactly(s: string)
    ensures IsValidSlug(s)
            <==> && 17 <= |s| <= 64
                 && forall i :: 0 <= i < |s| ==>
                      (s[i] in DIGITS || s[i] in CAPITALS || s[i] in SMALL) && s[i] !in "0OIl"
  {
    hide DIGITS, CAPITALS, SMALL, BASE58;
    forall i | 0 <= i < |s|
      ensures s[i] in BASE58 <==> (s[i] in DIGITS || s[i] in CAPITALS || s[i] in SMALL) && s[i] !in "0OIl"
    {
      Base58Exactly(s[i]);
    }
  }

  lemma HexCharExact(d: nat)
    requires d < 16
    ensures HexChar(d) == "0123456789abcdef"[d]
  {
  }

  // ----- Roast ids

  /** A drawn id is a UUID of version 4 in its standard variant. */
  lemma VersionShown(bytes: seq<nat>)
    requires |bytes| == 16 && Bytes(bytes)
    ensures var id := IdText(VersionFour(bytes)); |id| == 36 && id[14] == '4' && id[19] in "89ab"
  {
    hide IdText;
    var v := VersionFour(bytes);
    IdTextParts(v);
    var s, hex := IdText(v), HexText(v);
    HexAt(v, 6);
    HexAt(v, 8);
    assert s[0..8] + s[9..13] + s[14..18] + s[19..23] + s[24..36] == hex;
    assert hex[12] == s[14..18][0] == s[14];
    assert hex[16] == s[19..23][0] == s[19];
  }

  /** Every byte is printed as its two digits, in place. */
  lemma {:induction false} HexAt(bytes: seq<nat>, i: nat)
    requires Bytes(bytes) && i < |bytes|
    ensures HexText(bytes)[2 * i] == HexChar(bytes[i] / 16) && HexText(bytes)[2 * i + 1] == HexChar(bytes[i] % 16)
  {
    if i > 0 {
      HexAt(bytes[1..], i - 1);
      assert HexText(bytes)[2..] == HexText(bytes[1..]);
    }
  }

  /** Everything else that was drawn is printed as drawn. */
  lemma VersionKeepsRest(bytes: seq<nat>, i: nat)
    requires |bytes| == 16 && Bytes(bytes) && i < 16
    ensures i != 6 && i != 8 ==> VersionFour(bytes)[i] == bytes[i]
    ensures i == 6 ==> VersionFour(bytes)[i] % 16 == bytes[i] % 16
    ensures i == 8 ==> VersionFour(bytes)[i] % 64 == bytes[i] % 64
  {
  }

  function HexOf(c: char): (d: nat)
    requires IsLowerHex(c)
    ensures d < 16 && HexChar(d) == c
  {
    if '0' <= c <= '9' then c as int - '0' as int else c as int - 'a' as int + 10
  }

  lemma HexStep(b: nat, rest: seq<nat>)
    requires b < 256 && Bytes(rest)
    ensures Bytes([b] + rest) && HexText([b] + rest) == [HexChar(b / 16), HexChar(b % 16)] + HexText(rest)
  {
    assert ([b] + rest)[1..] == rest;
  }

  /** Any even number of hexadecimal digits prints some bytes. */
  lemma {:induction false} HexParses(s: string) returns (bytes: seq<nat>)
    requires AllLowerHex(s) && |s| % 2 == 0
    ensures Bytes(bytes) && HexText(bytes) == s
  {
    hide HexText, HexChar, Bytes;
    if s == "" {
      bytes := [];
      NoBytes();
    } else {
      var rest := HexParses(s[2..]);
      var high, low := HexOf(s[0]), HexOf(s[1]);
      HexStep(16 * high + low, rest);
      bytes := [16 * high + low] + rest;
      assert (16 * high + low) / 16 == high && (16 * high + low) % 16 == low;
      assert s == [s[0], s[1]] + s[2..];
    }
  }

  lemma NoBytes()
    ensures Bytes([]) && HexText([]) == ""
  {
  }

  ghost predicate PrintsBytes(s: string) {
    exists bytes: seq<nat> :: |bytes| == 16 && Bytes(bytes) && s == IdText(bytes)
  }

  /** The accepted roast ids are the prints of sixteen bytes. */
  lemma RoastIdExactly(s: string)
    ensures IsCloudRoastId(s) <==> PrintsBytes(s)
  {
    hide IdText, HexText;
    if IsCloudRoastId(s) { RoastIdPrints(s); }
    if PrintsBytes(s) {
      var bytes: seq<nat> :| |bytes| == 16 && Bytes(bytes) && s == IdText(bytes);
      IdTextShape(bytes);
    }
  }

  lemma RoastIdPrints(s: string)
    requires IsCloudRoastId(s)
    ensures PrintsBytes(s)
  {
    hide HexText;
    var a := HexParses(s[0..8]);
    var b := HexParses(s[9..13]);
    var c := HexParses(s[14..18]);
    var d := HexParses(s[19..23]);
    var e := HexParses(s[24..36]);
    var bytes := a + b + c + d + e;
    assert |a| == 4 && |b| == 2 && |c| == 2 && |d| == 2 && |e| == 6;
    assert bytes[0..4] == a && bytes[4..6] == b && bytes[6..8] == c && bytes[8..10] == d && bytes[10..16] == e;
    assert s == s[0..8] + ['-'] + s[9..13] + ['-'] + s[14..18] + ['-'] + s[19..23] + ['-'] + s[24..36];
    assert s == IdText(bytes);
  }
}
