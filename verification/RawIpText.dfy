/** Why generated text can never be mistaken for an IP address. */
module RawIpText {
  import opened Text
  import opened IsoTime
  import opened JsonTrees
  import opened Wrappers

  predicate AddressChar(c: char) {
    '0' <= c <= '9' || 'a' <= c <= 'f' || 'A' <= c <= 'F' || c == '.' || c == ':'
  }

  /** A dot with a decimal digit on each side. */
  predicate DottedAt(s: string, i: nat) {
    0 < i && i + 1 < |s| && s[i] == '.' && IsDigit(s[i - 1]) && IsDigit(s[i + 1])
  }

  /**
   * A colon or a dot between digits somewhere, and nothing but hexadecimal digits, dots and colons before any zone
   * suffix.
   */
  predicate AddressShaped(s: string) {
    && (':' in s || exists i :: 0 <= i < |s| && DottedAt(s, i))
    && forall i :: 0 <= i < |s| && '%' !in s[..i + 1] ==> AddressChar(s[i])
  }

  /** What every IPv4 or IPv6 literal checker respects. */
  ghost predicate RespectsAddressShape(isIP: string -> bool) {
    forall s :: isIP(s) ==> AddressShaped(s)
  }

  /** No colon, and no dot between two digits. */
  predicate Plain(s: string) {
    ':' !in s && forall i :: 0 <= i < |s| ==> !DottedAt(s, i)
  }

  lemma PlainSlice(s: string, low: nat, high: nat)
    requires Plain(s) && low <= high <= |s|
    ensures Plain(s[low..high])
  {
    var part := s[low..high];
    forall i | 0 <= i < |part| ensures part[i] != ':' && !DottedAt(part, i) {
      assert part[i] == s[low + i] && !DottedAt(s, low + i);
    }
  }

  lemma PlainTake(s: string, k: nat)
    requires Plain(s) && k <= |s|
    ensures Plain(s[..k])
  {
    hide Plain;
    PlainSlice(s, 0, k);
    assert s[0..k] == s[..k];
  }

  lemma PlainDrop(s: string, k: nat)
    requires Plain(s) && k <= |s|
    ensures Plain(s[k..])
  {
    hide Plain;
    PlainSlice(s, k, |s|);
    assert s[k..|s|] == s[k..];
  }

  lemma TokenStep(s: string, token: string)
    requires token in Tokens(s)
    ensures var k := FirstDelimiter(s);
            || token == s[..k]
            || (|SkipDelimiters(s[k..])| < |s| && token in Tokens(SkipDelimiters(s[k..])))
  {
    assert s[..|s|] == s;
  }

  lemma {:induction false} PlainTokens(s: string, token: string)
    requires Plain(s) && token in Tokens(s)
    ensures Plain(token)
    decreases |s|
  {
    hide Plain, Tokens, IsDelimiter, SkipDelimiters, FirstDelimiter;
    TokenStep(s, token);
    var k := FirstDelimiter(s);
    PlainTake(s, k);
    if token != s[..k] {
      var rest := SkipDelimiters(s[k..]);
      PlainDrop(s, k);
      PlainDrop(s[k..], |s[k..]| - |rest|);
      PlainTokens(rest, token);
    }
  }

  lemma {:induction false} PlainTrimmed(s: string)
    requires Plain(s)
    ensures Plain(TrimDots(s))
    decreases |s|
  {
    hide Plain;
    if s != "" && s[0] == '.' {
      PlainDrop(s, 1);
      PlainTrimmed(s[1..]);
    } else if s != "" && s[|s| - 1] == '.' {
      PlainTake(s, |s| - 1);
      PlainTrimmed(s[..|s| - 1]);
    }
  }

  /** Text without a colon and without a dot between digits holds no address. */
  lemma PlainTextHasNoIp(s: string, isIP: string -> bool)
    requires RespectsAddressShape(isIP) && Plain(s)
    ensures !ContainsRawIp(s, isIP)
  {
    forall token | token in Tokens(s) ensures !isIP(TrimDots(token)) {
      PlainTokens(s, token);
      PlainTrimmed(token);
    }
  }

  predicate TimestampChar(c: char) {
    IsDigit(c) || c == '-' || c == 'T' || c == ':' || c == '.' || c == 'Z'
  }

  lemma PrintedChars(p: IsoParts)
    requires Shaped(p) && p.zone == Utc
    ensures forall i :: 0 <= i < |Print(p)| ==> TimestampChar(Print(p)[i])
    ensures |Print(p)| >= 20 && Print(p)[4] == '-' && IsDigit(Print(p)[0]) && Print(p)[|Print(p)| - 1] == 'Z'
    ensures '%' !in Print(p)[..5]
  {
    var head := PrintHead(p);
    assert forall i :: 0 <= i < 19 ==> TimestampChar(head[i]);
    assert IsDigit(head[0]) && IsDigit(head[1]) && IsDigit(head[2]) && IsDigit(head[3]) && head[4] == '-';
    var tail := PrintFraction(p.fraction) + "Z";
    assert forall i :: 0 <= i < |tail| ==> TimestampChar(tail[i]);
    assert Print(p) == head + tail;
    assert Print(p)[..5] == [head[0], head[1], head[2], head[3], head[4]];
  }

  lemma {:induction false} NoDelimiterOneToken(s: string)
    requires forall i :: 0 <= i < |s| ==> !IsDelimiter(s[i])
    ensures Tokens(s) == [s]
  {
    assert FirstDelimiter(s) == |s|;
  }

  /** A printed timestamp is one token, and its fifth character rules an address out. */
  lemma TimestampHasNoIp(p: IsoParts, isIP: string -> bool)
    requires RespectsAddressShape(isIP) && Shaped(p) && p.zone == Utc
    ensures !ContainsRawIp(Print(p), isIP)
  {
    hide Print;
    var s := Print(p);
    PrintedChars(p);
    forall i | 0 <= i < |s| ensures !IsDelimiter(s[i]) {
      assert TimestampChar(s[i]);
    }
    NoDelimiterOneToken(s);
    assert TrimDots(s) == s;
    assert !AddressChar(s[4]) && '%' !in s[..4 + 1];
  }
}
