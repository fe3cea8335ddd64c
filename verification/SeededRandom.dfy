/** The seeded generator behind the synthetic data, and the names, slugs, ids and keys drawn from it. */
module SeededRandom {
  import opened Sequences
  import opened Text

  const WORD := 0x1_0000_0000
  const INCREMENT := 0x6d2b79f5
  /** Doubles count exactly below this bound. */
  const EXACT_LIMIT := 0x20_0000_0000_0000

  function Mix(s: bv32): bv32 {
    var a := (s ^ (s >> 15)) * (s | 1);
    var b := a ^ (a + (a ^ (a >> 7)) * (a | 61));
    b ^ (b >> 14)
  }

  /** The number a draw returns for a 32-bit state. */
  function WordValue(word: nat): (r: real)
    requires word < WORD
    ensures 0.0 <= r < 1.0
  {
    var mixed := Mix(word as bv32) as int;
    assert 0 <= mixed < WORD;
    mixed as real / WORD as real
  }

  /** The number a draw returns once the (unwrapped) state has grown to `state`. */
  function Value(state: nat): (r: real)
    ensures 0.0 <= r < 1.0
  {
    WordValue(state % WORD)
  }

  /** `Math.floor(draw * n)`: an integer below `n`. */
  function Scaled(draw: real, n: nat): (k: nat)
    requires 0.0 <= draw < 1.0 && n > 0
    ensures k < n
  {
    ScaledBelow(draw, n);
    (draw * n as real).Floor
  }

  lemma ScaledBelow(draw: real, n: nat)
    requires 0.0 <= draw < 1.0 && n > 0
    ensures 0.0 <= draw * n as real < n as real
  {
    assert (1.0 - draw) * n as real > 0.0;
  }

  /** The `i`th draw from `state`, counting from one. */
  function Nth(state: nat, i: nat): (r: real)
    ensures 0.0 <= r < 1.0
  {
    Value(state + i * INCREMENT)
  }

  lemma NextDraw(state: nat, i: nat)
    ensures Nth(state + i * INCREMENT, 1) == Nth(state, i + 1)
  {
    hide Value;
    assert state + i * INCREMENT + 1 * INCREMENT == state + (i + 1) * INCREMENT;
  }

  /** The double nearest to an integer sum below 2^54: from 2^53 on only even numbers, ties to a multiple of four. */
  function Rounded(sum: nat): (r: nat)
    ensures sum < EXACT_LIMIT ==> r == sum
    ensures sum >= EXACT_LIMIT ==> r % 2 == 0 && sum - 1 <= r <= sum + 1 && (r == sum <==> sum % 2 == 0)
  {
    if sum < EXACT_LIMIT || sum % 2 == 0 then sum else if sum % 4 == 1 then sum - 1 else sum + 1
  }

  /** Draws counted from a later state are later draws. */
  lemma LaterDraw(state: nat, i: nat, j: nat)
    ensures Nth(state + i * INCREMENT, j) == Nth(state, i + j)
  {
    hide Value;
    assert state + i * INCREMENT + j * INCREMENT == state + (i + j) * INCREMENT;
  }

  /** The integer that a draw picks between two bounds, both included. */
  function Picked(draw: real, min: int, max: int): (k: int)
    requires 0.0 <= draw < 1.0 && min <= max
    ensures min <= k <= max
  {
    min + Scaled(draw, max - min + 1)
  }

  class SeededRng {
    var state: nat
    var sequence: nat

    constructor (seed: nat)
      ensures state == seed % WORD && sequence == 0
    {
      state := seed % WORD;
      sequence := 0;
    }

    /** One call of the generator. */
    method Draw() returns (r: real)
      requires state + INCREMENT < EXACT_LIMIT
      modifies this`state
      ensures state == old(state) + INCREMENT
      ensures r == Nth(old(state), 1) && 0.0 <= r < 1.0
    {
      state := Rounded(state + INCREMENT);
      r := Value(state);
    }

    method RandomInteger(min: int, max: int) returns (k: int)
      requires min <= max
      requires state + INCREMENT < EXACT_LIMIT
      modifies this`state
      ensures state == old(state) + INCREMENT
      ensures min <= k <= max && k == Picked(Nth(old(state), 1), min, max)
    {
      var draw := Draw();
      k := min + Scaled(draw, max - min + 1);
    }

    method RandomToken(length: nat) returns (token: string)
      requires state + length * INCREMENT < EXACT_LIMIT
      modifies this`state
      ensures state == old(state) + length * INCREMENT
      ensures token == TokenFrom(old(state), length)
    {
      hide Value;
      token := "";
      for index := 0 to length
        invariant state == old(state) + index * INCREMENT
        invariant token == TokenFrom(old(state), index)
      {
        var draw := Draw();
        NextDraw(old(state), index);
        token := token + [BASE58[Scaled(draw, |BASE58|)]];
      }
    }

    method NextSequence() returns (s: nat)
      modifies this`sequence
      ensures s == old(sequence) && sequence == old(sequence) + 1
    {
      s := sequence;
      sequence := sequence + 1;
    }

    method SynthSlug() returns (slug: string)
      requires state + MIN_SLUG_LENGTH * INCREMENT < EXACT_LIMIT
      modifies this`state
      ensures state == old(state) + MIN_SLUG_LENGTH * INCREMENT
      ensures slug == TokenFrom(old(state), MIN_SLUG_LENGTH) && IsValidSlug(slug)
    {
      slug := RandomToken(MIN_SLUG_LENGTH);
      TokenIsBase58(old(state), MIN_SLUG_LENGTH);
    }

    method SynthCloudRoastId() returns (id: string)
      requires state + 16 * INCREMENT < EXACT_LIMIT
      modifies this`state
      ensures state == old(state) + 16 * INCREMENT
      ensures id == IdText(VersionFour(BytesFrom(old(state), 16))) && IsCloudRoastId(id)
    {
      hide Value, IdText, IsCloudRoastId, HexText;
      var bytes := new nat[16](_ => 0);
      for index := 0 to 16
        invariant state == old(state) + index * INCREMENT
        invariant bytes[..index] == BytesFrom(old(state), index)
      {
        var draw := Draw();
        NextDraw(old(state), index);
        bytes[index] := Scaled(draw, 256);
        assert bytes[..index + 1] == bytes[..index] + [Scaled(draw, 256)];
      }
      ghost var drawn := bytes[..];
      assert drawn == bytes[..16];
      bytes[6] := bytes[6] % 0x10 + 0x40;
      bytes[8] := bytes[8] % 0x40 + 0x80;
      assert bytes[..] == VersionFour(drawn);
      id := IdText(bytes[..]);
      IdTextShape(bytes[..]);
    }

    method SynthIdempotencyKey() returns (key: string)
      requires state + TOKEN_LENGTH * INCREMENT < EXACT_LIMIT
      modifies this
      ensures state == old(state) + TOKEN_LENGTH * INCREMENT && sequence == old(sequence) + 1
      ensures key == IdempotencyKey(old(sequence), TokenFrom(old(state), TOKEN_LENGTH))
    {
      var s := NextSequence();
      var token := RandomToken(TOKEN_LENGTH);
      key := IdempotencyKey(s, token);
    }

    method SynthSessionId() returns (id: string)
      requires state + TOKEN_LENGTH * INCREMENT < EXACT_LIMIT
      modifies this
      ensures state == old(state) + TOKEN_LENGTH * INCREMENT && sequence == old(sequence) + 1
      ensures id == SessionId(old(sequence), TokenFrom(old(state), TOKEN_LENGTH))
    {
      var s := NextSequence();
      var token := RandomToken(TOKEN_LENGTH);
      id := SessionId(s, token);
    }

    method SynthReviewerName() returns (name: string)
      requires state + INCREMENT < EXACT_LIMIT
      modifies this`state
      ensures state == old(state) + INCREMENT
      ensures name == SYNTHETIC_NAME_POOL[Scaled(Nth(old(state), 1), 3)]
    {
      var draw := Draw();
      name := SYNTHETIC_NAME_POOL[Scaled(draw, |SYNTHETIC_NAME_POOL|)];
    }

    /** `digest` is SHA-256 in lowercase hexadecimal. */
    method SynthIpHash(digest: string -> string) returns (hash: string)
      requires state + TOKEN_LENGTH * INCREMENT < EXACT_LIMIT
      modifies this`state
      ensures state == old(state) + TOKEN_LENGTH * INCREMENT
      ensures hash == digest(SYNTHETIC_IP_TOKEN_PREFIX + TokenFrom(old(state), TOKEN_LENGTH))
    {
      var token := RandomToken(TOKEN_LENGTH);
      hash := digest(SYNTHETIC_IP_TOKEN_PREFIX + token);
    }
  }

  // ----- Tokens and slugs

  const BASE58 := "123456789" + "ABCDEFGHJKLMNPQRSTUVWXYZ" + "abcdefghijkmnopqrstuvwxyz"
  const TOKEN_LENGTH := 24
  const MIN_SLUG_LENGTH := 17
  const MAX_SLUG_LENGTH := 64
  const SYNTHETIC_NAME_POOL := ["Test Taster Alpha", "Mock Reviewer Beta", "Sample Sipper Gamma"]
  const SYNTHETIC_IP_TOKEN_PREFIX := "roastpilot-synthetic-ip-token:"

  lemma Base58HasNoPunctuation()
    ensures '.' !in BASE58 && ':' !in BASE58 && '-' !in BASE58
  {
    assert '.' !in "123456789" && ':' !in "123456789" && '-' !in "123456789";
    UpperHasNoPunctuation();
    LowerHasNoPunctuation();
  }

  lemma UpperHasNoPunctuation()
    ensures var upper := "ABCDEFGHJKLMNPQRSTUVWXYZ"; '.' !in upper && ':' !in upper && '-' !in upper
  {
  }

  lemma LowerHasNoPunctuation()
    ensures var lower := "abcdefghijkmnopqrstuvwxyz"; '.' !in lower && ':' !in lower && '-' !in lower
  {
  }

  predicate IsBase58(s: string) {
    forall i :: 0 <= i < |s| ==> s[i] in BASE58
  }

  predicate IsValidSlug(s: string) {
    MIN_SLUG_LENGTH <= |s| <= MAX_SLUG_LENGTH && IsBase58(s)
  }

  /** The token read off the `n` draws that follow `state`. */
  function TokenFrom(state: nat, n: nat): string {
    if n == 0 then "" else TokenFrom(state, n - 1) + [BASE58[Scaled(Nth(state, n), |BASE58|)]]
  }

  lemma {:induction false} TokenIsBase58(state: nat, n: nat)
    ensures |TokenFrom(state, n)| == n && IsBase58(TokenFrom(state, n))
  {
    hide IsBase58, Nth;
    NothingIsBase58();
    if n > 0 {
      TokenIsBase58(state, n - 1);
      AppendBase58(TokenFrom(state, n - 1), Scaled(Nth(state, n), |BASE58|));
    }
  }

  lemma NothingIsBase58()
    ensures IsBase58("")
  {
  }

  lemma AppendBase58(s: string, k: nat)
    requires IsBase58(s) && k < |BASE58|
    ensures IsBase58(s + [BASE58[k]])
  {
  }

  function Power(b: nat, e: nat): nat {
    if e == 0 then 1 else b * Power(b, e - 1)
  }

  lemma {:induction false} PowerSplit(b: nat, m: nat, n: nat)
    ensures Power(b, m + n) == Power(b, m) * Power(b, n)
  {
    if m > 0 {
      PowerSplit(b, m - 1, n);
      assert b * (Power(b, m - 1) * Power(b, n)) == b * Power(b, m - 1) * Power(b, n);
    }
  }

  lemma PowersOfTwo()
    ensures Power(2, 96) == 0x1_0000_0000_0000_0000_0000_0000
  {
    assert Power(2, 4) == 16;
    PowerSplit(2, 4, 4);
    PowerSplit(2, 8, 8);
    PowerSplit(2, 16, 16);
    PowerSplit(2, 32, 32);
    PowerSplit(2, 64, 32);
  }

  lemma PowersOfBase()
    ensures Power(58, 16) == 128_063_081_718_016 * 128_063_081_718_016
  {
    assert Power(58, 2) == 3364;
    PowerSplit(58, 2, 2);
    PowerSplit(58, 4, 4);
    PowerSplit(58, 8, 8);
  }

  /** Seventeen base58 characters are the fewest that carry the required 96 bits. */
  lemma SlugEntropy()
    ensures Power(58, MIN_SLUG_LENGTH - 1) < Power(2, 96) <= Power(58, MIN_SLUG_LENGTH)
  {
    PowersOfTwo();
    PowersOfBase();
    PowerSplit(58, 16, 1);
    assert Power(58, 1) == 58;
  }

  // ----- Numbered keys

  function Numbered(sequence: nat, token: string): string {
    Decimal(sequence) + ['-'] + token
  }

  function IdempotencyKey(sequence: nat, token: string): string {
    "synthetic-idempotency-" + Numbered(sequence, token)
  }

  function SessionId(sequence: nat, token: string): string {
    "synthetic-session-" + Numbered(sequence, token)
  }

  /** The number and the token can be read back off a numbered name. */
  lemma NumberedInjective(m: nat, a: string, n: nat, b: string)
    requires Numbered(m, a) == Numbered(n, b)
    ensures m == n && a == b
  {
    var x, y := Decimal(m), Decimal(n);
    var s := Numbered(m, a);
    assert s[..|x|] == x && s[|x|] == '-';
    assert s[..|y|] == y && s[|y|] == '-';
    assert |x| < |y| ==> !IsDigit(y[|x|]);
    assert |y| < |x| ==> !IsDigit(x[|y|]);
    DecimalInjective(m, n);
    assert a == s[|x| + 1..] && b == s[|y| + 1..];
  }

  lemma IdempotencyKeyInjective(m: nat, a: string, n: nat, b: string)
    requires IdempotencyKey(m, a) == IdempotencyKey(n, b)
    ensures m == n && a == b
  {
    var prefix := "synthetic-idempotency-";
    assert IdempotencyKey(m, a)[|prefix|..] == Numbered(m, a);
    assert IdempotencyKey(n, b)[|prefix|..] == Numbered(n, b);
    NumberedInjective(m, a, n, b);
  }

  lemma SessionIdInjective(m: nat, a: string, n: nat, b: string)
    requires SessionId(m, a) == SessionId(n, b)
    ensures m == n && a == b
  {
    var prefix := "synthetic-session-";
    assert SessionId(m, a)[|prefix|..] == Numbered(m, a);
    assert SessionId(n, b)[|prefix|..] == Numbered(n, b);
    NumberedInjective(m, a, n, b);
  }

  lemma KeyIsNoSessionId(m: nat, a: string, n: nat, b: string)
    ensures IdempotencyKey(m, a) != SessionId(n, b)
  {
    assert IdempotencyKey(m, a)[10] == 'i' && SessionId(n, b)[10] == 's';
  }

  /** The two kinds of numbered names. */
  datatype Kind = KeyName | SessionName

  function NameOf(kind: Kind, sequence: nat, token: string): string {
    match kind
    case KeyName => IdempotencyKey(sequence, token)
    case SessionName => SessionId(sequence, token)
  }

  /** Names with different numbers are different, whatever their kinds. */
  lemma NamesDiffer(j: Kind, m: nat, a: string, k: Kind, n: nat, b: string)
    requires m != n
    ensures NameOf(j, m, a) != NameOf(k, n, b)
  {
    hide IdempotencyKey, SessionId;
    KeyIsNoSessionId(m, a, n, b);
    KeyIsNoSessionId(n, b, m, a);
    if NameOf(j, m, a) == NameOf(k, n, b) {
      match j
      case KeyName => IdempotencyKeyInjective(m, a, n, b);
      case SessionName => SessionIdInjective(m, a, n, b);
    }
  }

  /** What a caller can do with one generator: draw anything, or take a key or a session id. */
  datatype Call = Draws(n: nat) | Take(kind: Kind)

  /** The keys and session ids handed out over a run of calls. */
  function NamesTaken(calls: seq<Call>, state: nat, sequence: nat): seq<string> {
    if calls == [] then [] else
      match calls[0]
      case Draws(n) => NamesTaken(calls[1..], state + n * INCREMENT, sequence)
      case Take(kind) =>
        [NameOf(kind, sequence, TokenFrom(state, TOKEN_LENGTH))]
        + NamesTaken(calls[1..], state + TOKEN_LENGTH * INCREMENT, sequence + 1)
  }

  ghost predicate NumberedFrom(name: string, sequence: nat) {
    exists kind, n: nat, token :: sequence <= n && name == NameOf(kind, n, token)
  }

  /** Whatever is drawn in between, one generator never hands out the same key or session id twice. */
  lemma {:induction false} NamesNeverRepeat(calls: seq<Call>, state: nat, sequence: nat)
    ensures Distinct(NamesTaken(calls, state, sequence))
    ensures forall name :: name in NamesTaken(calls, state, sequence) ==> NumberedFrom(name, sequence)
  {
    hide TokenFrom, NameOf, NumberedFrom, Distinct;
    if calls == [] {
      NothingRepeats();
    } else if calls[0].Draws? {
      NamesNeverRepeat(calls[1..], state + calls[0].n * INCREMENT, sequence);
    } else {
      NamesNeverRepeat(calls[1..], state + TOKEN_LENGTH * INCREMENT, sequence + 1);
      var rest := NamesTaken(calls[1..], state + TOKEN_LENGTH * INCREMENT, sequence + 1);
      var token := TokenFrom(state, TOKEN_LENGTH);
      var first := NameOf(calls[0].kind, sequence, token);
      forall name | name in rest ensures NumberedFrom(name, sequence) && name != first {
        LaterName(calls[0].kind, sequence, token, name);
      }
      NumberedSelf(calls[0].kind, sequence, token);
      DistinctPrepend(first, rest);
    }
  }

  lemma NothingRepeats()
    ensures Distinct<string>([])
  {
  }

  lemma NumberedSelf(kind: Kind, sequence: nat, token: string)
    ensures NumberedFrom(NameOf(kind, sequence, token), sequence)
  {
  }

  lemma LaterName(kind: Kind, sequence: nat, token: string, later: string)
    requires NumberedFrom(later, sequence + 1)
    ensures NumberedFrom(later, sequence) && later != NameOf(kind, sequence, token)
  {
    hide NameOf;
    var k, n: nat, t :| sequence + 1 <= n && later == NameOf(k, n, t);
    NamesDiffer(k, n, t, kind, sequence, token);
  }

  // ----- The 32-bit view of the state

  /** The state after `n` draws if it were wrapped to 32 bits every time. */
  function WrappedState(seed: nat, n: nat): (w: nat)
    ensures w < WORD
  {
    if n == 0 then seed % WORD else (WrappedState(seed, n - 1) + INCREMENT) % WORD
  }

  lemma {:induction false} WrappedStateExact(seed: nat, n: nat)
    ensures WrappedState(seed, n) == (seed % WORD + n * INCREMENT) % WORD
  {
    if n > 0 {
      WrappedStateExact(seed, n - 1);
      var before := seed % WORD + (n - 1) * INCREMENT;
      assert before + INCREMENT == seed % WORD + n * INCREMENT;
      WrapAgain(before, INCREMENT);
    }
  }

  /** Wrapping before an addition changes nothing once the sum is wrapped. */
  lemma WrapAgain(x: nat, y: nat)
    ensures (x % WORD + y) % WORD == (x + y) % WORD
  {
    var q := x / WORD;
    assert x + y == (x % WORD + y) + WORD * q;
    ModuloShift(x % WORD + y, q);
  }

  lemma {:induction false} ModuloShift(x: nat, q: nat)
    ensures (x + WORD * q) % WORD == x % WORD
    decreases q
  {
    if q > 0 {
      ModuloShift(x, q - 1);
      assert x + WORD * q == (x + WORD * (q - 1)) + WORD;
    }
  }

  /** The state after `n` draws, in double arithmetic. */
  function DoubleState(seed: nat, n: nat): nat {
    if n == 0 then seed % WORD else Rounded(DoubleState(seed, n - 1) + INCREMENT)
  }

  /** The state that exact arithmetic would give. */
  function ExactState(seed: nat, n: nat): nat {
    seed % WORD + n * INCREMENT
  }

  /** Up to here no draw can tell the growing state from one wrapped to 32 bits. */
  ghost predicate WordsAgree(seed: nat, n: nat) {
    forall k: nat :: k <= n ==> DoubleState(seed, k) % WORD == WrappedState(seed, k)
  }

  lemma {:induction false} ExactBelowLimit(seed: nat, n: nat)
    requires ExactState(seed, n) < EXACT_LIMIT
    ensures DoubleState(seed, n) == ExactState(seed, n)
  {
    if n > 0 {
      StatesAscend(seed, n - 1, n);
      ExactBelowLimit(seed, n - 1);
    }
  }

  lemma StatesAscend(seed: nat, m: nat, n: nat)
    requires m <= n
    ensures ExactState(seed, m) <= ExactState(seed, n)
            && (m + 1 == n ==> ExactState(seed, n) == ExactState(seed, m) + INCREMENT)
  {
  }

  /** Off by one, two states have different words. */
  lemma NeighboursDiffer(x: nat, y: nat)
    requires x == y + 1 || y == x + 1
    ensures x % WORD != y % WORD
  {
  }

  lemma WrappedIsExact(seed: nat, n: nat)
    ensures WrappedState(seed, n) == ExactState(seed, n) % WORD
  {
    WrappedStateExact(seed, n);
  }

  /** The draw that crosses 2^53 keeps its word exactly when its state is even. */
  lemma FirstCrossing(seed: nat, n: nat)
    requires n > 0 && ExactState(seed, n - 1) < EXACT_LIMIT <= ExactState(seed, n)
    ensures DoubleState(seed, n) % 2 == 0
    ensures DoubleState(seed, n) % WORD == WrappedState(seed, n) <==> ExactState(seed, n) % 2 == 0
    ensures ExactState(seed, n) % 2 == 0 ==> DoubleState(seed, n) == ExactState(seed, n)
  {
    hide WrappedState;
    ExactBelowLimit(seed, n - 1);
    StatesAscend(seed, n - 1, n);
    WrappedIsExact(seed, n);
    var exact, double := ExactState(seed, n), DoubleState(seed, n);
    assert double == Rounded(exact);
    if exact % 2 != 0 { NeighboursDiffer(double, exact); }
  }

  /** The draw after an exact crossing has an odd state, which no double above 2^53 holds. */
  lemma AfterCrossing(seed: nat, n: nat)
    requires ExactState(seed, n) >= EXACT_LIMIT && ExactState(seed, n) % 2 == 0
             && DoubleState(seed, n) == ExactState(seed, n)
    ensures DoubleState(seed, n + 1) % WORD != WrappedState(seed, n + 1)
  {
    hide WrappedState;
    StatesAscend(seed, n, n + 1);
    WrappedIsExact(seed, n + 1);
    var exact, double := ExactState(seed, n + 1), DoubleState(seed, n + 1);
    assert double == Rounded(exact) && exact % 2 == 1;
    NeighboursDiffer(double, exact);
  }

  lemma {:induction false} CrossingBefore(seed: nat, n: nat) returns (c: nat)
    requires ExactState(seed, n) >= EXACT_LIMIT
    ensures 0 < c <= n && ExactState(seed, c - 1) < EXACT_LIMIT <= ExactState(seed, c)
  {
    if ExactState(seed, n - 1) < EXACT_LIMIT { c := n; } else { c := CrossingBefore(seed, n - 1); }
  }

  lemma AgreesBelow(seed: nat, n: nat)
    requires ExactState(seed, n) < EXACT_LIMIT
    ensures WordsAgree(seed, n)
  {
    hide DoubleState, WrappedState, ExactState;
    forall k: nat | k <= n ensures DoubleState(seed, k) % WORD == WrappedState(seed, k) {
      StatesAscend(seed, k, n);
      ExactBelowLimit(seed, k);
      WrappedIsExact(seed, k);
    }
  }

  /** Nothing shows the missing 32-bit wrap-around exactly until the state passes 2^53, or on its crossing when even. */
  lemma WrappingIsInvisible(seed: nat, n: nat)
    ensures WordsAgree(seed, n)
            <==> || ExactState(seed, n) < EXACT_LIMIT
                 || (n > 0 && ExactState(seed, n - 1) < EXACT_LIMIT && ExactState(seed, n) % 2 == 0)
  {
    hide DoubleState, WrappedState, ExactState;
    if ExactState(seed, n) < EXACT_LIMIT {
      AgreesBelow(seed, n);
    } else {
      var c := CrossingBefore(seed, n);
      FirstCrossing(seed, c);
      AgreesBelow(seed, c - 1);
      if c < n {
        StatesAscend(seed, c, n - 1);
        if ExactState(seed, c) % 2 == 0 { AfterCrossing(seed, c); }
      }
    }
  }

  // ----- Roast ids

  function HexChar(d: nat): (c: char)
    requires d < 16
    ensures IsLowerHex(c)
  {
    if d < 10 then '0' + d as char else 'a' + (d - 10) as char
  }

  predicate IsLowerHex(c: char) {
    '0' <= c <= '9' || 'a' <= c <= 'f'
  }

  predicate AllLowerHex(s: string) {
    forall i :: 0 <= i < |s| ==> IsLowerHex(s[i])
  }

  predicate Bytes(bytes: seq<nat>) {
    forall i :: 0 <= i < |bytes| ==> bytes[i] < 256
  }

  function BytesFrom(state: nat, n: nat): (bytes: seq<nat>)
    ensures |bytes| == n && Bytes(bytes)
  {
    if n == 0 then [] else BytesFrom(state, n - 1) + [Scaled(Nth(state, n), 256)]
  }

  /** The bytes of a random UUID with its version and variant bits set. */
  function VersionFour(bytes: seq<nat>): (r: seq<nat>)
    requires |bytes| == 16 && Bytes(bytes)
    ensures |r| == 16 && Bytes(r)
  {
    bytes[6 := bytes[6] % 0x10 + 0x40][8 := bytes[8] % 0x40 + 0x80]
  }

  function HexText(bytes: seq<nat>): (s: string)
    requires Bytes(bytes)
    ensures |s| == 2 * |bytes| && AllLowerHex(s)
  {
    if bytes == [] then "" else [HexChar(bytes[0] / 16), HexChar(bytes[0] % 16)] + HexText(bytes[1..])
  }

  function IdText(bytes: seq<nat>): string
    requires |bytes| == 16 && Bytes(bytes)
  {
    HexText(bytes[0..4]) + ['-'] + HexText(bytes[4..6]) + ['-'] + HexText(bytes[6..8]) + ['-']
    + HexText(bytes[8..10]) + ['-'] + HexText(bytes[10..16])
  }

  predicate IsCloudRoastId(s: string) {
    && |s| == 36
    && s[8] == '-' && s[13] == '-' && s[18] == '-' && s[23] == '-'
    && AllLowerHex(s[0..8]) && AllLowerHex(s[9..13]) && AllLowerHex(s[14..18])
    && AllLowerHex(s[19..23]) && AllLowerHex(s[24..36])
  }

  lemma IdTextShape(bytes: seq<nat>)
    requires |bytes| == 16 && Bytes(bytes)
    ensures IsCloudRoastId(IdText(bytes))
  {
    var s := IdText(bytes);
    assert s[0..8] == HexText(bytes[0..4]);
    assert s[9..13] == HexText(bytes[4..6]);
    assert s[14..18] == HexText(bytes[6..8]);
    assert s[19..23] == HexText(bytes[8..10]);
    assert s[24..36] == HexText(bytes[10..16]);
  }

  lemma {:induction false} HexTextInjective(a: seq<nat>, b: seq<nat>)
    requires Bytes(a) && Bytes(b) && HexText(a) == HexText(b)
    ensures a == b
  {
    if a != [] {
      var s := HexText(a);
      assert s[2..] == HexText(a[1..]) && s[2..] == HexText(b[1..]);
      HexTextInjective(a[1..], b[1..]);
      assert s[0] == HexChar(a[0] / 16) == HexChar(b[0] / 16);
      assert s[1] == HexChar(a[0] % 16) == HexChar(b[0] % 16);
    }
  }

  lemma IdTextParts(bytes: seq<nat>)
    requires |bytes| == 16 && Bytes(bytes)
    ensures var s := IdText(bytes);
            && |s| == 36
            && s[0..8] + s[9..13] + s[14..18] + s[19..23] + s[24..36] == HexText(bytes)
  {
    var s := IdText(bytes);
    assert s[0..8] == HexText(bytes[0..4]);
    assert s[9..13] == HexText(bytes[4..6]);
    assert s[14..18] == HexText(bytes[6..8]);
    assert s[19..23] == HexText(bytes[8..10]);
    assert s[24..36] == HexText(bytes[10..16]);
    hide *;
    HexTextConcat(bytes, 10);
    HexTextConcat(bytes[..10], 8);
    HexTextConcat(bytes[..8], 6);
    HexTextConcat(bytes[..6], 4);
    assert bytes[..10][8..] == bytes[8..10] && bytes[..10][..8] == bytes[..8];
    assert bytes[..8][6..] == bytes[6..8] && bytes[..8][..6] == bytes[..6];
    assert bytes[..6][4..] == bytes[4..6] && bytes[..6][..4] == bytes[0..4];
    assert bytes[10..] == bytes[10..16];
  }

  lemma {:induction false} HexTextConcat(bytes: seq<nat>, k: nat)
    requires k <= |bytes| && Bytes(bytes)
    ensures HexText(bytes) == HexText(bytes[..k]) + HexText(bytes[k..])
  {
    if k > 0 {
      HexTextConcat(bytes[1..], k - 1);
      assert bytes[..k][1..] == bytes[1..][..k - 1];
      assert bytes[1..][k - 1..] == bytes[k..];
    } else {
      assert bytes[0..] == bytes;
    }
  }

  /** Distinct byte draws give distinct ids: the id text loses nothing. */
  lemma IdTextInjective(a: seq<nat>, b: seq<nat>)
    requires |a| == |b| == 16 && Bytes(a) && Bytes(b) && IdText(a) == IdText(b)
    ensures a == b
  {
    hide IdText;
    IdTextParts(a);
    IdTextParts(b);
    HexTextInjective(a, b);
  }
}
