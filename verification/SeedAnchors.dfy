/** The small deciders of the integrity check and of the dispatch, against conditions written out. */
module SeedAnchors {
  import opened Wrappers
  import opened Sequences
  import opened Text
  import opened IsoTime
  import opened JsonTrees
  import opened RawIpText
  import opened SeedTypes
  import opened SeedRules
  import opened SeedRelations
  import opened SeedDispatch
  import SqlText

  // ----- Numbers in range

  function Whole(k: int): Num {
    Fin(k as real)
  }

  /** A number in range is one of the whole numbers from the least to the greatest. */
  lemma InRangeExactly(v: Num, min: int, max: int)
    ensures InRange(v, min, max) <==> exists k :: min <= k <= max && v == Whole(k)
  {
    if InRange(v, min, max) { assert v == Whole(v.value.Floor); }
    if k :| min <= k <= max && v == Whole(k) { assert (k as real).Floor == k; }
  }

  // ----- Comparisons

  /** Two means agree when both are missing, or both are numbers at most a millionth apart. */
  lemma ApproximatelyExactly(a: Option<Num>, b: Option<Num>)
    ensures ApproximatelyEqual(a, b)
            <==> || (a == None && b == None)
                 || exists x, y :: a == Some(Fin(x)) && b == Some(Fin(y)) && -1.0 <= 1000000.0 * (x - y) <= 1.0
  {
    if ApproximatelyEqual(a, b) && a.Some? { assert a == Some(Fin(a.value.value)) && b == Some(Fin(b.value.value)); }
  }

  // ----- Identities

  predicate NoTwo<K(==)>(keys: seq<Option<K>>) {
    forall i, j :: 0 <= i < j < |keys| && keys[i].Some? ==> keys[i] != keys[j]
  }

  lemma {:induction false} TrackedDistinctly<K>(keys: seq<Option<K>>, n: nat)
    requires n <= |keys|
    ensures Distinct(Tracked(keys, n)) <==> NoTwo(keys[..n])
  {
    if n > 0 {
      var init, last := keys[..n - 1], keys[n - 1];
      assert keys[..n] == init + [last];
      TrackedDistinctly(keys, n - 1);
      OneMoreKey(init, last);
      if last.Some? {
        TrackedMembers(keys, n - 1);
        DistinctAppend(Tracked(keys, n - 1), last.value);
      }
    }
  }

  lemma OneMoreKey<K>(init: seq<Option<K>>, last: Option<K>)
    ensures NoTwo(init + [last]) <==> NoTwo(init) && (last.Some? ==> last !in init)
  {
    var all := init + [last];
    assert all[|init|] == last && forall i :: 0 <= i < |init| ==> all[i] == init[i];
  }

  lemma PresentDistinctly<K>(keys: seq<Option<K>>)
    ensures DistinctPresent(keys) <==> NoTwo(keys)
  {
    hide NoTwo;
    assert keys[..|keys|] == keys;
    TrackedDistinctly(keys, |keys|);
  }

  /** No two rows of a table share an id that is given, no two roasts a key or a slug, no two summaries a group. */
  ghost predicate AllDifferent(o: SeedOutput) {
    && (forall i, j :: 0 <= i < j < |o.cloudRoasts| ==>
        var (a, b) := (o.cloudRoasts[i], o.cloudRoasts[j]);
        && (a.id.Some? ==> a.id != b.id) && a.idempotencyKey != b.idempotencyKey && a.publicSlug != b.publicSlug)
    && (forall i, j :: 0 <= i < j < |o.roastArtifacts| && o.roastArtifacts[i].id.Some? ==>
        o.roastArtifacts[i].id != o.roastArtifacts[j].id)
    && (forall i, j :: 0 <= i < j < |o.tastingReviews| && o.tastingReviews[i].id.Some? ==>
        o.tastingReviews[i].id != o.tastingReviews[j].id)
    && (forall i, j :: 0 <= i < j < |o.referenceRoastSummaries| ==>
        var (a, b) := (o.referenceRoastSummaries[i], o.referenceRoastSummaries[j]);
        (a.id.Some? ==> a.id != b.id) && (a.beanOrigin != b.beanOrigin || a.roastLevel != b.roastLevel))
  }

  lemma IdentitiesExactly(output: SeedOutput)
    ensures IdentitiesUnique(output) <==> AllDifferent(output)
  {
    hide DistinctPresent;
    PresentDistinctly(RoastIdKeys(output.cloudRoasts));
    PresentDistinctly(ArtifactIdKeys(output.roastArtifacts));
    PresentDistinctly(ReviewIdKeys(output.tastingReviews));
    PresentDistinctly(SummaryIdKeys(output.referenceRoastSummaries));
    PresentDistinctly(IdempotencyKeys(output.cloudRoasts));
    PresentDistinctly(SlugKeys(output.cloudRoasts));
    PresentDistinctly(SummaryGroupKeys(output.referenceRoastSummaries));
  }

  // ----- Retention

  /** A hash of a review created at `ms` is in order from then on, and for thirty days. */
  lemma RetentionExactly(row: Review, ms: int, now: int)
    requires row.submittedIpHash.Some? && FourDigitYear(ms / 1000) && row.createdAt == ToIsoString(ms)
    ensures RetentionOk(row, now) <==> ms <= now < ms + 2_592_000_000
  {
    hide DateParse, ToIsoString, FourDigitYear;
    ToIsoStringRoundTrip(ms);
  }

  // ----- Fahrenheit names

  lemma EndsWithExactly(s: string, suffix: string)
    ensures EndsWith(s, suffix) <==> exists a :: s == a + suffix
  {
    if EndsWith(s, suffix) { assert s == s[..|s| - |suffix|] + suffix; }
    if a :| s == a + suffix { assert s[|s| - |suffix|..] == suffix; }
  }

  lemma IncludesExactly(s: string, part: string)
    ensures Includes(s, part) <==> exists a, b :: s == a + part + b
  {
    if Includes(s, part) {
      var i :| 0 <= i <= |s| && PartAt(s, part, i);
      assert s == s[..i] + part + s[i + |part|..];
    }
    if a, b :| s == a + part + b {
      assert s[|a|..|a| + |part|] == part;
      assert PartAt(s, part, |a|);
    }
  }

  /** The names that betray a Fahrenheit value, in any case. */
  lemma FahrenheitExactly(key: string)
    ensures IsFahrenheitKey(key)
            <==> || (exists a :: ToLower(key) == a + "_f")
                 || (exists a, b :: ToLower(key) == a + "fahrenheit" + b)
                 || ((exists a :: ToLower(key) == a + "f") && exists a, b :: ToLower(key) == a + "temp" + b)
  {
    hide ToLower, EndsWith, Includes;
    EndsWithExactly(ToLower(key), "_f");
    EndsWithExactly(ToLower(key), "f");
    IncludesExactly(ToLower(key), "fahrenheit");
    IncludesExactly(ToLower(key), "temp");
  }

  /** The entries that give a Fahrenheit unit away. */
  lemma FahrenheitUnitExactly(key: string, value: Json)
    ensures IsFahrenheitUnit(key, value)
            <==> && (exists a :: ToLower(key) == a + "unit")
                 && value.JStr? && (ToLower(value.s) == "f" || ToLower(value.s) == "fahrenheit")
  {
    hide ToLower, EndsWith;
    EndsWithExactly(ToLower(key), "unit");
  }

  /** The keys under which anything but null is an address; leaves are judged by their text. */
  lemma AddressRules(key: string, value: Json, isIP: string -> bool)
    ensures IpRules(isIP).flagsKey(key, value)
            <==> && value != JNull
                 && (var name := ToLower(key);
                     || name == "ip" || name == "ipaddr" || name == "ipaddress" || name == "ip_address"
                     || name == "client_ip" || name == "remote_ip" || name == "remote_addr")
    ensures IpRules(isIP).flagsLeaf(value) <==> value.JStr? && ContainsRawIp(value.s, isIP)
  {
    hide ToLower;
  }

  // ----- Listed values

  lemma AllowedValues(kind: string, visibility: string)
    ensures kind in ARTIFACT_KINDS <==> kind == "jsonl" || kind == "csv" || kind == "summary"
    ensures visibility in VISIBILITY_VALUES
            <==> visibility == "private" || visibility == "unlisted" || visibility == "public"
  {
  }

  // ----- Names of rows

  /** How rows and groups are named in a report. */
  lemma ReportedNames(r: Artifact, s: ReferenceSummary)
    ensures ArtifactIdentity(r) == r.id.GetOr(r.roastId)
    ensures s.beanOrigin == "Brazil Cerrado" && s.roastLevel == "dark" ==> GroupText(s) == "Brazil Cerrado|dark"
    ensures GroupIdentity(Group(None, Some("dark"))) == "null|dark"
    ensures GroupIdentity(SummaryGroup(s)) == GroupText(s)
  {
    assert "Brazil Cerrado" + "|" + "dark" == "Brazil Cerrado|dark";
    assert "null" + "|" + "dark" == "null|dark";
  }

  // ----- Paths

  /** A step down is written behind its parent: a key after a dot, an index in brackets. */
  lemma OneStepRendered(parent: string, name: string, i: nat)
    ensures Render(parent, [Key(name)]) == parent + "." + name
    ensures i < 10 ==> Render(parent, [Index(i)]) == parent + "[" + [DIGITS[i]] + "]"
  {
    hide DIGITS, Render;
    RenderStep(parent, Key(name), []);
    RenderStep(parent, Index(i), []);
    assert [Key(name)] + [] == [Key(name)] && [Index(i)] + [] == [Index(i)];
    NothingRendered(parent + StepText(Key(name)));
    NothingRendered(parent + StepText(Index(i)));
    if i < 10 { DigitExact(i); }
  }

  lemma NothingRendered(parent: string)
    ensures Render(parent, []) == parent
  {
  }

  /** A path is written step by step. */
  lemma {:induction false} RenderedInTurn(parent: string, a: seq<Step>, b: seq<Step>)
    ensures Render(parent, a + b) == Render(Render(parent, a), b)
    decreases |a|
  {
    if a == [] {
      assert a + b == b;
    } else {
      RenderedInTurn(parent + StepText(a[0]), a[1..], b);
      assert (a + b)[1..] == a[1..] + b;
    }
  }

  // ----- Addresses in text

  predicate Undelimited(token: string) {
    forall i :: 0 <= i < |token| ==> !IsDelimiter(token[i])
  }

  predicate Delimiters(s: string, low: nat, high: nat) {
    forall i :: low <= i < high && i < |s| ==> IsDelimiter(s[i])
  }

  /** A stretch of text without delimiters, between two of them or an end. */
  predicate StretchAt(s: string, low: nat, token: string) {
    && token != "" && low + |token| <= |s| && s[low..low + |token|] == token && Undelimited(token)
    && (low > 0 ==> IsDelimiter(s[low - 1]))
    && (low + |token| < |s| ==> IsDelimiter(s[low + |token|]))
  }

  ghost predicate IsStretch(s: string, token: string) {
    exists low: nat :: StretchAt(s, low, token)
  }

  /** Where the text goes on after its leading delimiters. */
  lemma {:induction false} SkippedAll(s: string) returns (n: nat)
    ensures n <= |s| && SkipDelimiters(s) == s[n..] && Delimiters(s, 0, n) && (n < |s| ==> !IsDelimiter(s[n]))
  {
    hide IsDelimiter;
    n := 0;
    if s != "" && IsDelimiter(s[0]) {
      n := SkippedAll(s[1..]);
      assert s[1..][n..] == s[n + 1..];
      assert forall i :: 0 < i < |s| ==> s[i] == s[1..][i - 1];
      n := n + 1;
    }
  }

  /** Where it goes on after its first delimiters. */
  lemma SkippedAfter(s: string) returns (d: nat)
    requires FirstDelimiter(s) < |s|
    ensures FirstDelimiter(s) < d <= |s| && SkipDelimiters(s[FirstDelimiter(s)..]) == s[d..]
    ensures Delimiters(s, FirstDelimiter(s), d) && (d < |s| ==> !IsDelimiter(s[d]))
  {
    hide IsDelimiter, SkipDelimiters;
    var k := FirstDelimiter(s);
    var n := SkippedAll(s[k..]);
    SliceOfSlice(s, k, n);
    assert s[k] == s[k..][0];
    d := k + n;
    forall i | k <= i < d && i < |s| ensures IsDelimiter(s[i]) {
      assert s[i] == s[k..][i - k];
    }
    assert d < |s| ==> s[d] == s[k..][n];
  }

  lemma SliceOfSlice(s: string, k: nat, n: nat)
    requires k + n <= |s|
    ensures s[k..][n..] == s[k + n..]
  {
  }

  lemma StretchForth(s: string, k: nat, d: nat, low: nat, token: string)
    requires k <= low && d <= |s| && Delimiters(s, k, d) && (d < |s| ==> !IsDelimiter(s[d]))
    requires StretchAt(s, low, token)
    ensures low >= d && StretchAt(s[d..], low - d, token)
  {
    hide IsDelimiter;
    assert s[low] == token[0];
    assert forall i :: d <= i < |s| ==> s[i] == s[d..][i - d];
    assert s[d..][low - d..low - d + |token|] == s[low..low + |token|];
  }

  lemma StretchBack(s: string, d: nat, low: nat, token: string)
    requires 0 < d <= |s| && IsDelimiter(s[d - 1]) && StretchAt(s[d..], low, token)
    ensures StretchAt(s, low + d, token)
  {
    hide IsDelimiter;
    assert forall i :: d <= i < |s| ==> s[i] == s[d..][i - d];
    assert s[d..][low..low + |token|] == s[low + d..low + d + |token|];
  }

  /** A stretch that begins before the first delimiter is the text up to it. */
  lemma FirstStretch(s: string, low: nat, token: string)
    requires low < FirstDelimiter(s) && StretchAt(s, low, token)
    ensures token == s[..FirstDelimiter(s)]
  {
    hide IsDelimiter;
    var high := low + |token|;
    assert s[low..high] == token;
    assert forall i :: low <= i < high ==> s[i] == token[i - low];
  }

  lemma FirstIsStretch(s: string)
    requires FirstDelimiter(s) > 0
    ensures StretchAt(s, 0, s[..FirstDelimiter(s)])
  {
    hide IsDelimiter;
  }

  /** A stretch is the first one, or one of the text after the first delimiters. */
  lemma LaterStretches(s: string, token: string)
    requires FirstDelimiter(s) < |s| && token != ""
    ensures IsStretch(s, token)
            <==> token == s[..FirstDelimiter(s)] || IsStretch(SkipDelimiters(s[FirstDelimiter(s)..]), token)
  {
    hide IsDelimiter, StretchAt, FirstDelimiter, SkipDelimiters;
    var k := FirstDelimiter(s);
    var d := SkippedAfter(s);
    if IsStretch(s, token) {
      var low: nat :| StretchAt(s, low, token);
      if low < k { FirstStretch(s, low, token); } else { StretchForth(s, k, d, low, token); }
    }
    if token == s[..k] { FirstIsStretch(s); }
    if IsStretch(s[d..], token) {
      var low: nat :| StretchAt(s[d..], low, token);
      StretchBack(s, d, low, token);
    }
  }

  lemma OnlyStretch(s: string, token: string)
    requires FirstDelimiter(s) == |s| && token != ""
    ensures IsStretch(s, token) <==> token == s
  {
    hide IsDelimiter, StretchAt, FirstDelimiter;
    assert s[..|s|] == s;
    if IsStretch(s, token) {
      var low: nat :| StretchAt(s, low, token);
      StretchFits(s, low, token);
      FirstStretch(s, low, token);
    }
    if token == s { FirstIsStretch(s); }
  }

  lemma StretchFits(s: string, low: nat, token: string)
    requires StretchAt(s, low, token)
    ensures token != "" && low < |s|
  {
    hide IsDelimiter;
  }

  /** The tokens of a text are its stretches; one or two empty ones may be among them. */
  lemma {:induction false} TokensExactly(s: string, token: string)
    requires token != ""
    ensures token in Tokens(s) <==> IsStretch(s, token)
    decreases |s|
  {
    hide IsDelimiter, IsStretch, FirstDelimiter, SkipDelimiters;
    var k := FirstDelimiter(s);
    if k == |s| {
      OnlyStretch(s, token);
    } else {
      var d := SkippedAfter(s);
      TokensExactly(s[d..], token);
      LaterStretches(s, token);
    }
  }

  /** A text holds an address exactly when some stretch of it is one, dots at its ends aside. */
  lemma ContainsRawIpExactly(s: string, isIP: string -> bool)
    requires !isIP("")
    ensures ContainsRawIp(s, isIP) <==> exists token :: IsStretch(s, token) && isIP(TrimDots(token))
  {
    hide TrimDots, Tokens, IsStretch;
    NoDots();
    forall token | token != "" ensures token in Tokens(s) <==> IsStretch(s, token) { TokensExactly(s, token); }
    forall token | IsStretch(s, token) ensures token != "" { StretchNotEmpty(s, token); }
  }

  lemma NoDots()
    ensures TrimDots("") == ""
  {
  }

  lemma StretchNotEmpty(s: string, token: string)
    requires IsStretch(s, token)
    ensures token != ""
  {
    hide IsDelimiter;
  }

  /** The delimiters by code: ASCII white space, brackets, quotes and separators; no dot, colon, digit or letter. */
  lemma DelimiterExactly(c: char)
    ensures IsDelimiter(c)
            <==> 9 <= c as int <= 13
                 || c as int in {32, 34, 39, 40, 41, 44, 47, 59, 60, 62, 91, 92, 93, 95, 96, 123, 124, 125}
  {
  }

  /** An address between delimiters is found wherever it stands in a text. */
  lemma AddressIsFound(before: string, open: char, address: string, close: char, after: string, isIP: string -> bool)
    requires IsDelimiter(open) && IsDelimiter(close) && Undelimited(address) && !isIP("") && isIP(address)
    requires address != "" && address[0] != '.' && address[|address| - 1] != '.'
    ensures ContainsRawIp(before + [open] + address + [close] + after, isIP)
  {
    hide IsDelimiter;
    var s, low := before + [open] + address + [close] + after, |before| + 1;
    assert s[low - 1] == open && s[low + |address|] == close;
    assert s[low..low + |address|] == address;
    assert StretchAt(s, low, address);
    ContainsRawIpExactly(s, isIP);
    assert TrimDots(address) == address;
  }

  predicate Dots(s: string) {
    forall i :: 0 <= i < |s| ==> s[i] == '.'
  }

  /** Only the dots at the ends are dropped, and all of them. */
  lemma {:induction false} TrimDotsExactly(s: string) returns (before: string, after: string)
    ensures Dots(before) && Dots(after) && s == before + TrimDots(s) + after
    ensures TrimDots(s) != "" ==> TrimDots(s)[0] != '.' && TrimDots(s)[|TrimDots(s)| - 1] != '.'
    decreases |s|
  {
    before, after := "", "";
    if s != "" && s[0] == '.' {
      before, after := TrimDotsExactly(s[1..]);
      assert s == ['.'] + s[1..];
      before := ['.'] + before;
    } else if s != "" && s[|s| - 1] == '.' {
      before, after := TrimDotsExactly(s[..|s| - 1]);
      assert s == s[..|s| - 1] + ['.'];
      after := after + ['.'];
    }
  }

  // ----- The target of a dispatch

  lemma SpaceExactly(c: char)
    ensures IsSpace(c) <==> 9 <= c as int <= 13 || c as int == 32
  {
  }

  predicate Blank(s: string) {
    forall i :: 0 <= i < |s| ==> IsSpace(s[i])
  }

  predicate NoMargins(s: string) {
    s != "" ==> !IsSpace(s[0]) && !IsSpace(s[|s| - 1])
  }

  lemma {:induction false} TrimIs(before: string, core: string, after: string)
    requires Blank(before) && Blank(after) && core != "" && NoMargins(core)
    ensures Trim(before + core + after) == core
    decreases |before| + |after|
  {
    hide IsSpace;
    var s := before + core + after;
    if before != "" {
      TrimIs(before[1..], core, after);
      assert s[1..] == before[1..] + core + after;
    } else if after != "" {
      TrimIs(before, core, after[..|after| - 1]);
      assert s[..|s| - 1] == before + core + after[..|after| - 1];
      assert s[0] == core[0] && s[|s| - 1] == after[|after| - 1];
    }
  }

  lemma {:induction false} TrimReads(s: string) returns (before: string, after: string)
    ensures Blank(before) && Blank(after) && NoMargins(Trim(s)) && s == before + Trim(s) + after
    decreases |s|
  {
    hide IsSpace;
    before, after := "", "";
    if s != "" && IsSpace(s[0]) {
      before, after := TrimReads(s[1..]);
      before := [s[0]] + before;
    } else if s != "" && IsSpace(s[|s| - 1]) {
      before, after := TrimReads(s[..|s| - 1]);
      after := after + [s[|s| - 1]];
    }
  }

  /** A database is a target exactly when its name, spaces around it and case aside, is a non-production one. */
  lemma NonProdTargetExactly(database: string, target: string)
    ensures NonProdTarget(Some(database)) == Some(target)
            <==> && (target == "ROASTPILOT_PREVIEW" || target == "ROASTPILOT_DEV")
                 && exists before, core, after :: Blank(before) && Blank(after)
                      && database == before + core + after && SqlText.Upper(core) == target
  {
    hide Trim, IsSpace;
    if NonProdTarget(Some(database)) == Some(target) {
      var before, after := TrimReads(database);
    }
    if (target == "ROASTPILOT_PREVIEW" || target == "ROASTPILOT_DEV")
       && exists before, core, after :: Blank(before) && Blank(after)
            && database == before + core + after && SqlText.Upper(core) == target {
      var before, core, after :| Blank(before) && Blank(after) && database == before + core + after
                                 && SqlText.Upper(core) == target;
      assert SqlText.Upper(core)[0] == 'R' && |core| == |target|;
      TargetCore(core, target);
      TrimIs(before, core, after);
    }
  }

  lemma TargetCore(core: string, target: string)
    requires SqlText.Upper(core) == target && (target == "ROASTPILOT_PREVIEW" || target == "ROASTPILOT_DEV")
    ensures core != "" && NoMargins(core)
  {
    var last := |core| - 1;
    assert target[0] == SqlText.UpperChar(core[0]) && target[last] == SqlText.UpperChar(core[last]);
  }

  /** No variable, no target. */
  lemma NoDatabaseNoTarget()
    ensures NonProdTarget(None) == None
  {
  }
}
