/** The live validator's own sampling of telemetry, and its agreement with the web application's. */
module LiveSample {
  import opened Wrappers
  import opened Sequences
  import opened IsoTime
  import opened JsonTrees
  import opened SeedTypes
  import opened SeedDispatch
  import opened SeedArtifact
  import opened NearestSample
  import opened NearestExact
  import opened LiveSpread

  datatype LiveError = NotANumber | NotATimestamp | SummaryNotAnObject

  /** `datetime` reading of a timestamp, in whole milliseconds rounded down. */
  function EpochMilliseconds(j: Json): Option<int> {
    if PyInstant(j).Some? then Some(PyInstant(j).value / 1000) else None
  }

  function OffsetSeconds(summary: Record, anchor: string): Result<Option<real>, LiveError> {
    var value := Get(summary, anchor);
    if value == JNull then Success(None) else
      var start, end := EpochMilliseconds(Get(summary, "started_at_utc")), EpochMilliseconds(value);
      if start.None? || end.None? then Failure(NotATimestamp)
      else Success(Some((end.value - start.value) as real / 1000.0))
  }

  // ----- One sample

  predicate Own(row: Record, roastId: Json) {
    Get(row, Name(RoastId)) == roastId
  }

  predicate Readable(row: Record) {
    && Get(row, Name(ElapsedS)).JNum?
    && (Get(row, Name(BeanTempC)) == JNull || Get(row, Name(BeanTempC)).JNum?)
  }

  /** The comparison key: distance, elapsed, null rank, bean temperature. */
  datatype SampleKey = SampleKey(distance: real, elapsed: real, noBean: bool, bean: real)

  function KeyOf(row: Record, offset: real): SampleKey
    requires Readable(row)
  {
    var elapsed, bean := Get(row, Name(ElapsedS)).n, Get(row, Name(BeanTempC));
    SampleKey(Abs(elapsed - offset), elapsed, bean == JNull, if bean == JNull then 0.0 else bean.n)
  }

  predicate KeyLess(a: SampleKey, b: SampleKey) {
    || a.distance < b.distance
    || (a.distance == b.distance
        && (|| a.elapsed < b.elapsed
            || (a.elapsed == b.elapsed && ((!a.noBean && b.noBean) || (a.noBean == b.noBean && a.bean < b.bean)))))
  }

  predicate ReadableUpTo(telemetry: seq<Record>, n: nat, roastId: Json)
    requires n <= |telemetry|
  {
    forall j :: 0 <= j < n && Own(telemetry[j], roastId) ==> Readable(telemetry[j])
  }

  /** The position that `min` picks among the own rows of the first `n`. */
  function BestUpTo(telemetry: seq<Record>, n: nat, roastId: Json, offset: real): (best: Option<nat>)
    requires n <= |telemetry| && ReadableUpTo(telemetry, n, roastId)
    ensures best.Some? ==> best.value < n && Own(telemetry[best.value], roastId)
  {
    if n == 0 then None else
      var best := BestUpTo(telemetry, n - 1, roastId, offset);
      if Own(telemetry[n - 1], roastId)
         && (best.None? || KeyLess(KeyOf(telemetry[n - 1], offset), KeyOf(telemetry[best.value], offset)))
      then Some(n - 1) else best
  }

  function CellNumber(row: Record, c: Column): Result<Option<real>, LiveError> {
    var value := Get(row, Name(c));
    if value == JNull then Success(None) else if value.JNum? then Success(Some(value.n)) else Failure(NotANumber)
  }

  function SampleOf(roastId: Json, telemetry: seq<Record>, offset: Option<real>, c: Column)
      : Result<Option<real>, LiveError>
  {
    if offset.None? then Success(None)
    else if !ReadableUpTo(telemetry, |telemetry|, roastId) then Failure(NotANumber)
    else match BestUpTo(telemetry, |telemetry|, roastId, offset.value)
         case None => Success(None)
         case Some(k) => CellNumber(telemetry[k], c)
  }

  method Sample(roastId: Json, telemetry: seq<Record>, offset: Option<real>, c: Column)
    returns (result: Result<Option<real>, LiveError>)
    ensures result == SampleOf(roastId, telemetry, offset, c)
  {
    hide Get, Name, Readable, KeyOf, KeyLess, CellNumber, Own, SampleOf;
    SampleCases(roastId, telemetry, offset, c);
    if offset.None? { return Success(None); }
    var best: Option<nat> := None;
    for i := 0 to |telemetry|
      invariant ReadableUpTo(telemetry, i, roastId) && best == BestUpTo(telemetry, i, roastId, offset.value)
    {
      if Own(telemetry[i], roastId) {
        if !Readable(telemetry[i]) { return Failure(NotANumber); }
        if best.None? || KeyLess(KeyOf(telemetry[i], offset.value), KeyOf(telemetry[best.value], offset.value)) {
          best := Some(i);
        }
      }
    }
    if best.None? { return Success(None); }
    result := CellNumber(telemetry[best.value], c);
  }

  lemma SampleCases(roastId: Json, telemetry: seq<Record>, offset: Option<real>, c: Column)
    ensures offset.None? ==> SampleOf(roastId, telemetry, offset, c) == Success(None)
    ensures offset.Some? && !ReadableUpTo(telemetry, |telemetry|, roastId) ==>
            SampleOf(roastId, telemetry, offset, c) == Failure(NotANumber)
    ensures offset.Some? && ReadableUpTo(telemetry, |telemetry|, roastId) ==>
              var best := BestUpTo(telemetry, |telemetry|, roastId, offset.value);
              SampleOf(roastId, telemetry, offset, c)
                == if best.None? then Success(None) else CellNumber(telemetry[best.value], c)
  {
    hide ReadableUpTo, BestUpTo, CellNumber;
  }

  /** The first of the least own rows among the first `n`. */
  predicate IsSelected(telemetry: seq<Record>, n: nat, roastId: Json, offset: real, k: nat)
    requires n <= |telemetry| && ReadableUpTo(telemetry, n, roastId)
  {
    && k < n && Own(telemetry[k], roastId)
    && (forall j :: 0 <= j < n && Own(telemetry[j], roastId) ==>
        !KeyLess(KeyOf(telemetry[j], offset), KeyOf(telemetry[k], offset)))
    && (forall j :: 0 <= j < k && Own(telemetry[j], roastId) ==>
        KeyLess(KeyOf(telemetry[k], offset), KeyOf(telemetry[j], offset)))
  }

  /** What is picked is the first own row with the least key, whenever the roast has a row. */
  lemma {:induction false} BestIsSelected(telemetry: seq<Record>, n: nat, roastId: Json, offset: real)
    requires n <= |telemetry| && ReadableUpTo(telemetry, n, roastId)
    ensures BestUpTo(telemetry, n, roastId, offset).None? <==> forall j :: 0 <= j < n ==> !Own(telemetry[j], roastId)
    ensures BestUpTo(telemetry, n, roastId, offset).Some? ==>
              IsSelected(telemetry, n, roastId, offset, BestUpTo(telemetry, n, roastId, offset).value)
  {
    hide Get, Name, Readable, KeyOf, Own, KeyLess;
    if n > 0 {
      BestIsSelected(telemetry, n - 1, roastId, offset);
      var best := BestUpTo(telemetry, n - 1, roastId, offset);
      if best.Some? && Own(telemetry[n - 1], roastId) { KeyOrder(telemetry, n - 1, roastId, offset, best.value); }
      if Own(telemetry[n - 1], roastId) { KeyIrreflexive(KeyOf(telemetry[n - 1], offset)); }
    }
  }

  predicate Has(row: Record, key: string) {
    Get(row, key) != JNull
  }

  /** A row goes before another when it is nearer; then earlier; then with a bean reading; then with the lower one. */
  lemma KeyOrderExactly(a: Record, b: Record, offset: real)
    requires Readable(a) && Readable(b)
    ensures Get(a, "elapsed_s").JNum? && Get(b, "elapsed_s").JNum?
    ensures var x, y := Get(a, "elapsed_s").n, Get(b, "elapsed_s").n;
            KeyLess(KeyOf(a, offset), KeyOf(b, offset))
            <==> || Abs(x - offset) < Abs(y - offset)
                 || (Abs(x - offset) == Abs(y - offset) && x < y)
                 || (x == y && Has(a, "bean_temp_c") && !Has(b, "bean_temp_c"))
                 || (x == y && Get(a, "bean_temp_c").JNum? && Get(b, "bean_temp_c").JNum?
                     && Get(a, "bean_temp_c").n < Get(b, "bean_temp_c").n)
  {
    hide Get;
  }

  lemma KeyIrreflexive(a: SampleKey)
    ensures !KeyLess(a, a)
  {
  }

  lemma KeyOrder(telemetry: seq<Record>, i: nat, roastId: Json, offset: real, best: nat)
    requires i < |telemetry| && ReadableUpTo(telemetry, i + 1, roastId) && Own(telemetry[i], roastId)
    requires IsSelected(telemetry, i, roastId, offset, best)
    ensures KeyLess(KeyOf(telemetry[i], offset), KeyOf(telemetry[best], offset)) ==>
              forall j :: 0 <= j < i && Own(telemetry[j], roastId) ==>
                KeyLess(KeyOf(telemetry[i], offset), KeyOf(telemetry[j], offset))
                && !KeyLess(KeyOf(telemetry[j], offset), KeyOf(telemetry[i], offset))
  {
    hide Get, Name, Readable, KeyOf, Own;
    if KeyLess(KeyOf(telemetry[i], offset), KeyOf(telemetry[best], offset)) {
      forall j | 0 <= j < i && Own(telemetry[j], roastId)
        ensures KeyLess(KeyOf(telemetry[i], offset), KeyOf(telemetry[j], offset))
        ensures !KeyLess(KeyOf(telemetry[j], offset), KeyOf(telemetry[i], offset))
      {
        KeyTransitive(KeyOf(telemetry[i], offset), KeyOf(telemetry[best], offset), KeyOf(telemetry[j], offset));
      }
    }
  }

  lemma KeyTransitive(a: SampleKey, b: SampleKey, c: SampleKey)
    requires KeyLess(a, b) && !KeyLess(c, b)
    ensures KeyLess(a, c)
  {
  }

  // ----- Agreement

  /** The same offset on both sides: milliseconds, further fraction digits dropped. */
  lemma OffsetsAgree(summary: Record, anchor: string, eventAt: string, startedAt: string)
    requires Get(summary, anchor) == JStr(eventAt) && Get(summary, "started_at_utc") == JStr(startedAt)
    requires StrictIso(eventAt) && StrictIso(startedAt)
    ensures EventElapsed(eventAt, startedAt).Some?
            && OffsetSeconds(summary, anchor) == Success(EventElapsed(eventAt, startedAt))
  {
    hide StrictIso, DateParse, EpochMicroseconds, Get;
    StrictIsoHasInstant(eventAt);
    StrictIsoHasInstant(startedAt);
  }

  function AsCurveSample(row: Record): CurveSample
    requires Readable(row)
  {
    var bean := Get(row, Name(BeanTempC));
    CurveSample(Some(Fin(Get(row, Name(ElapsedS)).n)), if bean == JNull then None else Some(bean.n))
  }

  /** The curve shows exactly the roast's own telemetry rows, in any order. */
  ghost predicate ShowsOwnRows(curve: seq<CurveSample>, telemetry: seq<Record>, roastId: Json)
    requires ReadableUpTo(telemetry, |telemetry|, roastId)
  {
    && (forall s :: s in curve ==>
        exists j :: 0 <= j < |telemetry| && Own(telemetry[j], roastId) && s == AsCurveSample(telemetry[j]))
    && (forall j :: 0 <= j < |telemetry| && Own(telemetry[j], roastId) ==> AsCurveSample(telemetry[j]) in curve)
  }

  lemma SelectedIsKept(curve: seq<CurveSample>, telemetry: seq<Record>, roastId: Json, offset: real, k: nat)
    requires ReadableUpTo(telemetry, |telemetry|, roastId) && ShowsOwnRows(curve, telemetry, roastId)
    requires Unambiguous(curve, offset) && ElapsedDistinct(curve)
    requires IsSelected(telemetry, |telemetry|, roastId, offset, k)
    ensures Usable(AsCurveSample(telemetry[k]))
    ensures Streamed(curve, |curve|, offset) == Some(AsNearest(AsCurveSample(telemetry[k]), offset))
  {
    hide Get, Name, Own, Streamed, Unambiguous, Readable, KeyOf, AsCurveSample, Usable, Elapsed, Distance;
    var mine := AsCurveSample(telemetry[k]);
    var i :| 0 <= i < |curve| && curve[i] == mine by { assert mine in curve; }
    KeyMatches(telemetry[k], offset);
    SomeUsable(curve, |curve|, i);
    var m := StreamedIsLeast(curve, offset);
    assert curve[m] in curve;
    var j :| 0 <= j < |telemetry| && Own(telemetry[j], roastId) && curve[m] == AsCurveSample(telemetry[j]);
    KeyMatches(telemetry[j], offset);
    if Elapsed(curve[i]) == Elapsed(curve[m]) { assert i == m; }
  }

  lemma KeyMatches(row: Record, offset: real)
    requires Readable(row)
    ensures Usable(AsCurveSample(row))
    ensures KeyOf(row, offset).distance == Distance(AsCurveSample(row), offset)
            && KeyOf(row, offset).elapsed == Elapsed(AsCurveSample(row))
  {
    hide Get, Name;
  }

  lemma CellIsTemperature(row: Record)
    requires Readable(row)
    ensures CellNumber(row, BeanTempC) == Success(AsCurveSample(row).beanTempC)
  {
    hide Get, Name;
  }

  /** Both lookups return the same bean temperature, or none, on unambiguous curves with distinct elapsed times. */
  lemma LookupsAgree(curve: seq<CurveSample>, telemetry: seq<Record>, roastId: Json, offset: real)
    requires ReadableUpTo(telemetry, |telemetry|, roastId) && ShowsOwnRows(curve, telemetry, roastId)
    requires Unambiguous(curve, offset) && ElapsedDistinct(curve)
    ensures SampleOf(roastId, telemetry, Some(offset), BeanTempC)
            == Success(TemperatureOf(Streamed(curve, |curve|, offset)))
  {
    hide Get, Name, Own, Streamed, Unambiguous, ElapsedDistinct, Readable, IsSelected, CellNumber, ReadableUpTo;
    BestIsSelected(telemetry, |telemetry|, roastId, offset);
    var best := BestUpTo(telemetry, |telemetry|, roastId, offset);
    assert forall i :: 0 <= i < |curve| ==> curve[i] in curve;
    if best.None? {
      StreamedIsSample(curve, |curve|, offset);
    } else {
      OwnReadable(telemetry, roastId, best.value);
      SelectedIsKept(curve, telemetry, roastId, offset, best.value);
      CellIsTemperature(telemetry[best.value]);
    }
  }

  lemma OwnReadable(telemetry: seq<Record>, roastId: Json, k: nat)
    requires ReadableUpTo(telemetry, |telemetry|, roastId) && k < |telemetry| && Own(telemetry[k], roastId)
    ensures Readable(telemetry[k])
  {
    hide Readable, Own;
  }

  // ----- Groups

  predicate Member(roast: Record, origin: string, level: string) {
    && Get(roast, Name(BeanOrigin)) == JStr(origin) && Get(roast, Name(RoastLevel)) == JStr(level)
    && Get(roast, Name(ContributedToLearning)) == JBool(true)
  }

  /** A group's members, by the keys of the table: its origin, its level, and contributing. */
  lemma MemberReads(roast: Record, origin: string, level: string)
    ensures Member(roast, origin, level)
            <==> && Get(roast, "bean_origin") == JStr(origin) && Get(roast, "roast_level") == JStr(level)
                 && Get(roast, "contributed_to_learning") == JBool(true)
  {
    hide Get;
  }

  function Members(roasts: seq<Record>, origin: string, level: string): seq<Record> {
    Filter((roast: Record) => Member(roast, origin, level), roasts)
  }

  const DROP_ANCHOR := "beans_dropped_at_utc"

  /** One roast's sample at an anchor of its summary. */
  function RoastSample(roast: Record, telemetry: seq<Record>, anchor: string, c: Column)
      : Result<Option<real>, LiveError>
  {
    var summary := Get(roast, Name(Summary));
    if !summary.JObj? then Failure(SummaryNotAnObject) else
      match OffsetSeconds(summary.fields, anchor)
      case Failure(e) => Failure(e)
      case Success(offset) => SampleOf(Get(roast, Name(Id)), telemetry, offset, c)
  }

  /** A roast's sample at an event is the temperature that the page finds for the same curve and event. */
  lemma RoastSampleIsNearest(roast: Record, telemetry: seq<Record>, curve: seq<CurveSample>, summary: Record,
                             anchor: string, eventAt: string, startedAt: string)
    requires Get(roast, "summary") == JObj(summary) && StrictIso(eventAt) && StrictIso(startedAt)
    requires Get(summary, anchor) == JStr(eventAt) && Get(summary, "started_at_utc") == JStr(startedAt)
    requires ReadableUpTo(telemetry, |telemetry|, Get(roast, "id"))
    requires ShowsOwnRows(curve, telemetry, Get(roast, "id")) && ElapsedDistinct(curve)
    requires EventElapsed(eventAt, startedAt).Some? ==> Unambiguous(curve, EventElapsed(eventAt, startedAt).value)
    ensures EventElapsed(eventAt, startedAt).Some?
    ensures RoastSample(roast, telemetry, anchor, BeanTempC)
            == Success(TemperatureOf(Streamed(curve, |curve|, EventElapsed(eventAt, startedAt).value)))
  {
    hide Get, StrictIso, EventElapsed, OffsetSeconds, SampleOf, Streamed, Unambiguous, ElapsedDistinct, ShowsOwnRows,
      ReadableUpTo;
    OffsetsAgree(summary, anchor, eventAt, startedAt);
    LookupsAgree(curve, telemetry, Get(roast, "id"), EventElapsed(eventAt, startedAt).value);
  }

  method SampleRoast(roast: Record, telemetry: seq<Record>, anchor: string, c: Column)
    returns (result: Result<Option<real>, LiveError>)
    requires Get(roast, Name(Summary)).JObj?
    ensures result == RoastSample(roast, telemetry, anchor, c)
  {
    hide Get, Name, OffsetSeconds, SampleOf;
    var offset := OffsetSeconds(Get(roast, Name(Summary)).fields, anchor);
    if offset.Failure? { return Failure(offset.error); }
    result := Sample(Get(roast, Name(Id)), telemetry, offset.value, c);
  }

  // ----- Members' samples

  /** The sampled values, one for each member, in order. */
  function Values(members: seq<Record>, telemetry: seq<Record>, anchor: string, c: Column): (values: seq<Option<real>>)
    ensures |values| == |members|
  {
    if members == [] then [] else
      var last := RoastSample(members[|members| - 1], telemetry, anchor, c);
      Values(members[..|members| - 1], telemetry, anchor, c) + [if last.Success? then last.value else None]
  }

  /** Each value is its own member's sample. */
  lemma {:induction false} ValuesAt(members: seq<Record>, telemetry: seq<Record>, anchor: string, c: Column, i: nat)
    requires i < |members| && RoastSample(members[i], telemetry, anchor, c).Success?
    ensures Values(members, telemetry, anchor, c)[i] == RoastSample(members[i], telemetry, anchor, c).value
  {
    hide RoastSample;
    if i < |members| - 1 { ValuesAt(members[..|members| - 1], telemetry, anchor, c, i); }
  }

  predicate Derivable(roast: Record, telemetry: seq<Record>, anchor: string, fcColumn: Column, dropColumn: Column) {
    && RoastSample(roast, telemetry, anchor, fcColumn).Success?
    && RoastSample(roast, telemetry, DROP_ANCHOR, dropColumn).Success?
  }

  lemma MembersStep(roasts: seq<Record>, i: nat, origin: string, level: string)
    requires i < |roasts|
    ensures Members(roasts[..i + 1], origin, level)
            == if Member(roasts[i], origin, level) then Members(roasts[..i], origin, level) + [roasts[i]]
               else Members(roasts[..i], origin, level)
  {
    hide Member;
    assert roasts[..i + 1][..i] == roasts[..i];
  }

  lemma ValuesStep(members: seq<Record>, roast: Record, telemetry: seq<Record>, anchor: string, c: Column)
    requires RoastSample(roast, telemetry, anchor, c).Success?
    ensures Values(members + [roast], telemetry, anchor, c)
            == Values(members, telemetry, anchor, c) + [RoastSample(roast, telemetry, anchor, c).value]
  {
    hide RoastSample;
    assert (members + [roast])[..|members|] == members;
  }

  lemma DerivableIs(roast: Record, telemetry: seq<Record>, anchor: string, fcColumn: Column, dropColumn: Column)
    ensures Derivable(roast, telemetry, anchor, fcColumn, dropColumn)
            <==> RoastSample(roast, telemetry, anchor, fcColumn).Success?
                 && RoastSample(roast, telemetry, DROP_ANCHOR, dropColumn).Success?
  {
    hide RoastSample;
  }

  method SampleBoth(roast: Record, telemetry: seq<Record>, fcColumn: Column, dropColumn: Column, fcAnchor: string)
    returns (result: Result<(Option<real>, Option<real>), LiveError>)
    ensures result.Success? <==> Derivable(roast, telemetry, fcAnchor, fcColumn, dropColumn)
    ensures result.Success? ==>
              && RoastSample(roast, telemetry, fcAnchor, fcColumn) == Success(result.value.0)
              && RoastSample(roast, telemetry, DROP_ANCHOR, dropColumn) == Success(result.value.1)
  {
    hide *;
    DerivableIs(roast, telemetry, fcAnchor, fcColumn, dropColumn);
    if !Get(roast, Name(Summary)).JObj? {
      NotAnObject(roast, telemetry, fcAnchor, fcColumn);
      return Failure(SummaryNotAnObject);
    }
    var atCrack := SampleRoast(roast, telemetry, fcAnchor, fcColumn);
    if atCrack.Failure? { return Failure(atCrack.error); }
    var atDrop := SampleRoast(roast, telemetry, DROP_ANCHOR, dropColumn);
    if atDrop.Failure? { return Failure(atDrop.error); }
    result := Success((atCrack.value, atDrop.value));
  }

  /** A group's aggregates sample exactly its contributing roasts, once each and in order. */
  method DeriveGroup(roasts: seq<Record>, telemetry: seq<Record>, origin: string, level: string,
                     fcColumn: Column, dropColumn: Column, fcAnchor: string, sqrt: real -> real)
    returns (result: Result<(Spread, Spread), LiveError>)
    ensures result.Success? <==>
              forall roast :: roast in Members(roasts, origin, level) ==>
                Derivable(roast, telemetry, fcAnchor, fcColumn, dropColumn)
    ensures result.Success? ==>
              var members := Members(roasts, origin, level);
              result.value == (MeanStddev(Values(members, telemetry, fcAnchor, fcColumn), sqrt),
                               MeanStddev(Values(members, telemetry, "beans_dropped_at_utc", dropColumn), sqrt))
    ensures result.Success? && IsRoot(sqrt) ==>
              var members := Members(roasts, origin, level);
              && IsSpread(result.value.0, Values(members, telemetry, fcAnchor, fcColumn))
              && IsSpread(result.value.1, Values(members, telemetry, "beans_dropped_at_utc", dropColumn))
  {
    hide Member, RoastSample, Get, Name, MeanStddev, Members, Values, Derivable, IsSpread, IsRoot;
    var fc: seq<Option<real>>, drop: seq<Option<real>> := [], [];
    MembersNone(origin, level);
    NoValues(telemetry, fcAnchor, fcColumn);
    NoValues(telemetry, DROP_ANCHOR, dropColumn);
    assert roasts[..0] == [];
    for i := 0 to |roasts|
      invariant fc == Values(Members(roasts[..i], origin, level), telemetry, fcAnchor, fcColumn)
      invariant drop == Values(Members(roasts[..i], origin, level), telemetry, DROP_ANCHOR, dropColumn)
      invariant forall roast :: roast in Members(roasts[..i], origin, level) ==>
                Derivable(roast, telemetry, fcAnchor, fcColumn, dropColumn)
    {
      MembersStep(roasts, i, origin, level);
      if Member(roasts[i], origin, level) {
        MemberListed(roasts, i, origin, level);
        var both := SampleBoth(roasts[i], telemetry, fcColumn, dropColumn, fcAnchor);
        if both.Failure? { return Failure(both.error); }
        ValuesStep(Members(roasts[..i], origin, level), roasts[i], telemetry, fcAnchor, fcColumn);
        ValuesStep(Members(roasts[..i], origin, level), roasts[i], telemetry, DROP_ANCHOR, dropColumn);
        fc := fc + [both.value.0];
        drop := drop + [both.value.1];
      }
    }
    assert roasts[..|roasts|] == roasts;
    if IsRoot(sqrt) {
      SpreadMeans(fc, sqrt);
      SpreadMeans(drop, sqrt);
    }
    result := Success((MeanStddev(fc, sqrt), MeanStddev(drop, sqrt)));
  }

  lemma NoValues(telemetry: seq<Record>, anchor: string, c: Column)
    ensures Values([], telemetry, anchor, c) == []
  {
  }

  lemma NotAnObject(roast: Record, telemetry: seq<Record>, anchor: string, c: Column)
    requires !Get(roast, Name(Summary)).JObj?
    ensures RoastSample(roast, telemetry, anchor, c).Failure?
  {
    hide Get, Name;
  }

  lemma MembersNone(origin: string, level: string)
    ensures Members([], origin, level) == []
  {
  }

  lemma MemberListed(roasts: seq<Record>, i: nat, origin: string, level: string)
    requires i < |roasts| && Member(roasts[i], origin, level)
    ensures roasts[i] in Members(roasts, origin, level)
  {
    hide Member;
  }
}
