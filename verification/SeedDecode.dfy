/** Reading the dispatched artifact back into typed output, key by key. */
module SeedDecode {
  import opened Wrappers
  import opened Sequences
  import opened JsonTrees
  import opened SeedTypes
  import opened SeedDispatch
  import opened SeedPipeline

  // ----- Reading one property

  function TextAt(r: Record, key: string): Option<string> {
    if Get(r, key).JStr? then Some(Get(r, key).s) else None
  }

  function TextOf(r: Record, key: string): string {
    TextAt(r, key).GetOr("")
  }

  function NumberAt(r: Record, key: string): Option<Num> {
    if Get(r, key).JNum? then Some(Fin(Get(r, key).n)) else None
  }

  function NumberOf(r: Record, key: string): Num {
    NumberAt(r, key).GetOr(NotFinite)
  }

  // ----- Reading one record

  function ReadRoast(r: Record): CloudRoast {
    CloudRoast(
      TextAt(r, "id"), TextOf(r, "idempotency_key"), TextAt(r, "owner_id"), TextOf(r, "public_slug"),
      TextOf(r, "visibility"), TextAt(r, "bean_origin"), TextAt(r, "bean_varietal"), NumberAt(r, "bean_weight_g"),
      TextAt(r, "profile_name"), TextAt(r, "roast_level"), Get(r, "summary"), NumberAt(r, "operator_rating"),
      TextAt(r, "operator_notes"), Get(r, "contributed_to_learning") == JBool(true), TextAt(r, "roasted_at_utc"),
      TextOf(r, "created_at"), TextOf(r, "updated_at"))
  }

  function ReadTelemetry(r: Record): Telemetry {
    Telemetry(
      TextOf(r, "roast_id"), NumberOf(r, "elapsed_s"), NumberAt(r, "bean_temp_c"), NumberAt(r, "env_temp_c"),
      NumberAt(r, "heat_percent"), NumberAt(r, "fan_percent"), NumberAt(r, "ror_c_per_min"), Get(r, "raw"))
  }

  function ReadArtifact(r: Record): Artifact {
    Artifact(
      TextAt(r, "id"), TextOf(r, "roast_id"), TextOf(r, "kind"), TextOf(r, "stage_path"), NumberAt(r, "byte_size"),
      TextOf(r, "created_at"))
  }

  function ReadReview(r: Record): Review {
    Review(
      TextAt(r, "id"), TextOf(r, "roast_id"), TextAt(r, "reviewer_name"), NumberOf(r, "score"), NumberAt(r, "aroma"),
      NumberAt(r, "acidity"), NumberAt(r, "sweetness"), NumberAt(r, "body"), NumberAt(r, "aftertaste"),
      TextAt(r, "brew_method"), TextAt(r, "notes"), TextAt(r, "submitted_ip_hash"), TextOf(r, "created_at"))
  }

  function ReadSummary(r: Record): ReferenceSummary {
    ReferenceSummary(
      TextAt(r, "id"), TextOf(r, "bean_origin"), TextOf(r, "roast_level"), NumberOf(r, "roast_count"),
      NumberOf(r, "review_count"), NumberAt(r, "avg_rating"), NumberAt(r, "first_crack_temp_avg_c"),
      NumberAt(r, "first_crack_temp_stddev_c"), NumberAt(r, "drop_temp_avg_c"), NumberAt(r, "drop_temp_stddev_c"),
      NumberAt(r, "development_percent_avg"), NumberAt(r, "first_crack_time_avg_s"),
      NumberAt(r, "total_time_avg_s"), Get(r, "key_patterns"), TextOf(r, "updated_at"))
  }

  // ----- What survives

  /** JSON has no number for NaN or an infinity, so an optional one of these comes back as missing. */
  predicate Written(v: Option<Num>) {
    v != Some(NotFinite)
  }

  predicate RoastWritten(r: CloudRoast) {
    Written(r.beanWeightG) && Written(r.operatorRating)
  }

  predicate TelemetryWritten(r: Telemetry) {
    Written(r.beanTempC) && Written(r.envTempC) && Written(r.heatPercent) && Written(r.fanPercent)
    && Written(r.rorCPerMin)
  }

  predicate ReviewWritten(r: Review) {
    Written(r.aroma) && Written(r.acidity) && Written(r.sweetness) && Written(r.body) && Written(r.aftertaste)
  }

  predicate SummaryWritten(r: ReferenceSummary) {
    && Written(r.avgRating) && Written(r.firstCrackTempAvgC) && Written(r.firstCrackTempStddevC)
    && Written(r.dropTempAvgC) && Written(r.dropTempStddevC) && Written(r.developmentPercentAvg)
    && Written(r.firstCrackTimeAvgS) && Written(r.totalTimeAvgS)
  }

  lemma NumberReads(r: Record, key: string, v: Option<Num>)
    requires Get(r, key) == NumberCell(v)
    ensures NumberAt(r, key) == v <==> Written(v)
    ensures v.Some? ==> NumberOf(r, key) == v.value
  {
  }

  // ----- Roasts

  lemma RoastFirstListed()
    ensures Id in Columns(CloudRoasts) && IdempotencyKey in Columns(CloudRoasts) && OwnerId in Columns(CloudRoasts)
            && PublicSlug in Columns(CloudRoasts) && Visibility in Columns(CloudRoasts)
            && BeanOrigin in Columns(CloudRoasts)
  {
  }

  lemma RoastFirstNames()
    ensures Name(Id) == "id" && Name(IdempotencyKey) == "idempotency_key" && Name(OwnerId) == "owner_id"
            && Name(PublicSlug) == "public_slug" && Name(Visibility) == "visibility"
            && Name(BeanOrigin) == "bean_origin"
  {
  }

  lemma RoastFirstCells(r: CloudRoast)
    ensures RoastCell(r, Id) == TextCell(r.id) && RoastCell(r, IdempotencyKey) == JStr(r.idempotencyKey)
            && RoastCell(r, OwnerId) == TextCell(r.ownerId) && RoastCell(r, PublicSlug) == JStr(r.publicSlug)
            && RoastCell(r, Visibility) == JStr(r.visibility) && RoastCell(r, BeanOrigin) == TextCell(r.beanOrigin)
  {
    hide TextCell, NumberCell;
  }

  lemma RoastFirstHolds(r: CloudRoast)
    ensures Get(RoastRecord(r), "id") == TextCell(r.id)
            && Get(RoastRecord(r), "idempotency_key") == JStr(r.idempotencyKey)
            && Get(RoastRecord(r), "owner_id") == TextCell(r.ownerId)
            && Get(RoastRecord(r), "public_slug") == JStr(r.publicSlug)
            && Get(RoastRecord(r), "visibility") == JStr(r.visibility)
            && Get(RoastRecord(r), "bean_origin") == TextCell(r.beanOrigin)
  {
    hide Name, Columns, RoastCell, Get, RoastRecord, TextCell,
      NumberCell;
    RoastFirstListed();
    RoastFirstNames();
    RoastFirstCells(r);
    RoastRecordCell(r, Id);
    RoastRecordCell(r, IdempotencyKey);
    RoastRecordCell(r, OwnerId);
    RoastRecordCell(r, PublicSlug);
    RoastRecordCell(r, Visibility);
    RoastRecordCell(r, BeanOrigin);
  }

  lemma RoastMiddleListed()
    ensures BeanVarietal in Columns(CloudRoasts) && BeanWeightG in Columns(CloudRoasts)
            && ProfileName in Columns(CloudRoasts) && RoastLevel in Columns(CloudRoasts)
            && Summary in Columns(CloudRoasts) && OperatorRating in Columns(CloudRoasts)
  {
  }

  lemma RoastMiddleNames()
    ensures Name(BeanVarietal) == "bean_varietal" && Name(BeanWeightG) == "bean_weight_g"
            && Name(ProfileName) == "profile_name" && Name(RoastLevel) == "roast_level" && Name(Summary) == "summary"
            && Name(OperatorRating) == "operator_rating"
  {
  }

  lemma RoastMiddleCells(r: CloudRoast)
    ensures RoastCell(r, BeanVarietal) == TextCell(r.beanVarietal)
            && RoastCell(r, BeanWeightG) == NumberCell(r.beanWeightG)
            && RoastCell(r, ProfileName) == TextCell(r.profileName)
            && RoastCell(r, RoastLevel) == TextCell(r.roastLevel) && RoastCell(r, Summary) == r.summary
            && RoastCell(r, OperatorRating) == NumberCell(r.operatorRating)
  {
    hide TextCell, NumberCell;
  }

  lemma RoastMiddleHolds(r: CloudRoast)
    ensures Get(RoastRecord(r), "bean_varietal") == TextCell(r.beanVarietal)
            && Get(RoastRecord(r), "bean_weight_g") == NumberCell(r.beanWeightG)
            && Get(RoastRecord(r), "profile_name") == TextCell(r.profileName)
            && Get(RoastRecord(r), "roast_level") == TextCell(r.roastLevel)
            && Get(RoastRecord(r), "summary") == r.summary
            && Get(RoastRecord(r), "operator_rating") == NumberCell(r.operatorRating)
  {
    hide Name, Columns, RoastCell, Get, RoastRecord, TextCell,
      NumberCell;
    RoastMiddleListed();
    RoastMiddleNames();
    RoastMiddleCells(r);
    RoastRecordCell(r, BeanVarietal);
    RoastRecordCell(r, BeanWeightG);
    RoastRecordCell(r, ProfileName);
    RoastRecordCell(r, RoastLevel);
    RoastRecordCell(r, Summary);
    RoastRecordCell(r, OperatorRating);
  }

  lemma RoastLastListed()
    ensures OperatorNotes in Columns(CloudRoasts) && ContributedToLearning in Columns(CloudRoasts)
            && RoastedAtUtc in Columns(CloudRoasts) && CreatedAt in Columns(CloudRoasts)
            && UpdatedAt in Columns(CloudRoasts)
  {
  }

  lemma RoastLastNames()
    ensures Name(OperatorNotes) == "operator_notes" && Name(ContributedToLearning) == "contributed_to_learning"
            && Name(RoastedAtUtc) == "roasted_at_utc" && Name(CreatedAt) == "created_at"
            && Name(UpdatedAt) == "updated_at"
  {
  }

  lemma RoastLastCells(r: CloudRoast)
    ensures RoastCell(r, OperatorNotes) == TextCell(r.operatorNotes)
            && RoastCell(r, ContributedToLearning) == JBool(r.contributedToLearning)
            && RoastCell(r, RoastedAtUtc) == TextCell(r.roastedAtUtc) && RoastCell(r, CreatedAt) == JStr(r.createdAt)
            && RoastCell(r, UpdatedAt) == JStr(r.updatedAt)
  {
    hide TextCell, NumberCell;
  }

  lemma RoastLastHolds(r: CloudRoast)
    ensures Get(RoastRecord(r), "operator_notes") == TextCell(r.operatorNotes)
            && Get(RoastRecord(r), "contributed_to_learning") == JBool(r.contributedToLearning)
            && Get(RoastRecord(r), "roasted_at_utc") == TextCell(r.roastedAtUtc)
            && Get(RoastRecord(r), "created_at") == JStr(r.createdAt)
            && Get(RoastRecord(r), "updated_at") == JStr(r.updatedAt)
  {
    hide Name, Columns, RoastCell, Get, RoastRecord, TextCell,
      NumberCell;
    RoastLastListed();
    RoastLastNames();
    RoastLastCells(r);
    RoastRecordCell(r, OperatorNotes);
    RoastRecordCell(r, ContributedToLearning);
    RoastRecordCell(r, RoastedAtUtc);
    RoastRecordCell(r, CreatedAt);
    RoastRecordCell(r, UpdatedAt);
  }

  // ----- Telemetry

  lemma TelemetryFirstListed()
    ensures RoastId in Columns(RoastTelemetry) && ElapsedS in Columns(RoastTelemetry)
            && BeanTempC in Columns(RoastTelemetry) && EnvTempC in Columns(RoastTelemetry)
            && HeatPercent in Columns(RoastTelemetry) && FanPercent in Columns(RoastTelemetry)
  {
  }

  lemma TelemetryFirstNames()
    ensures Name(RoastId) == "roast_id" && Name(ElapsedS) == "elapsed_s" && Name(BeanTempC) == "bean_temp_c"
            && Name(EnvTempC) == "env_temp_c" && Name(HeatPercent) == "heat_percent"
            && Name(FanPercent) == "fan_percent"
  {
  }

  lemma TelemetryFirstCells(r: Telemetry)
    ensures TelemetryCell(r, RoastId) == JStr(r.roastId) && TelemetryCell(r, ElapsedS) == NumberCell(Some(r.elapsedS))
            && TelemetryCell(r, BeanTempC) == NumberCell(r.beanTempC)
            && TelemetryCell(r, EnvTempC) == NumberCell(r.envTempC)
            && TelemetryCell(r, HeatPercent) == NumberCell(r.heatPercent)
            && TelemetryCell(r, FanPercent) == NumberCell(r.fanPercent)
  {
    hide TextCell, NumberCell;
  }

  lemma TelemetryFirstHolds(r: Telemetry)
    ensures Get(TelemetryRecord(r), "roast_id") == JStr(r.roastId)
            && Get(TelemetryRecord(r), "elapsed_s") == NumberCell(Some(r.elapsedS))
            && Get(TelemetryRecord(r), "bean_temp_c") == NumberCell(r.beanTempC)
            && Get(TelemetryRecord(r), "env_temp_c") == NumberCell(r.envTempC)
            && Get(TelemetryRecord(r), "heat_percent") == NumberCell(r.heatPercent)
            && Get(TelemetryRecord(r), "fan_percent") == NumberCell(r.fanPercent)
  {
    hide Name, Columns, TelemetryCell, Get, TelemetryRecord, TextCell,
      NumberCell;
    TelemetryFirstListed();
    TelemetryFirstNames();
    TelemetryFirstCells(r);
    TelemetryRecordCell(r, RoastId);
    TelemetryRecordCell(r, ElapsedS);
    TelemetryRecordCell(r, BeanTempC);
    TelemetryRecordCell(r, EnvTempC);
    TelemetryRecordCell(r, HeatPercent);
    TelemetryRecordCell(r, FanPercent);
  }

  lemma TelemetryLastListed()
    ensures RorCPerMin in Columns(RoastTelemetry) && Raw in Columns(RoastTelemetry)
  {
  }

  lemma TelemetryLastNames()
    ensures Name(RorCPerMin) == "ror_c_per_min" && Name(Raw) == "raw"
  {
  }

  lemma TelemetryLastCells(r: Telemetry)
    ensures TelemetryCell(r, RorCPerMin) == NumberCell(r.rorCPerMin) && TelemetryCell(r, Raw) == r.raw
  {
    hide TextCell, NumberCell;
  }

  lemma TelemetryLastHolds(r: Telemetry)
    ensures Get(TelemetryRecord(r), "ror_c_per_min") == NumberCell(r.rorCPerMin)
            && Get(TelemetryRecord(r), "raw") == r.raw
  {
    hide Name, Columns, TelemetryCell, Get, TelemetryRecord, TextCell,
      NumberCell;
    TelemetryLastListed();
    TelemetryLastNames();
    TelemetryLastCells(r);
    TelemetryRecordCell(r, RorCPerMin);
    TelemetryRecordCell(r, Raw);
  }

  // ----- Artifacts

  lemma ArtifactListed()
    ensures Id in Columns(RoastArtifacts) && RoastId in Columns(RoastArtifacts) && Kind in Columns(RoastArtifacts)
            && StagePath in Columns(RoastArtifacts) && ByteSize in Columns(RoastArtifacts)
            && CreatedAt in Columns(RoastArtifacts)
  {
  }

  lemma ArtifactNames()
    ensures Name(Id) == "id" && Name(RoastId) == "roast_id" && Name(Kind) == "kind" && Name(StagePath) == "stage_path"
            && Name(ByteSize) == "byte_size" && Name(CreatedAt) == "created_at"
  {
  }

  lemma ArtifactCells(r: Artifact)
    ensures ArtifactCell(r, Id) == TextCell(r.id) && ArtifactCell(r, RoastId) == JStr(r.roastId)
            && ArtifactCell(r, Kind) == JStr(r.kind) && ArtifactCell(r, StagePath) == JStr(r.stagePath)
            && ArtifactCell(r, ByteSize) == NumberCell(r.byteSize) && ArtifactCell(r, CreatedAt) == JStr(r.createdAt)
  {
    hide TextCell, NumberCell;
  }

  lemma ArtifactHolds(r: Artifact)
    ensures Get(ArtifactRecord(r), "id") == TextCell(r.id) && Get(ArtifactRecord(r), "roast_id") == JStr(r.roastId)
            && Get(ArtifactRecord(r), "kind") == JStr(r.kind)
            && Get(ArtifactRecord(r), "stage_path") == JStr(r.stagePath)
            && Get(ArtifactRecord(r), "byte_size") == NumberCell(r.byteSize)
            && Get(ArtifactRecord(r), "created_at") == JStr(r.createdAt)
  {
    hide Name, Columns, ArtifactCell, Get, ArtifactRecord, TextCell,
      NumberCell;
    ArtifactListed();
    ArtifactNames();
    ArtifactCells(r);
    ArtifactRecordCell(r, Id);
    ArtifactRecordCell(r, RoastId);
    ArtifactRecordCell(r, Kind);
    ArtifactRecordCell(r, StagePath);
    ArtifactRecordCell(r, ByteSize);
    ArtifactRecordCell(r, CreatedAt);
  }

  // ----- Reviews

  lemma ReviewFirstListed()
    ensures Id in Columns(TastingReviews) && RoastId in Columns(TastingReviews)
            && ReviewerName in Columns(TastingReviews) && Score in Columns(TastingReviews)
            && Aroma in Columns(TastingReviews) && Acidity in Columns(TastingReviews)
  {
  }

  lemma ReviewFirstNames()
    ensures Name(Id) == "id" && Name(RoastId) == "roast_id" && Name(ReviewerName) == "reviewer_name"
            && Name(Score) == "score" && Name(Aroma) == "aroma" && Name(Acidity) == "acidity"
  {
  }

  lemma ReviewFirstCells(r: Review)
    ensures ReviewCell(r, Id) == TextCell(r.id) && ReviewCell(r, RoastId) == JStr(r.roastId)
            && ReviewCell(r, ReviewerName) == TextCell(r.reviewerName)
            && ReviewCell(r, Score) == NumberCell(Some(r.score)) && ReviewCell(r, Aroma) == NumberCell(r.aroma)
            && ReviewCell(r, Acidity) == NumberCell(r.acidity)
  {
    hide TextCell, NumberCell;
  }

  lemma ReviewFirstHolds(r: Review)
    ensures Get(ReviewRecord(r), "id") == TextCell(r.id) && Get(ReviewRecord(r), "roast_id") == JStr(r.roastId)
            && Get(ReviewRecord(r), "reviewer_name") == TextCell(r.reviewerName)
            && Get(ReviewRecord(r), "score") == NumberCell(Some(r.score))
            && Get(ReviewRecord(r), "aroma") == NumberCell(r.aroma)
            && Get(ReviewRecord(r), "acidity") == NumberCell(r.acidity)
  {
    hide Name, Columns, ReviewCell, Get, ReviewRecord, TextCell,
      NumberCell;
    ReviewFirstListed();
    ReviewFirstNames();
    ReviewFirstCells(r);
    ReviewRecordCell(r, Id);
    ReviewRecordCell(r, RoastId);
    ReviewRecordCell(r, ReviewerName);
    ReviewRecordCell(r, Score);
    ReviewRecordCell(r, Aroma);
    ReviewRecordCell(r, Acidity);
  }

  lemma ReviewMiddleListed()
    ensures Sweetness in Columns(TastingReviews) && Body in Columns(TastingReviews)
            && Aftertaste in Columns(TastingReviews) && BrewMethod in Columns(TastingReviews)
            && Notes in Columns(TastingReviews) && SubmittedIpHash in Columns(TastingReviews)
  {
  }

  lemma ReviewMiddleNames()
    ensures Name(Sweetness) == "sweetness" && Name(Body) == "body" && Name(Aftertaste) == "aftertaste"
            && Name(BrewMethod) == "brew_method" && Name(Notes) == "notes"
            && Name(SubmittedIpHash) == "submitted_ip_hash"
  {
  }

  lemma ReviewMiddleCells(r: Review)
    ensures ReviewCell(r, Sweetness) == NumberCell(r.sweetness) && ReviewCell(r, Body) == NumberCell(r.body)
            && ReviewCell(r, Aftertaste) == NumberCell(r.aftertaste)
            && ReviewCell(r, BrewMethod) == TextCell(r.brewMethod) && ReviewCell(r, Notes) == TextCell(r.notes)
            && ReviewCell(r, SubmittedIpHash) == TextCell(r.submittedIpHash)
  {
    hide TextCell, NumberCell;
  }

  lemma ReviewMiddleHolds(r: Review)
    ensures Get(ReviewRecord(r), "sweetness") == NumberCell(r.sweetness)
            && Get(ReviewRecord(r), "body") == NumberCell(r.body)
            && Get(ReviewRecord(r), "aftertaste") == NumberCell(r.aftertaste)
            && Get(ReviewRecord(r), "brew_method") == TextCell(r.brewMethod)
            && Get(ReviewRecord(r), "notes") == TextCell(r.notes)
            && Get(ReviewRecord(r), "submitted_ip_hash") == TextCell(r.submittedIpHash)
  {
    hide Name, Columns, ReviewCell, Get, ReviewRecord, TextCell,
      NumberCell;
    ReviewMiddleListed();
    ReviewMiddleNames();
    ReviewMiddleCells(r);
    ReviewRecordCell(r, Sweetness);
    ReviewRecordCell(r, Body);
    ReviewRecordCell(r, Aftertaste);
    ReviewRecordCell(r, BrewMethod);
    ReviewRecordCell(r, Notes);
    ReviewRecordCell(r, SubmittedIpHash);
  }

  lemma ReviewLastListed()
    ensures CreatedAt in Columns(TastingReviews)
  {
  }

  lemma ReviewLastNames()
    ensures Name(CreatedAt) == "created_at"
  {
  }

  lemma ReviewLastCells(r: Review)
    ensures ReviewCell(r, CreatedAt) == JStr(r.createdAt)
  {
    hide TextCell, NumberCell;
  }

  lemma ReviewLastHolds(r: Review)
    ensures Get(ReviewRecord(r), "created_at") == JStr(r.createdAt)
  {
    hide Name, Columns, ReviewCell, Get, ReviewRecord, TextCell,
      NumberCell;
    ReviewLastListed();
    ReviewLastNames();
    ReviewLastCells(r);
    ReviewRecordCell(r, CreatedAt);
  }

  // ----- Summaries

  lemma SummaryFirstListed()
    ensures Id in Columns(ReferenceRoastSummaries) && BeanOrigin in Columns(ReferenceRoastSummaries)
            && RoastLevel in Columns(ReferenceRoastSummaries) && RoastCount in Columns(ReferenceRoastSummaries)
  {
  }

  lemma SummaryFirstNames()
    ensures Name(Id) == "id" && Name(BeanOrigin) == "bean_origin" && Name(RoastLevel) == "roast_level"
            && Name(RoastCount) == "roast_count"
  {
  }

  lemma SummaryFirstCells(r: ReferenceSummary)
    ensures SummaryCell(r, Id) == TextCell(r.id) && SummaryCell(r, BeanOrigin) == JStr(r.beanOrigin)
            && SummaryCell(r, RoastLevel) == JStr(r.roastLevel)
            && SummaryCell(r, RoastCount) == NumberCell(Some(r.roastCount))
  {
    hide TextCell, NumberCell;
  }

  lemma SummaryFirstHolds(r: ReferenceSummary)
    ensures Get(SummaryRecord(r), "id") == TextCell(r.id)
            && Get(SummaryRecord(r), "bean_origin") == JStr(r.beanOrigin)
            && Get(SummaryRecord(r), "roast_level") == JStr(r.roastLevel)
            && Get(SummaryRecord(r), "roast_count") == NumberCell(Some(r.roastCount))
  {
    hide Name, Columns, SummaryCell, Get, SummaryRecord, TextCell,
      NumberCell;
    SummaryFirstListed();
    SummaryFirstNames();
    SummaryFirstCells(r);
    SummaryRecordCell(r, Id);
    SummaryRecordCell(r, BeanOrigin);
    SummaryRecordCell(r, RoastLevel);
    SummaryRecordCell(r, RoastCount);
  }

  lemma SummarySecondListed()
    ensures ReviewCount in Columns(ReferenceRoastSummaries) && AvgRating in Columns(ReferenceRoastSummaries)
            && FirstCrackTempAvgC in Columns(ReferenceRoastSummaries)
            && FirstCrackTempStddevC in Columns(ReferenceRoastSummaries)
  {
  }

  lemma SummarySecondNames()
    ensures Name(ReviewCount) == "review_count" && Name(AvgRating) == "avg_rating"
            && Name(FirstCrackTempAvgC) == "first_crack_temp_avg_c"
            && Name(FirstCrackTempStddevC) == "first_crack_temp_stddev_c"
  {
  }

  lemma SummarySecondCells(r: ReferenceSummary)
    ensures SummaryCell(r, ReviewCount) == NumberCell(Some(r.reviewCount))
            && SummaryCell(r, AvgRating) == NumberCell(r.avgRating)
            && SummaryCell(r, FirstCrackTempAvgC) == NumberCell(r.firstCrackTempAvgC)
            && SummaryCell(r, FirstCrackTempStddevC) == NumberCell(r.firstCrackTempStddevC)
  {
    hide TextCell, NumberCell;
  }

  lemma SummarySecondHolds(r: ReferenceSummary)
    ensures Get(SummaryRecord(r), "review_count") == NumberCell(Some(r.reviewCount))
            && Get(SummaryRecord(r), "avg_rating") == NumberCell(r.avgRating)
            && Get(SummaryRecord(r), "first_crack_temp_avg_c") == NumberCell(r.firstCrackTempAvgC)
            && Get(SummaryRecord(r), "first_crack_temp_stddev_c") == NumberCell(r.firstCrackTempStddevC)
  {
    hide Name, Columns, SummaryCell, Get, SummaryRecord, TextCell,
      NumberCell;
    SummarySecondListed();
    SummarySecondNames();
    SummarySecondCells(r);
    SummaryRecordCell(r, ReviewCount);
    SummaryRecordCell(r, AvgRating);
    SummaryRecordCell(r, FirstCrackTempAvgC);
    SummaryRecordCell(r, FirstCrackTempStddevC);
  }

  lemma SummaryThirdListed()
    ensures DropTempAvgC in Columns(ReferenceRoastSummaries) && DropTempStddevC in Columns(ReferenceRoastSummaries)
            && DevelopmentPercentAvg in Columns(ReferenceRoastSummaries)
            && FirstCrackTimeAvgS in Columns(ReferenceRoastSummaries)
  {
  }

  lemma SummaryThirdNames()
    ensures Name(DropTempAvgC) == "drop_temp_avg_c" && Name(DropTempStddevC) == "drop_temp_stddev_c"
            && Name(DevelopmentPercentAvg) == "development_percent_avg"
            && Name(FirstCrackTimeAvgS) == "first_crack_time_avg_s"
  {
  }

  lemma SummaryThirdCells(r: ReferenceSummary)
    ensures SummaryCell(r, DropTempAvgC) == NumberCell(r.dropTempAvgC)
            && SummaryCell(r, DropTempStddevC) == NumberCell(r.dropTempStddevC)
            && SummaryCell(r, DevelopmentPercentAvg) == NumberCell(r.developmentPercentAvg)
            && SummaryCell(r, FirstCrackTimeAvgS) == NumberCell(r.firstCrackTimeAvgS)
  {
    hide TextCell, NumberCell;
  }

  lemma SummaryThirdHolds(r: ReferenceSummary)
    ensures Get(SummaryRecord(r), "drop_temp_avg_c") == NumberCell(r.dropTempAvgC)
            && Get(SummaryRecord(r), "drop_temp_stddev_c") == NumberCell(r.dropTempStddevC)
            && Get(SummaryRecord(r), "development_percent_avg") == NumberCell(r.developmentPercentAvg)
            && Get(SummaryRecord(r), "first_crack_time_avg_s") == NumberCell(r.firstCrackTimeAvgS)
  {
    hide Name, Columns, SummaryCell, Get, SummaryRecord, TextCell,
      NumberCell;
    SummaryThirdListed();
    SummaryThirdNames();
    SummaryThirdCells(r);
    SummaryRecordCell(r, DropTempAvgC);
    SummaryRecordCell(r, DropTempStddevC);
    SummaryRecordCell(r, DevelopmentPercentAvg);
    SummaryRecordCell(r, FirstCrackTimeAvgS);
  }

  lemma SummaryLastListed()
    ensures TotalTimeAvgS in Columns(ReferenceRoastSummaries) && KeyPatterns in Columns(ReferenceRoastSummaries)
            && UpdatedAt in Columns(ReferenceRoastSummaries)
  {
  }

  lemma SummaryLastNames()
    ensures Name(TotalTimeAvgS) == "total_time_avg_s" && Name(KeyPatterns) == "key_patterns"
            && Name(UpdatedAt) == "updated_at"
  {
  }

  lemma SummaryLastCells(r: ReferenceSummary)
    ensures SummaryCell(r, TotalTimeAvgS) == NumberCell(r.totalTimeAvgS)
            && SummaryCell(r, KeyPatterns) == r.keyPatterns && SummaryCell(r, UpdatedAt) == JStr(r.updatedAt)
  {
    hide TextCell, NumberCell;
  }

  lemma SummaryLastHolds(r: ReferenceSummary)
    ensures Get(SummaryRecord(r), "total_time_avg_s") == NumberCell(r.totalTimeAvgS)
            && Get(SummaryRecord(r), "key_patterns") == r.keyPatterns
            && Get(SummaryRecord(r), "updated_at") == JStr(r.updatedAt)
  {
    hide Name, Columns, SummaryCell, Get, SummaryRecord, TextCell,
      NumberCell;
    SummaryLastListed();
    SummaryLastNames();
    SummaryLastCells(r);
    SummaryRecordCell(r, TotalTimeAvgS);
    SummaryRecordCell(r, KeyPatterns);
    SummaryRecordCell(r, UpdatedAt);
  }

  // ----- One record

  /** A roast's record reads back as the roast exactly when its numbers could be written. */
  lemma RoastReadsBack(r: CloudRoast)
    ensures ReadRoast(RoastRecord(r)) == r <==> RoastWritten(r)
  {
    hide Get, RoastRecord;
    RoastFirstHolds(r);
    RoastMiddleHolds(r);
    RoastLastHolds(r);
  }

  lemma TelemetryReadsBack(r: Telemetry)
    ensures ReadTelemetry(TelemetryRecord(r)) == r <==> TelemetryWritten(r)
  {
    hide Get, TelemetryRecord;
    TelemetryFirstHolds(r);
    TelemetryLastHolds(r);
  }

  lemma ArtifactReadsBack(r: Artifact)
    ensures ReadArtifact(ArtifactRecord(r)) == r <==> Written(r.byteSize)
  {
    hide Get, ArtifactRecord;
    ArtifactHolds(r);
  }

  lemma ReviewReadsBack(r: Review)
    ensures ReadReview(ReviewRecord(r)) == r <==> ReviewWritten(r)
  {
    hide Get, ReviewRecord;
    ReviewFirstHolds(r);
    ReviewMiddleHolds(r);
    ReviewLastHolds(r);
  }

  lemma SummaryTextReads(r: ReferenceSummary)
    ensures var b := ReadSummary(SummaryRecord(r));
            && b.id == r.id && b.beanOrigin == r.beanOrigin && b.roastLevel == r.roastLevel
            && b.roastCount == r.roastCount && b.reviewCount == r.reviewCount && b.keyPatterns == r.keyPatterns
            && b.updatedAt == r.updatedAt
  {
    hide Get, SummaryRecord;
    SummaryFirstHolds(r);
    SummarySecondHolds(r);
    SummaryLastHolds(r);
  }

  lemma SummaryMeanReads(r: ReferenceSummary)
    ensures var b := ReadSummary(SummaryRecord(r));
            && (b.avgRating == r.avgRating <==> Written(r.avgRating))
            && (b.firstCrackTempAvgC == r.firstCrackTempAvgC <==> Written(r.firstCrackTempAvgC))
            && (b.firstCrackTempStddevC == r.firstCrackTempStddevC <==> Written(r.firstCrackTempStddevC))
            && (b.dropTempAvgC == r.dropTempAvgC <==> Written(r.dropTempAvgC))
            && (b.dropTempStddevC == r.dropTempStddevC <==> Written(r.dropTempStddevC))
            && (b.developmentPercentAvg == r.developmentPercentAvg <==> Written(r.developmentPercentAvg))
            && (b.firstCrackTimeAvgS == r.firstCrackTimeAvgS <==> Written(r.firstCrackTimeAvgS))
            && (b.totalTimeAvgS == r.totalTimeAvgS <==> Written(r.totalTimeAvgS))
  {
    hide Get, SummaryRecord, NumberCell, NumberAt, Written, TextOf, TextAt, NumberOf;
    var j := SummaryRecord(r);
    SummarySecondHolds(r);
    SummaryThirdHolds(r);
    SummaryLastHolds(r);
    NumberReads(j, "avg_rating", r.avgRating);
    NumberReads(j, "first_crack_temp_avg_c", r.firstCrackTempAvgC);
    NumberReads(j, "first_crack_temp_stddev_c", r.firstCrackTempStddevC);
    NumberReads(j, "drop_temp_avg_c", r.dropTempAvgC);
    NumberReads(j, "drop_temp_stddev_c", r.dropTempStddevC);
    NumberReads(j, "development_percent_avg", r.developmentPercentAvg);
    NumberReads(j, "first_crack_time_avg_s", r.firstCrackTimeAvgS);
    NumberReads(j, "total_time_avg_s", r.totalTimeAvgS);
  }

  lemma SummaryReadsBack(r: ReferenceSummary)
    ensures ReadSummary(SummaryRecord(r)) == r <==> SummaryWritten(r)
  {
    hide ReadSummary, SummaryRecord, Written;
    SummaryTextReads(r);
    SummaryMeanReads(r);
  }

  // ----- The whole artifact

  function RowsUnder(artifact: Json, k: nat, table: string): seq<Record> {
    var tables := Property(artifact, "tables").GetOr(JNull);
    if tables.JArr? && k < |tables.items| && Property(tables.items[k], "table") == Some(JStr(table)) then
      var rows := Property(tables.items[k], "rows").GetOr(JNull);
      if rows.JArr? then Map((row: Json) => if row.JObj? then row.fields else [], rows.items) else []
    else []
  }

  /** The output that an artifact's five tables spell out. */
  function ReadOutput(artifact: Json): SeedOutput {
    SeedOutput(
      Map(ReadRoast, RowsUnder(artifact, 0, "cloud_roasts")),
      Map(ReadTelemetry, RowsUnder(artifact, 1, "roast_telemetry")),
      Map(ReadArtifact, RowsUnder(artifact, 2, "roast_artifacts")),
      Map(ReadReview, RowsUnder(artifact, 3, "tasting_reviews")),
      Map(ReadSummary, RowsUnder(artifact, 4, "reference_roast_summaries")))
  }

  /** Every optional number of the output can be written as JSON. */
  predicate OutputWritten(o: SeedOutput) {
    && (forall i :: 0 <= i < |o.cloudRoasts| ==> RoastWritten(o.cloudRoasts[i]))
    && (forall i :: 0 <= i < |o.roastTelemetry| ==> TelemetryWritten(o.roastTelemetry[i]))
    && (forall i :: 0 <= i < |o.roastArtifacts| ==> Written(o.roastArtifacts[i].byteSize))
    && (forall i :: 0 <= i < |o.tastingReviews| ==> ReviewWritten(o.tastingReviews[i]))
    && (forall i :: 0 <= i < |o.referenceRoastSummaries| ==> SummaryWritten(o.referenceRoastSummaries[i]))
  }

  lemma PairReads(k1: string, a: Json, k2: string, b: Json)
    requires k1 != k2
    ensures var j := JObj([Field(k1, a), Field(k2, b)]); Property(j, k1) == Some(a) && Property(j, k2) == Some(b)
  {
    assert [Field(k1, a), Field(k2, b)][1..] == [Field(k2, b)];
    assert Lookup([Field(k2, b)], k2) == Some(b);
  }

  lemma RowsDispatched(output: SeedOutput, target: string, k: nat)
    requires k < |TABLE_ORDER|
    ensures RowsUnder(ArtifactJson(target, DispatchesOf(output)), k, TableName(TABLE_ORDER[k]))
            == Records(output, TABLE_ORDER[k])
  {
    hide Property, Records, TableName;
    var entries := Map(EntryJson, DispatchesOf(output));
    var rows := Records(output, TABLE_ORDER[k]);
    var items := Map((row: Record) => JObj(row), rows);
    PairReads("target", JStr(target), "tables", JArr(entries));
    PairReads("table", JStr(TableName(TABLE_ORDER[k])), "rows", JArr(items));
    assert entries[k] == EntryJson(Dispatch(TABLE_ORDER[k], rows));
  }

  lemma TablesDispatched(output: SeedOutput, target: string)
    ensures var artifact := ArtifactJson(target, DispatchesOf(output));
            && RowsUnder(artifact, 0, "cloud_roasts") == Map(RoastRecord, output.cloudRoasts)
            && RowsUnder(artifact, 1, "roast_telemetry") == Map(TelemetryRecord, output.roastTelemetry)
            && RowsUnder(artifact, 2, "roast_artifacts") == Map(ArtifactRecord, output.roastArtifacts)
            && RowsUnder(artifact, 3, "tasting_reviews") == Map(ReviewRecord, output.tastingReviews)
            && RowsUnder(artifact, 4, "reference_roast_summaries")
               == Map(SummaryRecord, output.referenceRoastSummaries)
  {
    hide RowsUnder, ArtifactJson, DispatchesOf, RoastRecord, TelemetryRecord, ArtifactRecord, ReviewRecord,
      SummaryRecord;
    RowsDispatched(output, target, 0);
    RowsDispatched(output, target, 1);
    RowsDispatched(output, target, 2);
    RowsDispatched(output, target, 3);
    RowsDispatched(output, target, 4);
  }

  /** The emitted artifact loses nothing: it reads back as the output exactly when its numbers could be written. */
  lemma ArtifactReadsBackExactly(output: SeedOutput, target: string)
    ensures ReadOutput(ArtifactJson(target, DispatchesOf(output))) == output <==> OutputWritten(output)
  {
    hide RowsUnder, ArtifactJson, DispatchesOf, RoastRecord, TelemetryRecord, ArtifactRecord, ReviewRecord,
      SummaryRecord, ReadRoast, ReadTelemetry, ReadArtifact, ReadReview, ReadSummary, RoastWritten, TelemetryWritten,
      Written, ReviewWritten, SummaryWritten;
    TablesDispatched(output, target);
    forall r { RoastReadsBack(r); }
    forall r { TelemetryReadsBack(r); }
    forall r { ArtifactReadsBack(r); }
    forall r { ReviewReadsBack(r); }
    forall r { SummaryReadsBack(r); }
    var back := ReadOutput(ArtifactJson(target, DispatchesOf(output)));
    assert back.cloudRoasts == output.cloudRoasts
           <==> forall i :: 0 <= i < |output.cloudRoasts| ==> back.cloudRoasts[i] == output.cloudRoasts[i];
    assert back.roastTelemetry == output.roastTelemetry
           <==> forall i :: 0 <= i < |output.roastTelemetry| ==> back.roastTelemetry[i] == output.roastTelemetry[i];
    assert back.roastArtifacts == output.roastArtifacts
           <==> forall i :: 0 <= i < |output.roastArtifacts| ==> back.roastArtifacts[i] == output.roastArtifacts[i];
    assert back.tastingReviews == output.tastingReviews
           <==> forall i :: 0 <= i < |output.tastingReviews| ==> back.tastingReviews[i] == output.tastingReviews[i];
    assert back.referenceRoastSummaries == output.referenceRoastSummaries
           <==> forall i :: 0 <= i < |output.referenceRoastSummaries| ==>
                  back.referenceRoastSummaries[i] == output.referenceRoastSummaries[i];
  }
}
