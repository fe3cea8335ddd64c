/** The five seed tables: typed rows, their columns, and the JSON records they turn into. */
module SeedTypes {
  import opened Wrappers
  import opened JsonTrees
  import opened Sequences

  /** A JavaScript number; NaN and the infinities are not told apart. */
  datatype Num = Fin(value: real) | NotFinite

  datatype SeedTable = CloudRoasts | RoastTelemetry | RoastArtifacts | TastingReviews | ReferenceRoastSummaries

  datatype CloudRoast = CloudRoast(
    id: Option<string>, idempotencyKey: string, ownerId: Option<string>, publicSlug: string, visibility: string,
    beanOrigin: Option<string>, beanVarietal: Option<string>, beanWeightG: Option<Num>,
    profileName: Option<string>, roastLevel: Option<string>, summary: Json, operatorRating: Option<Num>,
    operatorNotes: Option<string>, contributedToLearning: bool, roastedAtUtc: Option<string>,
    createdAt: string, updatedAt: string)

  datatype Telemetry = Telemetry(
    roastId: string, elapsedS: Num, beanTempC: Option<Num>, envTempC: Option<Num>,
    heatPercent: Option<Num>, fanPercent: Option<Num>, rorCPerMin: Option<Num>, raw: Json)

  datatype Artifact = Artifact(
    id: Option<string>, roastId: string, kind: string, stagePath: string, byteSize: Option<Num>, createdAt: string)

  datatype Review = Review(
    id: Option<string>, roastId: string, reviewerName: Option<string>, score: Num, aroma: Option<Num>,
    acidity: Option<Num>, sweetness: Option<Num>, body: Option<Num>, aftertaste: Option<Num>,
    brewMethod: Option<string>, notes: Option<string>, submittedIpHash: Option<string>, createdAt: string)

  datatype ReferenceSummary = ReferenceSummary(
    id: Option<string>, beanOrigin: string, roastLevel: string, roastCount: Num, reviewCount: Num,
    avgRating: Option<Num>, firstCrackTempAvgC: Option<Num>, firstCrackTempStddevC: Option<Num>,
    dropTempAvgC: Option<Num>, dropTempStddevC: Option<Num>, developmentPercentAvg: Option<Num>,
    firstCrackTimeAvgS: Option<Num>, totalTimeAvgS: Option<Num>, keyPatterns: Json, updatedAt: string)

  datatype SeedOutput = SeedOutput(
    cloudRoasts: seq<CloudRoast>, roastTelemetry: seq<Telemetry>, roastArtifacts: seq<Artifact>,
    tastingReviews: seq<Review>, referenceRoastSummaries: seq<ReferenceSummary>)

  // ----- Columns

  datatype Column =
    | Id | IdempotencyKey | OwnerId | PublicSlug | Visibility | BeanOrigin | BeanVarietal | BeanWeightG
    | ProfileName | RoastLevel | Summary | OperatorRating | OperatorNotes | ContributedToLearning
    | RoastedAtUtc | CreatedAt | UpdatedAt
    | RoastId | ElapsedS | BeanTempC | EnvTempC | HeatPercent | FanPercent | RorCPerMin | Raw
    | Kind | StagePath | ByteSize
    | ReviewerName | Score | Aroma | Acidity | Sweetness | Body | Aftertaste | BrewMethod | Notes | SubmittedIpHash
    | RoastCount | ReviewCount | AvgRating | FirstCrackTempAvgC | FirstCrackTempStddevC | DropTempAvgC
    | DropTempStddevC | DevelopmentPercentAvg | FirstCrackTimeAvgS | TotalTimeAvgS | KeyPatterns

  function Name(c: Column): string {
    match c
    case Id => "id"
    case IdempotencyKey => "idempotency_key"
    case OwnerId => "owner_id"
    case PublicSlug => "public_slug"
    case Visibility => "visibility"
    case BeanOrigin => "bean_origin"
    case BeanVarietal => "bean_varietal"
    case BeanWeightG => "bean_weight_g"
    case ProfileName => "profile_name"
    case RoastLevel => "roast_level"
    case Summary => "summary"
    case OperatorRating => "operator_rating"
    case OperatorNotes => "operator_notes"
    case ContributedToLearning => "contributed_to_learning"
    case RoastedAtUtc => "roasted_at_utc"
    case CreatedAt => "created_at"
    case UpdatedAt => "updated_at"
    case RoastId => "roast_id"
    case ElapsedS => "elapsed_s"
    case BeanTempC => "bean_temp_c"
    case EnvTempC => "env_temp_c"
    case HeatPercent => "heat_percent"
    case FanPercent => "fan_percent"
    case RorCPerMin => "ror_c_per_min"
    case Raw => "raw"
    case Kind => "kind"
    case StagePath => "stage_path"
    case ByteSize => "byte_size"
    case ReviewerName => "reviewer_name"
    case Score => "score"
    case Aroma => "aroma"
    case Acidity => "acidity"
    case Sweetness => "sweetness"
    case Body => "body"
    case Aftertaste => "aftertaste"
    case BrewMethod => "brew_method"
    case Notes => "notes"
    case SubmittedIpHash => "submitted_ip_hash"
    case RoastCount => "roast_count"
    case ReviewCount => "review_count"
    case AvgRating => "avg_rating"
    case FirstCrackTempAvgC => "first_crack_temp_avg_c"
    case FirstCrackTempStddevC => "first_crack_temp_stddev_c"
    case DropTempAvgC => "drop_temp_avg_c"
    case DropTempStddevC => "drop_temp_stddev_c"
    case DevelopmentPercentAvg => "development_percent_avg"
    case FirstCrackTimeAvgS => "first_crack_time_avg_s"
    case TotalTimeAvgS => "total_time_avg_s"
    case KeyPatterns => "key_patterns"
  }

  function Columns(table: SeedTable): seq<Column> {
    match table
    case CloudRoasts =>
      [Id, IdempotencyKey, OwnerId, PublicSlug, Visibility, BeanOrigin, BeanVarietal, BeanWeightG, ProfileName,
       RoastLevel, Summary, OperatorRating, OperatorNotes, ContributedToLearning, RoastedAtUtc, CreatedAt, UpdatedAt]
    case RoastTelemetry =>
      [RoastId, ElapsedS, BeanTempC, EnvTempC, HeatPercent, FanPercent, RorCPerMin, Raw]
    case RoastArtifacts =>
      [Id, RoastId, Kind, StagePath, ByteSize, CreatedAt]
    case TastingReviews =>
      [Id, RoastId, ReviewerName, Score, Aroma, Acidity, Sweetness, Body, Aftertaste, BrewMethod, Notes,
       SubmittedIpHash, CreatedAt]
    case ReferenceRoastSummaries =>
      [Id, BeanOrigin, RoastLevel, RoastCount, ReviewCount, AvgRating, FirstCrackTempAvgC, FirstCrackTempStddevC,
       DropTempAvgC, DropTempStddevC, DevelopmentPercentAvg, FirstCrackTimeAvgS, TotalTimeAvgS, KeyPatterns, UpdatedAt]
  }

  // ----- Cells: what a row holds in a column, as JSON

  function TextCell(v: Option<string>): Json {
    if v.Some? then JStr(v.value) else JNull
  }

  /** `JSON.stringify` writes a number that is not finite as null. */
  function NumberCell(v: Option<Num>): Json {
    if v.Some? && v.value.Fin? then JNum(v.value.value) else JNull
  }

  function RoastCell(row: CloudRoast, c: Column): Json {
    match c
    case Id => TextCell(row.id)
    case IdempotencyKey => JStr(row.idempotencyKey)
    case OwnerId => TextCell(row.ownerId)
    case PublicSlug => JStr(row.publicSlug)
    case Visibility => JStr(row.visibility)
    case BeanOrigin => TextCell(row.beanOrigin)
    case BeanVarietal => TextCell(row.beanVarietal)
    case BeanWeightG => NumberCell(row.beanWeightG)
    case ProfileName => TextCell(row.profileName)
    case RoastLevel => TextCell(row.roastLevel)
    case Summary => row.summary
    case OperatorRating => NumberCell(row.operatorRating)
    case OperatorNotes => TextCell(row.operatorNotes)
    case ContributedToLearning => JBool(row.contributedToLearning)
    case RoastedAtUtc => TextCell(row.roastedAtUtc)
    case CreatedAt => JStr(row.createdAt)
    case UpdatedAt => JStr(row.updatedAt)
    case _ => JNull
  }

  function TelemetryCell(row: Telemetry, c: Column): Json {
    match c
    case RoastId => JStr(row.roastId)
    case ElapsedS => NumberCell(Some(row.elapsedS))
    case BeanTempC => NumberCell(row.beanTempC)
    case EnvTempC => NumberCell(row.envTempC)
    case HeatPercent => NumberCell(row.heatPercent)
    case FanPercent => NumberCell(row.fanPercent)
    case RorCPerMin => NumberCell(row.rorCPerMin)
    case Raw => row.raw
    case _ => JNull
  }

  function ArtifactCell(row: Artifact, c: Column): Json {
    match c
    case Id => TextCell(row.id)
    case RoastId => JStr(row.roastId)
    case Kind => JStr(row.kind)
    case StagePath => JStr(row.stagePath)
    case ByteSize => NumberCell(row.byteSize)
    case CreatedAt => JStr(row.createdAt)
    case _ => JNull
  }

  function ReviewCell(row: Review, c: Column): Json {
    match c
    case Id => TextCell(row.id)
    case RoastId => JStr(row.roastId)
    case ReviewerName => TextCell(row.reviewerName)
    case Score => NumberCell(Some(row.score))
    case Aroma => NumberCell(row.aroma)
    case Acidity => NumberCell(row.acidity)
    case Sweetness => NumberCell(row.sweetness)
    case Body => NumberCell(row.body)
    case Aftertaste => NumberCell(row.aftertaste)
    case BrewMethod => TextCell(row.brewMethod)
    case Notes => TextCell(row.notes)
    case SubmittedIpHash => TextCell(row.submittedIpHash)
    case CreatedAt => JStr(row.createdAt)
    case _ => JNull
  }

  function SummaryCell(row: ReferenceSummary, c: Column): Json {
    match c
    case Id => TextCell(row.id)
    case BeanOrigin => JStr(row.beanOrigin)
    case RoastLevel => JStr(row.roastLevel)
    case RoastCount => NumberCell(Some(row.roastCount))
    case ReviewCount => NumberCell(Some(row.reviewCount))
    case AvgRating => NumberCell(row.avgRating)
    case FirstCrackTempAvgC => NumberCell(row.firstCrackTempAvgC)
    case FirstCrackTempStddevC => NumberCell(row.firstCrackTempStddevC)
    case DropTempAvgC => NumberCell(row.dropTempAvgC)
    case DropTempStddevC => NumberCell(row.dropTempStddevC)
    case DevelopmentPercentAvg => NumberCell(row.developmentPercentAvg)
    case FirstCrackTimeAvgS => NumberCell(row.firstCrackTimeAvgS)
    case TotalTimeAvgS => NumberCell(row.totalTimeAvgS)
    case KeyPatterns => row.keyPatterns
    case UpdatedAt => JStr(row.updatedAt)
    case _ => JNull
  }
}
