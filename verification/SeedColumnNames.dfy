/** Column names are unambiguous: a name's length and one of its letters tell the column. */
module SeedColumnNames {
  import opened SeedTypes

  /** A position at which names of the same length differ. */
  function TellingPosition(length: nat): nat {
    match length
    case 10 => 1
    case 11 => 7
    case 13 => 8
    case 22 => 13
    case _ => 0
  }

  /** Column names of ten letters, and of eleven, by their telling letter. */
  function TenLetters(letter: char): Column {
    match letter
    case 'i' => Visibility
    case 'r' => CreatedAt
    case 'p' => UpdatedAt
    case 'n' => EnvTempC
    case 't' => StagePath
    case 'f' => Aftertaste
    case _ => AvgRating
  }

  function ElevenLetters(letter: char): Column {
    match letter
    case 's' => PublicSlug
    case 'i' => BeanOrigin
    case 'e' => RoastLevel
    case 'm' => BeanTempC
    case 'c' => FanPercent
    case 't' => BrewMethod
    case _ => RoastCount
  }

  /** The column whose name has this length and this telling letter. */
  function Told(length: nat, letter: char): Column {
    match length
    case 2 => Id
    case 3 => Raw
    case 4 => if letter == 'k' then Kind else Body
    case 5 => if letter == 's' then Score else if letter == 'a' then Aroma else Notes
    case 7 => if letter == 's' then Summary else Acidity
    case 8 => if letter == 'o' then OwnerId else RoastId
    case 9 => if letter == 'e' then ElapsedS else if letter == 'b' then ByteSize else Sweetness
    case 10 => TenLetters(letter)
    case 11 => ElevenLetters(letter)
    case 12 =>
      if letter == 'p' then ProfileName else if letter == 'h' then HeatPercent
      else if letter == 'r' then ReviewCount else KeyPatterns
    case 13 =>
      if letter == 'i' then BeanVarietal else if letter == 'g' then BeanWeightG
      else if letter == 'r' then RorCPerMin else ReviewerName
    case 14 => if letter == 'o' then OperatorNotes else RoastedAtUtc
    case 15 => if letter == 'i' then IdempotencyKey else if letter == 'o' then OperatorRating else DropTempAvgC
    case 16 => TotalTimeAvgS
    case 17 => SubmittedIpHash
    case 18 => DropTempStddevC
    case 22 => if letter == 'e' then FirstCrackTempAvgC else FirstCrackTimeAvgS
    case 23 => if letter == 'c' then ContributedToLearning else DevelopmentPercentAvg
    case _ => FirstCrackTempStddevC
  }

  predicate NameTells(c: Column) {
    var name := Name(c);
    TellingPosition(|name|) < |name| && Told(|name|, name[TellingPosition(|name|)]) == c
  }

  lemma IdentityNameTells(c: Column)
    requires c.Id? || c.IdempotencyKey? || c.OwnerId? || c.PublicSlug? || c.Visibility?
    ensures NameTells(c)
  {
  }

  lemma BeanNameTells(c: Column)
    requires c.BeanOrigin? || c.BeanVarietal? || c.BeanWeightG? || c.ProfileName? || c.RoastLevel?
    ensures NameTells(c)
  {
  }

  lemma OperatorNameTells(c: Column)
    requires c.Summary? || c.OperatorRating? || c.OperatorNotes? || c.ContributedToLearning? || c.RoastedAtUtc?
    ensures NameTells(c)
  {
  }

  lemma StampNameTells(c: Column)
    requires c.CreatedAt? || c.UpdatedAt? || c.RoastId? || c.ElapsedS? || c.Kind? || c.StagePath? || c.ByteSize?
    ensures NameTells(c)
  {
  }

  lemma ReadingNameTells(c: Column)
    requires c.BeanTempC? || c.EnvTempC? || c.HeatPercent? || c.FanPercent? || c.RorCPerMin? || c.Raw?
    ensures NameTells(c)
  {
  }

  lemma ScoreNameTells(c: Column)
    requires c.Score? || c.Aroma? || c.Acidity? || c.Sweetness? || c.Body? || c.Aftertaste?
    ensures NameTells(c)
  {
  }

  lemma ReviewNameTells(c: Column)
    requires c.ReviewerName? || c.BrewMethod? || c.Notes? || c.SubmittedIpHash?
    ensures NameTells(c)
  {
  }

  lemma GroupNameTells(c: Column)
    requires c.RoastCount? || c.ReviewCount? || c.AvgRating? || c.KeyPatterns?
    ensures NameTells(c)
  {
  }

  lemma CrackNameTells(c: Column)
    requires c.FirstCrackTempAvgC? || c.FirstCrackTempStddevC? || c.FirstCrackTimeAvgS?
    ensures NameTells(c)
  {
  }

  lemma MeanNameTells(c: Column)
    requires c.DropTempAvgC? || c.DropTempStddevC? || c.DevelopmentPercentAvg? || c.TotalTimeAvgS?
    ensures NameTells(c)
  {
  }

  lemma EveryNameTells(c: Column)
    ensures NameTells(c)
  {
    hide NameTells;
    match c
    case Id | IdempotencyKey | OwnerId | PublicSlug | Visibility =>
      IdentityNameTells(c);
    case BeanOrigin | BeanVarietal | BeanWeightG | ProfileName | RoastLevel =>
      BeanNameTells(c);
    case Summary | OperatorRating | OperatorNotes | ContributedToLearning | RoastedAtUtc =>
      OperatorNameTells(c);
    case CreatedAt | UpdatedAt | RoastId | ElapsedS | Kind | StagePath | ByteSize =>
      StampNameTells(c);
    case BeanTempC | EnvTempC | HeatPercent | FanPercent | RorCPerMin | Raw =>
      ReadingNameTells(c);
    case Score | Aroma | Acidity | Sweetness | Body | Aftertaste =>
      ScoreNameTells(c);
    case ReviewerName | BrewMethod | Notes | SubmittedIpHash =>
      ReviewNameTells(c);
    case RoastCount | ReviewCount | AvgRating | KeyPatterns =>
      GroupNameTells(c);
    case FirstCrackTempAvgC | FirstCrackTempStddevC | FirstCrackTimeAvgS =>
      CrackNameTells(c);
    case DropTempAvgC | DropTempStddevC | DevelopmentPercentAvg | TotalTimeAvgS =>
      MeanNameTells(c);
  }

  /** Distinct columns have distinct names. */
  lemma NamesInjective(a: Column, b: Column)
    requires Name(a) == Name(b)
    ensures a == b
  {
    hide Name, Told, TellingPosition;
    EveryNameTells(a);
    EveryNameTells(b);
  }
}
