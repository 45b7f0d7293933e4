/** The validation of a new score's input. */
module ScoreValidator {
  import opened Wrappers
  import opened Errors
  import opened Js

  const FieldsRequired: string := "All fields are required"
  const NotPositive: string := "The score must be a positive number."

  /**
   * `validateScoreData`: both ids and a truthy base score are required
   * (so a base score of 0 counts as missing); the base score must then be a
   * non-negative number.
   */
  function ValidateScoreData(playerId: string, gameId: string, baseScore: JsValue): (r: Option<Error>)
    ensures r.None? <==> playerId != "" && gameId != "" && baseScore.Num? && baseScore.n > 0
    ensures playerId == "" || gameId == "" || !Truthy(baseScore) ==> r == Some(ValidationError(FieldsRequired))
    ensures playerId != "" && gameId != "" && Truthy(baseScore) && !(baseScore.Num? && baseScore.n >= 0) ==>
      r == Some(ValidationError(NotPositive))
  {
    if playerId == "" || gameId == "" || !Truthy(baseScore) then Some(ValidationError(FieldsRequired))
    else if !baseScore.Num? || baseScore.n < 0 then Some(ValidationError(NotPositive))
    else None
  }

  /** A base score of 0 is reported as a missing field, not as a bad number. */
  lemma ZeroIsMissing(playerId: string, gameId: string)
    ensures ValidateScoreData(playerId, gameId, Num(0)) == Some(ValidationError(FieldsRequired))
  {
  }
}
