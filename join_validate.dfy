/**
 * The join form's city validator (app/routes/survey.join/validate.ts): an
 * empty value and a value outside the registry are told apart by message.
 */
module JoinValidate {
  import opened Wrappers
  import opened Choices

  const NoCitySelected: string := "No city was selected."
  const InvalidCitySubmitted: string := "Invalid city submitted."

  /** `{ error, value }`: `error` is `undefined` when the value is accepted. */
  datatype Validation = Validation(error: Option<string>, value: string)

  /**
   * `validateCityValue(city)`. Emptiness is checked first; the value is passed
   * back unchanged whatever the verdict.
   */
  function ValidateCityValue(city: string): (r: Validation)
    ensures r.value == city
    ensures r.error.None? <==> IsChoiceValue(city)
    ensures city == "" ==> r.error == Some(NoCitySelected)
    ensures city != "" && !IsChoiceValue(city) ==> r.error == Some(InvalidCitySubmitted)
  {
    var error :=
      if city == "" then Some(NoCitySelected)
      else if Find(Registry, city).None? then Some(InvalidCitySubmitted)
      else None;
    Validation(error, city)
  }

  /**
   * The two messages differ, and the empty string never gets the "invalid"
   * message: an error message alone tells which check rejected the value.
   */
  lemma MessagesIdentifyCheck(city: string)
    ensures NoCitySelected != InvalidCitySubmitted
    ensures ValidateCityValue(city).error == Some(InvalidCitySubmitted) <==> city != "" && !IsChoiceValue(city)
    ensures ValidateCityValue(city).error == Some(NoCitySelected) <==> city == ""
  {
  }
}
