/**
 * The results page's city validator (app/routes/survey.results/validate.ts).
 * Unlike the join validator it accepts the empty value. The source imports
 * `choices` from `../route`, which provides no `choices`; the model checks
 * against the registry of app/lib/choices.ts.
 */
module ResultsValidate {
  import opened Wrappers
  import opened Choices

  const InvalidCity: string := "Invalid city."

  /** `{ errors, value }`: `errors` is `null` or a record of field messages. */
  datatype Validation = Validation(errors: Option<map<string, string>>, value: string)

  /**
   * `validate(city)`: builds an empty error record, sets its `city` field when
   * a non-empty value is not a choice, and reports `null` when the record
   * stayed empty.
   */
  method Validate(city: string) returns (r: Validation)
    ensures r.value == city
    ensures r.errors.None? <==> city == "" || IsChoiceValue(city)
    ensures r.errors.Some? ==> r.errors.value == map["city" := InvalidCity]
  {
    var errors: map<string, string> := map[];
    if city != "" && Find(Registry, city).None? {
      errors := errors["city" := InvalidCity];
    }
    if |errors| > 0 {
      r := Validation(Some(errors), city);
    } else {
      r := Validation(None, city);
    }
  }
}
