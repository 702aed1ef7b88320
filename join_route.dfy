/**
 * The server side of the join page (app/routes/survey.join/route.tsx): the
 * `action` that validates a submitted city, records it through the database
 * and counts it, and the `loader` that reports the count. The database create
 * is an oracle from the city name to connect to what the create does.
 */
module JoinRoute {
  import opened Wrappers
  import opened Choices
  import opened JoinValidate
  import opened Submissions

  const DbError: string := "Cannot connect to the database."

  /** What `String(x)` gives for an uploaded file. */
  const FileString: string := "[object File]"

  /** The first `city` entry of the submitted form data, if any. */
  datatype FormEntry = Absent | Text(s: string) | Upload

  /** A `City` row of the database. */
  datatype CityRow = CityRow(id: int, name: string, labelText: string)

  /** What `prisma.survey.create` does when asked to connect a city name. */
  datatype CreateOutcome = Throws | Created(city: CityRow)

  /** The `{ value, label }` pair sent back on success. */
  datatype CityView = CityView(value: string, labelText: string)

  /**
   * The action's JSON body: `{ ok: false, error }` or
   * `{ ok: true, errors: null, city }`.
   */
  datatype ActionBody = Failed(error: string) | Submitted(city: CityView) {
    predicate Ok() { Submitted? }
  }

  /** The loader's JSON body `{ nSubmissions }`. */
  datatype LoaderBody = LoaderBody(nSubmissions: nat)

  /** `json(body, status)`. */
  datatype JsonResponse<T> = JsonResponse(body: T, status: int)

  /** The response, and the city name the create was asked to connect (`None`: no create). */
  datatype ActionOutcome = ActionOutcome(response: JsonResponse<ActionBody>, create: Option<string>)

  /** `String(formData.get('city') || '')`: a missing or empty entry becomes the empty string. */
  function FormCityValue(entry: FormEntry): (v: string)
    ensures v == "" <==> entry == Absent || entry == Text("")
    ensures entry.Text? ==> v == entry.s
  {
    match entry
    case Absent => ""
    case Text(s) => s
    case Upload => FileString
  }

  /**
   * The decision the action makes for one submission: 400 with the
   * validator's message and no create when validation fails; otherwise one
   * create connecting the validated value, then 500 if it throws and 200 with
   * the connected city if it returns.
   */
  function ActionResult(entry: FormEntry, db: string -> CreateOutcome): (r: ActionOutcome)
    ensures var v := FormCityValue(entry);
      && (r.create.None? <==> !IsChoiceValue(v))
      && (r.create.Some? ==> r.create.value == v)
      && (r.response.status == 400 <==> !IsChoiceValue(v))
      && (!IsChoiceValue(v) ==>
            r.response.body == Failed(if v == "" then NoCitySelected else InvalidCitySubmitted))
      && (IsChoiceValue(v) && db(v).Throws? ==> r.response == JsonResponse(Failed(DbError), 500))
      && (IsChoiceValue(v) && db(v).Created? ==>
            r.response == JsonResponse(Submitted(CityView(db(v).city.name, db(v).city.labelText)), 200))
    ensures r.response.body.Ok() <==> r.response.status == 200
  {
    var validation := ValidateCityValue(FormCityValue(entry));
    if validation.error.Some? then
      ActionOutcome(JsonResponse(Failed(validation.error.value), 400), None)
    else
      match db(validation.value)
      case Throws => ActionOutcome(JsonResponse(Failed(DbError), 500), Some(validation.value))
      case Created(city) =>
        ActionOutcome(JsonResponse(Submitted(CityView(city.name, city.labelText)), 200), Some(validation.value))
  }

  /**
   * `action`: validates, issues the create, and increments the counter only
   * after the create has returned a row.
   */
  method Action(counter: SubmissionCounter, entry: FormEntry, db: string -> CreateOutcome)
    returns (response: JsonResponse<ActionBody>, create: Option<string>)
    modifies counter
    ensures ActionOutcome(response, create) == ActionResult(entry, db)
    ensures counter.nSubmissions == old(counter.nSubmissions) + (if response.body.Ok() then 1 else 0)
  {
    var cityValue := FormCityValue(entry);
    var validation := ValidateCityValue(cityValue);
    if validation.error.Some? {
      response, create := JsonResponse(Failed(validation.error.value), 400), None;
      return;
    }
    create := Some(validation.value);
    var created := db(validation.value);
    match created {
      case Throws =>
        response := JsonResponse(Failed(DbError), 500);
      case Created(city) =>
        var view := CityView(city.name, city.labelText);
        counter.Increment();
        response := JsonResponse(Submitted(view), 200);
    }
  }

  /** `loader`: reports the counter with status 200 and leaves it as it is. */
  method Loader(counter: SubmissionCounter) returns (response: JsonResponse<LoaderBody>)
    ensures response == JsonResponse(LoaderBody(counter.nSubmissions), 200)
  {
    var n := counter.Get();
    response := JsonResponse(LoaderBody(n), 200);
  }

  /** A form without a `city` entry is answered 400 "No city was selected." and creates nothing. */
  lemma MissingCityRejected(db: string -> CreateOutcome)
    ensures ActionResult(Absent, db) == ActionOutcome(JsonResponse(Failed(NoCitySelected), 400), None)
  {
  }

  /**
   * Every create the action issues names exactly one registry entry, so the
   * connect-by-name has one city to find.
   */
  lemma CreateNamesOneChoice(entry: FormEntry, db: string -> CreateOutcome)
    ensures var r := ActionResult(entry, db);
      r.create.Some? ==> exists i :: 0 <= i < |Registry| && Registry[i].value == r.create.value &&
                                     forall j :: 0 <= j < |Registry| && j != i ==> Registry[j].value != r.create.value
  {
    var r := ActionResult(entry, db);
    if r.create.Some? {
      var v := r.create.value;
      RegistryDistinct();
      var c :| c in Registry && c.value == v;
      var i :| 0 <= i < |Registry| && Registry[i] == c;
      assert forall j :: 0 <= j < |Registry| && j != i ==> Registry[j].value != v;
    }
  }
}
