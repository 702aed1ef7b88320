# Survey demo: verified model of the choice registry, validators and route logic

This project models the parts of a small survey web application ("what is
your favourite Polish city?") whose behaviour can be stated exactly:

- the **choice registry** (`app/lib/choices.ts`): four cities, each a slug
  (`value`) and a display label, the count `nChoices` and the slug-to-label
  map `choicesMap`;
- the **join-form validator** (`app/routes/survey.join/validate.ts`): empty
  input gives "No city was selected.", a non-empty value outside the registry
  gives "Invalid city submitted.", and the value is passed back unchanged;
- the **results-page validator** (`app/routes/survey.results/validate.ts`):
  empty input is accepted, a non-empty unknown value gives
  `{ city: "Invalid city." }`;
- the **join route** (`app/routes/survey.join/route.tsx`): the `action`
  reads the `city` form field, validates it (400 on error, nothing created),
  asks the database to create one survey connected to the city of that name
  (500 "Cannot connect to the database." if that throws, 200 with the
  connected city otherwise) and increments the per-process submission counter
  only on success; the `loader` reports that counter;
- the **results loader** (`app/routes/survey.results/route.tsx`): one
  statistics entry per registry choice in registry order, each count in
  1..100, and `CityStats.count` as the left-fold sum of the counts, which is
  at least four, so the bar-width division never divides by zero and no bar
  exceeds 100%;
- the **seed input builders** (`prisma/seed.ts`): `City` rows with ids 1..n
  and `Survey` rows, one contiguous block of `count_i` rows tagged `i + 1` per
  city;
- the **environment check** (`server.ts`): `validateEnv` and the
  accept-or-throw decision of `getLoadContext`.

The database create, the random number source and the submission counter are
abstracted: the create is an oracle `string -> CreateOutcome` (it throws, or
returns the connected city row), each `Math.floor(Math.random() * 100)` is an
input draw in 0..99, and the counter is the field of a small class.

Modules: `Wrappers` (Option, Result), `Choices`, `JoinValidate`,
`ResultsValidate`, `Submissions`, `JoinRoute`, `ResultsRoute`, `Seed`,
`Server`, one per source file. `label` is a Dafny keyword, so label fields
are named `labelText`.

Two facts about the code as written shape the model:

- the results loader does not read the database: it draws a random count in
  1..100 for every choice, so no count is zero, and it keeps registry order,
  with no sorting;
- `app/routes/survey.results/validate.ts` imports `choices` from
  `../route`, which provides no `choices`; the model checks that validator
  against the registry of `app/lib/choices.ts`.

## Model

| member | source | states |
|---|---|---|
| `Choices.RegistryShape` | app/lib/choices.ts:1-18 | the slugs are warszawa, krakow, wroclaw, gdansk in that order |
| `Choices.NChoices` | app/lib/choices.ts:20 | `nChoices`, the length of the registry, is 4 |
| `Choices.RegistryDistinct` | app/lib/choices.ts:2-17 | the slugs are pairwise distinct and none is empty |
| `Choices.ChoiceValues` | app/lib/choices.ts:1-18 | a string is a choice value exactly when it is one of the four city slugs |
| `Choices.Find` | app/routes/survey.join/validate.ts:6 | `find` by slug returns an entry of the list with that slug, the first such entry, and `undefined` exactly when no entry has it |
| `Choices.FindInRegistry` | app/routes/survey.join/validate.ts:6 | `find` over the registry succeeds exactly on choice values |
| `Choices.MapOf` | app/lib/choices.ts:21 | the `Map` built from `[value, label]` pairs in order (later pairs overwrite) has a key exactly for each slug of the list |
| `Choices.MapOfDistinct` | app/lib/choices.ts:21 | with distinct slugs, every slug maps to its own label and the map has one key per entry |
| `Choices.ChoicesMap` | app/lib/choices.ts:20-21 | `choicesMap` has a key exactly for each choice value, maps it to that choice's label, and its size is `nChoices` |
| `JoinValidate.ValidateCityValue` | app/routes/survey.join/validate.ts:3-14 | the error is absent iff the input is a choice value; empty input gives "No city was selected."; other non-choices give "Invalid city submitted."; the value is the input unchanged |
| `JoinValidate.MessagesIdentifyCheck` | app/routes/survey.join/validate.ts:4-8 | the two messages differ; "Invalid city submitted." iff non-empty and not a choice; "No city was selected." iff empty (emptiness is checked first) |
| `ResultsValidate.Validate` | app/routes/survey.results/validate.ts:3-14 | `errors` is null iff the input is empty or a choice value; otherwise it is the record whose only key `city` holds "Invalid city."; the value is the input unchanged |
| `Submissions.SubmissionCounter.constructor` | app/routes/survey.join/route.tsx:8 | the counter starts at zero |
| `Submissions.SubmissionCounter.Get` | app/routes/survey.join/route.tsx:22 | reading the counter returns its current value |
| `Submissions.SubmissionCounter.Increment` | app/routes/survey.join/route.tsx:60 | the counter grows by exactly one |
| `JoinRoute.FormCityValue` | app/routes/survey.join/route.tsx:29-30 | a missing or empty `city` field becomes the empty string; a text field is taken as it is |
| `JoinRoute.ActionResult` | app/routes/survey.join/route.tsx:28-71 | 400 with the validator's message and no create iff the value is not a choice; otherwise one create connecting exactly the validated value, 500 "Cannot connect to the database." if it throws, 200 with `{value: created.city.name, label: created.city.label}` if it returns; `ok` iff status 200 |
| `JoinRoute.Action` | app/routes/survey.join/route.tsx:28-71 | the response and the create issued are those of `ActionResult`; the counter grows by one on the success path and is unchanged on the 400 and 500 paths |
| `JoinRoute.Loader` | app/routes/survey.join/route.tsx:21-25 | returns the current counter with status 200 and changes nothing |
| `JoinRoute.MissingCityRejected` | app/routes/survey.join/route.tsx:30-39 | a form without `city` gets 400 "No city was selected." and no create |
| `JoinRoute.CreateNamesOneChoice` | app/routes/survey.join/route.tsx:44-49 | the name the create connects is the slug of exactly one registry entry |
| `ResultsRoute.Loader` | app/routes/survey.results/route.tsx:18-29 | one entry per choice, same length and order as the registry, matching value and label, each count in 1..100; `CityStats.count` equals the sum of the entry counts |
| `ResultsRoute.FoldCounts` | app/routes/survey.results/route.tsx:28 | the `reduce` left fold from `acc` equals `acc` plus the (independently defined) sum of the counts |
| `ResultsRoute.TotalBounds` | app/routes/survey.results/route.tsx:28 | with counts of at least one, the sum is at least the number of entries and no count exceeds it |
| `ResultsRoute.BarWidthBounded` | app/routes/survey.results/route.tsx:104 | the divisor `CityStats.count` is at least 4, and `0 < count * 100 <= total * 100` for every entry |
| `Seed.CitiesAreRegistry` | prisma/seed.ts:4-21 | the seed script's city list equals the registry |
| `Seed.CreateCities` | prisma/seed.ts:53 | one row per city; the ids are exactly 1..n and pairwise distinct |
| `Seed.CityIds` | prisma/seed.ts:53 | row `i` is `{name: cities[i].value, label: cities[i].label, id: i + 1}` |
| `Seed.CityNamesDistinct` | prisma/seed.ts:53 | no two seeded city rows share a name |
| `Seed.Seeds` | prisma/seed.ts:61-64 | one seed entry per city carrying its slug, each count in 1..100 |
| `Seed.Repeat` | prisma/seed.ts:67-68 | `Array.from({length: n}).map(_ => x)` has length n and holds only `x` |
| `Seed.Flatten` | prisma/seed.ts:69 | `flat()` yields as many rows as the blocks hold together, and every row comes from one of the blocks |
| `Seed.Blocks` | prisma/seed.ts:66-68 | one block per seed entry; block `i` holds `count_i` rows (none for a negative count), all tagged `cityId == i + 1` |
| `Seed.CreateSurveys` | prisma/seed.ts:66-69 | with non-negative counts the number of survey rows equals the sum of the seed counts; every row's `cityId` lies in 1..n |
| `Seed.FlattenBlockAt` | prisma/seed.ts:69 | after `flat()`, block `i` appears unchanged right after the blocks before it |
| `Seed.CountTagged` | prisma/seed.ts:66-69 | when block `k` holds rows tagged `k + 1` only, the flattened list has exactly the size of block `id - 1` rows tagged `id` |
| `Seed.SurveyRowsPerCity` | prisma/seed.ts:67-68 | exactly `count_i` rows carry `cityId == i + 1`, and no row carries an id outside 1..n |
| `Seed.SurveyRowsContiguous` | prisma/seed.ts:66-69 | the rows of city `i` form one block of `count_i` rows tagged `i + 1`, starting after the rows of the cities before it |
| `Seed.SurveyCityIdsExist` | prisma/seed.ts:53-68 | every survey row's `cityId` is the id of the city row `k` created for seed entry `k`, the entry carrying the same city name |
| `Server.GetLoadContext` | server.ts:21-30 | accepts iff `validateEnv` holds, returning `{env}` unchanged with a string `DATABASE_URL`; otherwise throws "[server] Missing environment variables" |
| `Server.ValidateEnv` | server.ts:34-36 | false for undefined or null `env`, for a missing `DATABASE_URL` key and for a non-string value; true for every string value |
| `Server.EmptyDatabaseUrlAccepted` | server.ts:35 | an empty `DATABASE_URL` string passes the check and the context is built |

## Left out

- React rendering: the `Create` components, `ResultStatsFallback`,
  `ResultStatsError`, toasts, `useFetcher`/`useRevalidator`, Suspense/Await;
  these are user interface.
- The results loader's `Promise`, `setTimeout` and `defer` wrapping; only the
  computed `CityStats` is modelled.
- `Math.random`: each draw `Math.floor(Math.random() * 100)` is an input in
  0..99; its distribution is not modelled.
- The floating-point percentage string of the bar width; only the integer
  facts (positive divisor, count not above total) are stated.
- The Prisma client, the Neon pool and its websocket configuration
  (`app/lib/prisma.server.ts`): foreign library calls. The create in the
  action is an oracle; which row a real connect-by-name returns is not
  modelled.
- The seed script's `main`, its `deleteMany`/`createMany` calls and the raw
  SQL grouping query: database I/O and SQL semantics.
- `console.log`/`console.dir`, `createPagesFunctionHandler` and
  `logDevReady`: framework plumbing.
- `~/lib/submissions` is not part of this model: the counter is a class
  field that starts at zero, is read by `Get` and grows by one in
  `Increment`; whether it is shared across requests or instances is not
  modelled.
- `JoinRoute.ActionResult` and `JoinRoute.Action` take the form as already
  parsed and the database client as already constructed: a failure of
  `await request.formData()` or of `getPrisma(context.env)`, which run outside
  the `try` and so escape `action` as thrown errors rather than the JSON 500
  response, is not modelled; only a throwing `create` is.
- `FormCityValue` models a form entry as absent, text, or a file upload
  (`String` of a file is "[object File]"); only the first `city` entry is
  seen, as `formData.get` returns.
- Layout, navigation and build configuration (`app/root.tsx`,
  `app/routes/_index.tsx`, `app/routes/survey._index/route.tsx`,
  `tailwind.config.ts`, `remix.config.js`).
