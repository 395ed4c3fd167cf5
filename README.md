# Patient record store — a Dafny model

This project models the backend of a patient management system. A FastAPI
service keeps patients in a JSON data file, keyed by patient identifier. Every
route loads the whole file. The create, update and delete routes then change
the table in memory and write the whole file back. They then hand the table to a
background worker that mirrors it into SurrealDB as one transaction. The get,
list and sort routes only read.

The model has four modules, one file each:

- `Wrappers` (`wrappers.dfy`): `Option`, `Result` and `Outcome` values.
- `Orm` (`orm.dfy`): the patient constraints, the derived bmi and verdict, the
  stored row, validation with the list of failing fields, and the patch type.
  The patch fields are three-state (`Unset | Null | Given`).
- `Api` (`api.dfy`): each route as a pure function over the table
  (`Lookup`, `Create`, `Update`, `Delete`, `SortEntries`), and the class
  `ApiClient`. Its field `file` is the data file (missing, unreadable or
  present with a table). Its field `writable` says whether writes succeed. Its
  ghost log `events` records each file write and each mirror submission, in
  order. Every route method ties its response and its new state to the pure
  function.
- `Database` (`database.dfy`): record tagging, one `CREATE` statement per
  patient, and the `BEGIN TRANSACTION; … COMMIT;` query. `json.dumps` is the
  parameter `dumps`, and the database's answer to the query is the parameter
  `accepts`.

Numbers: heights and weights are exact reals. The bmi is an integer number of
hundredths (2612 stands for 26.12). It is rounded to the nearest hundredth,
with halves rounded up. The verdict thresholds 18.5, 24.9, 25 and 30 become
1850, 2490, 2500 and 3000. Rounding to two decimals and comparing with the
float literals gives the same bands on hundredths.

Choices the code makes that the model keeps:

- The gender literals are `male`, `female` and `others`.
- `name` and `city` may be any string, including the empty one.
- The band `24.9 ≤ bmi < 25` gives `Obese`.
- A create body that fails `Patient` validation is rejected by the framework
  before the route runs, so `CreatePatient` takes an already valid `Patient`.

## Model

| member | source | states |
|---|---|---|
| `Orm.Round` | src/backend/orm.py:21 | the result is the integer nearest to the argument: within half a unit |
| `Orm.RoundIsNearest` | src/backend/orm.py:21 | the integer within half a unit is unique, so rounding is determined |
| `Orm.BmiOf` | src/backend/orm.py:17-21 | bmi is weight / height² to the nearest hundredth |
| `Orm.Verdict` | src/backend/orm.py:23-35 | Underweight iff bmi < 18.5; Normal iff 18.5 ≤ bmi < 24.9; Overweight iff 25 ≤ bmi < 30; Obese iff 24.9 ≤ bmi < 25 or bmi ≥ 30 |
| `Orm.VerdictIsTotal` | src/backend/orm.py:25-35 | every bmi maps to exactly one of the four labels |
| `Orm.VerdictGapIsObese` | src/backend/orm.py:30-35 | the band [24.9, 25) is Obese, unlike bmi 24.89 (Normal) and 25.00 (Overweight) |
| `Orm.Dump` | src/backend/orm.py:17-35 | a dumped patient row is valid and carries a bmi and verdict recomputed from its height and weight; unpacking it gives the patient's own fields back |
| `Orm.Unpack` | src/backend/api.py:134 | the stored row's fields as keyword arguments under the given id; they validate iff the row's age, gender, height and weight meet their bounds, and then give exactly the row's values |
| `Orm.FieldErrors` | src/backend/orm.py:10-15 | each field is reported exactly when it is null or breaks its constraint (0 < age < 120, gender in {male, female, others}, height > 0, weight > 0) |
| `Orm.Validate` | src/backend/orm.py:8-15 | validation succeeds iff no field fails, then yields a patient with exactly the draft's values; otherwise it fails with the non-empty list of failing fields |
| `Orm.ValidateAcceptsExactlyValid` | src/backend/orm.py:12-15 | a full set of fields is accepted iff the patient constraints hold |
| `Orm.DumpRoundTrip` | src/backend/orm.py:8-21 | validating a dumped row under its own id gives the same patient back |
| `Orm.OverlayKeepsBounds` | src/backend/orm.py:41-47 | patch fields carry the patient's bounds, so a patch without nulls keeps a valid patient valid |
| `Orm.Overlay` | src/backend/api.py:135-136 | a field the patch sends replaces the stored one, a field it does not send keeps the stored value, and a field sent as null becomes null |
| `Api.Load` | src/backend/api.py:32-44 | loading gives the file's table; a missing file is 404 "Data file not found", any other failure 500 "Failed to load data" |
| `Api.Lookup` | src/backend/api.py:94-99 | a present id gives its row, an absent id gives 404 "Patient not found" |
| `Api.Create` | src/backend/api.py:119-122 | an existing id is 400 "Patient ID already exists"; otherwise exactly the new id is added, mapped to the dumped patient, and every other entry is unchanged |
| `Api.Merge` | src/backend/api.py:134-137 | the stored row overlaid field by field with the patch, as `Overlay` states, with the identifier forced to the path id |
| `Api.Update` | src/backend/api.py:129-147 | an absent id is 404. A present id succeeds iff the merged fields validate. Fields the patch gives override the stored ones, unset fields keep the stored values, and the id is forced to the path id. A null or invalid merged field is 400 with the failing fields. On success only the row at id changes, to the dumped patient with a recomputed bmi and verdict |
| `Api.Delete` | src/backend/api.py:151-159 | a present id is removed and every other entry kept; an absent id is 404 |
| `Api.RoutesKeepConsistency` | src/backend/api.py:122-153 | create, update and delete keep every stored row valid, with up-to-date bmi and verdict |
| `Api.CreateThenGet` | src/backend/api.py:118-125 | a created patient is found with its dumped row, and a second create of the same id conflicts |
| `Api.DeleteThenGet` | src/backend/api.py:151-156 | after a delete the id is not found |
| `Api.UpdateOfValidRowSucceeds` | src/backend/api.py:134-141 | a patch with no nulls on a valid stored row always validates |
| `Api.UpdateExample` | src/backend/api.py:134-141 | age 30, height 1.75, weight 70 patched to weight 80 keeps age and height and gives bmi 26.12, Overweight |
| `Api.ParseSortField` | src/backend/api.py:103-106 | a column is accepted iff it is one of height, weight, bmi, age, and each name selects its own column |
| `Api.Insert` | src/backend/api.py:112 | inserting adds one entry: the length grows by one and every earlier entry and the new one are present |
| `Api.SortEntries` | src/backend/api.py:112 | the sort, an insertion sort standing in for `sort_values`, keeps the length and every entry; `SortPermutes` and `SortOrders` state the permutation and the order |
| `Api.TableEntries` | src/backend/api.py:38 | the listing built from the table holds each of its entries exactly once |
| `Api.ListingFacts` | src/backend/api.py:38 | a listing has every row under its own id, every id of the table, and no id twice |
| `Api.InsertPermutes` | src/backend/api.py:112 | inserting one entry adds exactly that entry |
| `Api.InsertKeepsOrder` | src/backend/api.py:112 | inserting into an ordered listing keeps it ordered |
| `Api.SortPermutes` | src/backend/api.py:112 | sorting permutes the listing |
| `Api.SortOrders` | src/backend/api.py:111-112 | the sorted listing is non-decreasing in the column for asc and non-increasing for desc |
| `Api.ApiClient.constructor` | src/backend/api.py:20-29 | a client starts on the given file with no writes or mirror submissions |
| `Api.ApiClient.SaveDataToJson` | src/backend/api.py:46-53 | the whole file is replaced by the table; a failed write is 500 "Failed to save data" and leaves the file as it was |
| `Api.ApiClient.SaveDataToDb` | src/backend/api.py:67-69 | the table is submitted to the mirror writer, after every earlier submission |
| `Api.ApiClient.Persist` | src/backend/api.py:71-74 | the file is written first, and the mirror write is submitted only after that write succeeded; a failed write submits nothing |
| `Api.ApiClient.GetPatientsData` | src/backend/api.py:86-89 | the whole table with 200, or the load error |
| `Api.ApiClient.GetPatientsById` | src/backend/api.py:91-99 | the stored row with 200 when present, 404 when absent, or the load error; nothing changes |
| `Api.ApiClient.SortPatients` | src/backend/api.py:101-114 | a bad column is 400, and an order other than `asc` or `desc` (`ValidOrder`) is 400, whatever the file holds. Otherwise the result is the load error, or 200 with a permutation of the table ordered by the chosen column's value (`Key`) |
| `Api.ApiClient.CreatePatient` | src/backend/api.py:116-125 | load error, conflict and failed write leave the file and the log untouched. Success writes exactly `Create`'s table, then submits it to the mirror, answers 201 with the patient, and the patient can then be fetched |
| `Api.ApiClient.UpdatePatient` | src/backend/api.py:127-147 | not found, validation failure and failed write leave the file and the log untouched. Success replaces the row with the validated patient, persists, answers 200, and the new row can then be fetched |
| `Api.ApiClient.DeletePatient` | src/backend/api.py:149-159 | not found and failed write leave everything untouched. Success persists the table without the id, answers 200 with the id, and the id is then not found |
| `Database.Tag` | src/backend/database.py:56-59 | the record holds the patient's own fields plus `patient_id`; it equals the key unless the fields already carry one |
| `Database.RecordKey` | src/backend/database.py:63 | the record key is `patient:` followed by exactly the id |
| `Database.CreateStatement` | src/backend/database.py:62-64 | the statement is a newline and 20 spaces, `CREATE `, the record key, ` CONTENT `, the serialised record, then `;`, a newline and 16 spaces, each at its own position |
| `Database.Statements` | src/backend/database.py:53-64 | one statement per patient when every record serialises |
| `Database.StatementsShape` | src/backend/database.py:53-64 | statements exist iff every record serialises, one per patient in input order, each creating `patient:{id}` with that patient's tagged record |
| `Database.BuildStatements` | src/backend/database.py:51-64 | the loop builds exactly those statements, and stops with a failure at the first record that cannot be serialised |
| `Database.OffsetStep` | src/backend/database.py:68 | each joined statement starts one newline after the previous one ends |
| `Database.Join` | src/backend/database.py:68 | joining no strings is empty; otherwise the join ends where the last string ends, at its offset |
| `Database.JoinLayout` | src/backend/database.py:68 | every string sits at its offset in the join, followed by the separator unless it is last |
| `Database.QueryLayout` | src/backend/database.py:68 | the query starts with `BEGIN TRANSACTION;\n`, ends with `\nCOMMIT;`, and holds every statement in order, newline-separated |
| `Database.TransactionQuery` | src/backend/database.py:68 | the query is `BEGIN TRANSACTION;\n`, then exactly the newline-joined statements, then `\nCOMMIT;` |
| `Database.SurrealDataBase.constructor` | src/backend/database.py:10-22 | a fresh connection has sent no query |
| `Database.SurrealDataBase.ImportPatients` | src/backend/database.py:44-74 | no patients sends nothing. A serialise failure sends nothing and fails. Otherwise exactly one transaction query is sent, and its failure is passed to the caller |

## Left out

- HTTP routing, `JSONResponse` and `HTTPException` plumbing: responses are `Ok(status, body)` or `Err(ApiError(status, detail))`. The liveness routes `/` and `/about` only return constant messages and are not modelled.
- The framework's validation of request bodies, which answers 422 before a route runs, is not modelled. `CreatePatient` takes a `Patient`, and `UpdatePatient` takes a `PatientUpdate`, that already meet their bounds.
- JSON file I/O and pandas internals: the file is a `FileState`, and write failures are the `writable` flag. A row is assumed to hold every field with the right type; pandas' handling of missing columns, NaN and type coercion is not modelled. The order of rows in the file is not modelled, so `TableEntries` lists them in an unspecified order.
- `Api.Create` and `Api.ApiClient.CreatePatient`: when the data file holds `{}`, for example after the last delete, pandas reads a frame with no columns. Assigning the new row to it then raises, so the source answers 500 rather than 201. This rests on pandas' indexing behaviour, which is not part of this model; the model adds the row in that case too.
- `Api.ApiClient.SortPatients`: on the same `{}` file the frame has no column to sort by, so `sort_values` raises and the source answers 500. The model answers 200 with an empty listing. This also rests on pandas' behaviour, which is not part of this model. Get, list, update and delete are unaffected: on `{}` they answer with an empty table or 404.
- `Api.ApiClient.SortPatients`: the source's `order` parameter defaults to `"asc"` when the query omits it. The model has no default, so callers pass `"asc"` explicitly.
- `Api.ApiClient.SaveDataToJson`: a write that fails part way could leave a truncated file; the model leaves the file as it was.
- `Api.ApiClient.SortPatients`: stability is not claimed. The order among equal keys is left open, and the `sort_values` algorithm is replaced by an insertion sort.
- The thread pool and `asyncio.run` dispatch (`save_data_to_db_async`), its connect, import and close calls, and its logged errors: `SaveDataToDb` only appends a ghost submission event. Concurrent requests and their lost-update race are not modelled. `shutdown` is not modelled.
- SurrealDB `use_connection`, `close_connection` and `client.query` are network calls into a library that is not part of this model. The query's outcome is the parameter `accepts`.
- `json.dumps` output is opaque: it is the parameter `dumps`, and `None` stands for a serialiser that raises.
- `Orm.Round`: Python's `round` on binary floats (half to even on the binary value), and IEEE-754 arithmetic in general, are not modelled. The model rounds exact reals with halves up.
- The text of pydantic's error messages is not modelled: a validation failure carries the list of failing fields.
- Logging, process start-up, the utility scripts and all of the graphical client are not part of this model.
