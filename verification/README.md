# Clinical Study storage and request rules, in Dafny

A model of the core of the Clinical Study ultrasound application: a Flask
server where an operator uploads an image, gets a label from a remote
classifier, and then saves the image with the predicted label and a
clinician's diagnosis. This model covers the rules that application
enforces, plus its two storage backends.

- **Request handlers** (`app.dfy`, module `App`):
  - `allowed_file` checks the extension of an uploaded name.
  - The upload key is built as `secure_filename(stem) + "_" + timestamp + "." + ext`.
  - `/upload` writes the image but stores no row. It rejects bad requests in a fixed order.
  - `/save` trims its three fields and rejects empty ones, then a missing image. It then appends exactly one row.
  - `/history` and `/export` project the stored rows in ascending id order.
  - The upload folder and the `predictions` table are fields of class `App.Server`, which those handlers update.
- **The `predictions` table** (`predictions.dfy`, module `Predictions`):
  - Both the application's inline SQLite code and the local backend create this table.
  - The model holds its schema version, its rows and the next AUTOINCREMENT id.
  - It covers the idempotent schema set-up (`CREATE TABLE IF NOT EXISTS`, then an `ALTER TABLE` whose failure is swallowed).
  - It also covers the `ORDER BY id` selection and the rule that a new id is larger than every id already in the table.
- **Local backend** (`local_storage.dfy`, class `LocalStore.LocalStorage`): a folder of blobs as a map from file name to bytes, together with the table. Its methods write a file, insert a row and list the rows.
- **Cloud backend** (`supabase.dfy`, module `Supabase`):
  - Once the HTTP traffic is removed, what is left is pure string construction.
  - The base URL has its trailing slashes stripped.
  - The model covers the request each operation sends: URL, headers, query parameters and body.
  - It also covers the value each operation returns for a given response. A 4xx or 5xx status raises.
- **Shared helpers** (`text.dfy`, module `Text`): the Python string operations the source relies on and the `/uploads/<name>` route.

Three facts about the code shape the model:

- The upload key depends only on the name and the current second. Two uploads of the same name within one second get the same key, so the second replaces the first. `App.SameSecondUploadsShareKey` states this.
- `app.py` imports neither backend and has its own SQLite code. The model therefore keeps the handlers and the two backends as separate components, with no facade and no backend selection.
- `/save` reads only `filename`, `result` and `diagnosis` from its body, so the model's save body has only those three fields.

## Model

| member | source | states |
|---|---|---|
| Text.TrimStartDropsPrefix | app.py:108-110 | what `strip()` removes at the front is a prefix of the field made only of whitespace, and the rest of the field is kept unchanged |
| Text.TrimEndDropsSuffix | storage_supabase.py:13 | what `rstrip('/')` (and the back half of `strip()`) removes is a suffix made only of the dropped characters, and the rest is a prefix of the original |
| Text.StripEmptyIff | app.py:108-115 | after `strip()`, a field is empty exactly when it held only whitespace (Python's `isspace` set), so a whitespace-only field is rejected as missing |
| App.SplitExt | app.py:84-85 | `rsplit('.', 1)` on a name with a dot: the name is `stem + "." + ext` with no dot in `ext` |
| App.SplitExtUnique | app.py:56 | any split of a name at a dot with no dot after it is the one `rsplit('.', 1)` finds |
| App.AllowedFile | app.py:55-56 | a name without a dot is never accepted |
| App.AllowedFileByExtension | app.py:23 | for a name `stem.ext` with no dot in `ext`, `allowed_file` holds exactly when `ext` lower-cased is one of png, jpg, jpeg, gif, bmp, webp, whatever the stem |
| App.UpperCaseAfterLastDotAccepted | app.py:56 | any name ending in `.PNG` is accepted, whatever precedes it, earlier dots included: the check ignores case and looks past the last dot only |
| App.AllowedExtensionBeforeLastDotRejected | app.py:56 | any name ending in `.png.txt` is rejected: only the text after the last dot counts |
| App.UploadKey | app.py:83-86 | the stored name of an upload: `secure_filename` of the text before the last dot, `_`, the timestamp, a dot, and the text after the last dot lower-cased; it always has a dot before its extension |
| App.UploadKeyOfParts | app.py:84-86 | for any name `stem.ext` with no dot in `ext`, the key is `secure(stem) + "_" + timestamp + "." + lower(ext)`, however many dots the stem holds |
| App.UploadKeyAllowed | app.py:83-86 | the generated key `safe_name_timestamp.ext` itself passes `allowed_file`, and splits into `secure(stem) + "_" + timestamp` and the lower-cased original extension |
| App.Server.constructor | app.py:18-25 | the upload folder is `data_dir/uploads`, existing files are kept, and the table is the result of running `init_db` on the database already on disk |
| App.Server.UploadImage | app.py:69-101 | 400 with no write when the `image` field is missing, then when the name is empty, then when the extension is disallowed. Otherwise the bytes are written under the generated key (which passes `allowed_file`, by `App.UploadKeyAllowed`). The reply is 200 with `image_url == "/uploads/" + key` or, when the prediction fails, 500. No row is stored either way |
| App.Server.SaveRecord | app.py:104-141 | the fields are trimmed. An empty filename or result gives 400 before the diagnosis is looked at, an empty diagnosis gives 400, and a key with no uploaded file gives 400. None of these inserts a row. Otherwise exactly one row is appended with the next id, which exceeds every earlier id, and the reply carries `id == number` and `image_url == "/uploads/" + filename` |
| App.Server.History | app.py:150-170 | one record per stored row, in strictly ascending id order, with `number == id`, a NULL diagnosis as `''` and `image_url == "/uploads/" + filename` |
| App.Server.ExportData | app.py:173-212 | JSON exactly when the lower-cased `format` argument (default `csv`) is `json`, CSV with columns number, filename, ai_prediction, actual_diagnosis, created_at otherwise. Both carry the same record list, one per row in ascending id order |
| App.HistoryRecords | app.py:158-169 | one record per selected row, in order: `id` and `number` are the row id, a NULL diagnosis becomes `''`, and `image_url` is `"/uploads/" + filename` |
| App.ExportRecords | app.py:182-191 | one record per selected row, in order: `number` is the row id, `ai_prediction` the result, and `actual_diagnosis` the diagnosis with NULL as `''` |
| App.WantsJson | app.py:175 | the `format` argument, default `csv`, lower-cased, equals `json`; so a missing argument never selects JSON, and a selecting argument has four characters |
| App.ExportMatchesHistory | app.py:158-191 | the export records and the history records describe the same rows field for field |
| App.WantsJsonExamples | app.py:175 | `JSON` selects JSON; a missing argument, `xml` and the empty string select CSV |
| App.SameSecondUploadsShareKey | app.py:83-88 | two uploads of the same name in the same second get the same key, and the second overwrites the first's bytes |
| Predictions.Migrate | storage_local.py:15-32 | schema set-up: a missing table becomes an empty current one starting at id 1. A legacy table gains the `diagnosis` column with `''` in every existing row. A current table is left exactly as it is |
| Predictions.MigrateIdempotent | storage_local.py:15-32 | running the schema set-up twice equals running it once |
| Predictions.MigrateReady | app.py:34-52 | the schema set-up leaves a well-formed table ready for inserts |
| Predictions.SelectAll | storage_local.py:54-56 | the selection returns one row per stored row with the selected columns, in storage order |
| Predictions.SelectAllAscending | storage_local.py:55 | on a table kept in id order, the selection comes out in strictly ascending id order |
| Predictions.AppendWellFormed | storage_local.py:19 | a row appended with the table's next id keeps ids positive, strictly ascending and below the counter, and its id exceeds every earlier id (AUTOINCREMENT) |
| LocalStore.LocalStorage.constructor | storage_local.py:8-13 | the upload folder is `data_dir/uploads`, the database is `data_dir/clinical_study.db`, and the table is the existing one after `_init_db` |
| LocalStore.LocalStorage.InitDb | storage_local.py:15-32 | the table becomes the result of the schema set-up. On a table that was already ready nothing changes, so a second run is a no-op |
| LocalStore.LocalStorage.SaveFile | storage_local.py:34-37 | the folder maps `filename` to exactly `data`, replacing earlier bytes, and nothing else changes. `file_exists` then holds. The result is the path `upload_folder/filename` and the same URL `get_image_url` gives |
| LocalStore.LocalStorage.InsertRecord | storage_local.py:39-49 | exactly one row is appended with the given fields, and earlier rows are unchanged. The returned id is the new row's, greater than every earlier id. The URL is the one `get_image_url` gives |
| LocalStore.LocalStorage.GetImageUrl | storage_local.py:60-61 | the URL is `/uploads/` followed by exactly the file name |
| LocalStore.LocalStorage.FileExists | storage_local.py:63-64 | holds exactly when the upload folder holds a file of that name |
| LocalStore.LocalStorage.GetAllRecords | storage_local.py:51-58 | every row with the selected columns, in strictly ascending id order |
| Supabase.Connect | storage_supabase.py:12-18 | a missing `SUPABASE_URL` and then a missing `SUPABASE_KEY` raise. Otherwise the base URL is the given one with exactly its trailing slashes removed, so it never ends with `/` |
| Supabase.TrailingSlashesIgnored | storage_supabase.py:13 | a URL followed by any number of slashes gives the same base URL as the bare URL |
| Supabase.ContentType | storage_supabase.py:23 | `image/png` exactly when the lower-cased name ends in `.png`, otherwise `image/jpeg` |
| Supabase.ContentTypeExamples | storage_supabase.py:23 | for every stem, names ending in `.gif`, `.bmp` or `.webp` are labelled `image/jpeg`, and a name ending in upper-case `.PNG` is labelled `image/png` |
| Supabase.SupabaseStorage.Headers | storage_supabase.py:15-18 | exactly two headers: `Authorization: Bearer <key>` and `apikey: <key>` |
| Supabase.SupabaseStorage.PublicUrl | storage_supabase.py:27 | the public URL of an object starts with the base URL and ends with the object path, with the fixed `/storage/v1/object/public/uploads/` between them |
| Supabase.SupabaseStorage.PublicUrlInjective | storage_supabase.py:27 | distinct object paths have distinct public URLs |
| Supabase.SupabaseStorage.SaveFileRequest | storage_supabase.py:20-25 | the upload is a POST of exactly the bytes to `base/storage/v1/object/uploads/images/<name>`, with exactly the headers `Authorization: Bearer <key>`, `apikey: <key>` and a `Content-Type` chosen from the name |
| Supabase.SupabaseStorage.UploadedObjectIsPublished | storage_supabase.py:21-27 | the public URL `save_file` returns is its upload URL with `public/` inserted after `/storage/v1/object/`, so both name bucket `uploads` and path `images/<name>` |
| Supabase.SupabaseStorage.SaveFile | storage_supabase.py:20-28 | fails exactly on a 4xx/5xx status. Otherwise it returns the path `images/<name>` and that path's public URL `base/storage/v1/object/public/uploads/<path>` |
| Supabase.SupabaseStorage.InsertRecordRequest | storage_supabase.py:30-45 | the insert is a POST to `base/rest/v1/predictions` whose JSON row carries the given fields and the image URL derived from `filepath`, with exactly the headers `Authorization: Bearer <key>`, `apikey: <key>`, `Content-Type: application/json` and `Prefer: return=representation` |
| Supabase.SupabaseStorage.InsertRecord | storage_supabase.py:30-49 | fails exactly on a 4xx/5xx status. Otherwise the id is the first returned row's, or none when no row came back, and the URL is derived from `filepath` |
| Supabase.SupabaseStorage.GetAllRecordsRequest | storage_supabase.py:51-58 | a GET of `base/rest/v1/predictions` with the single parameter `order=id` and exactly the headers `Authorization: Bearer <key>`, `apikey: <key>` and `Accept: application/json` |
| Supabase.SupabaseStorage.GetAllRecords | storage_supabase.py:51-71 | fails exactly on a 4xx/5xx status. Otherwise it returns one record per returned row, in the order received. A missing or null `diagnosis` or `image_url` becomes `''` |
| Supabase.SupabaseStorage.LocalImageRoute | storage_supabase.py:73-77 | `file_exists` holds for every name, and `get_image_url` is `"/uploads/" + filename` |
| Supabase.SupabaseStorage.SaveThenInsertSameUrl | storage_supabase.py:27-31 | inserting with the path `save_file` returned posts and returns the same image URL that `save_file` returned |

## Left out

- Flask plumbing is not modelled: routing, parsing of `request.files` and `get_json`, `jsonify`, templates, `send_from_directory`, `/health`, and the 16 MB request cap. A handler's outcome is a status plus a payload.
- A request body that is not a JSON object is not modelled, nor is a `/save` field whose value is not a string (Python would raise on `.strip()`). An upload part whose filename is `None` is not modelled either.
- The inference call in `model.py` is a network client. The handler takes its outcome (a label, or the message of the exception it raised) as an input, so the label fallback of `model.py` is not modelled.
- Base64 encoding and the CSV and JSON serialisers are library calls. Only the record lists given to them are modelled.
- werkzeug's `secure_filename` and the `strftime` timestamp are inputs: the first as an opaque function, the second as a string. So is the database's `CURRENT_TIMESTAMP`.
- Environment variables (`DATA_DIR`, `SUPABASE_URL`, `SUPABASE_KEY`) are parameters.
- SQLite connections, commits and SQL text are not modelled. The table is a schema version, a sequence of rows and an id counter.
- Local disk and database I/O failures are not modelled. So the 500 reply of `/save`, a failed file write in `/upload`, and the exceptions of the local backend do not occur in the model.
- The 63-bit limit of SQLite row ids is not modelled: ids are unbounded integers.
- Paths are joined as `dir + "/" + name`, and the upload folder is a map keyed by file name. So the model does not capture Path normalisation of the data directory, or names that contain `/` or `..`, are absolute, or name a directory.
- `lower()` is modelled for ASCII letters only. Non-ASCII case mappings are left out. `strip()` uses Python's full whitespace set.
- HTTP traffic to Supabase is not modelled. Each operation takes the response status and its rows as inputs. Connection errors, timeouts and undecodable JSON are not modelled, and neither are response rows that lack `id`, `filename`, `result` or `created_at`.
- Threading (`threaded=True`) and concurrent requests are not modelled.
