# LMNH plant-health ETL, modelled in Dafny

The LMNH Plant Health Monitor polls a plants API for plant ids
0..`TOTAL_NUMBER_OF_PLANTS` (50). It flattens each JSON reply into one row
of a table. It cleans the plant names and brings the two timestamp columns
to UTC. Finally it writes the readings into the `recording` table of a SQL
Server database, one committed insert per row. It can also resolve each
row's botanist, species and country foreign keys by exact-match lookups.

This project models that core:

- `wrappers.dfy`: `Option`, `Result`, and `Somes`, which keeps the present
  values of a sequence of optional results in order. The collector's
  `if plant_data:` append loop and the loader's skip-on-`ValueError` loop
  both compute `Somes`.
- `py_text.dfy`: the parts of Python's `str` the pipeline relies on.
  - `str.isspace`, by code point;
  - `str.split()` with no separator;
  - `' '.join`;
  - `str.lower` on ASCII;
  - the character filter behind `re.sub(r'[^a-zA-Z\s]', '', s)`.
- `timestamps.dfy`: pandas timestamps. A naive value is a wall-clock
  reading. An aware value is an instant plus the zone it is shown in.
- `api.dfy`: the decoded replies, `get_plant_data`, and the botanist-field
  extraction. Both extractors share these.
- `extract.py` modules:
  - `extract.dfy` models `pipeline/extract.py`.
  - `legacy_extract.dfy` models the older `extract.py`, which runs its
    fetches on a worker pool.
- `transform.dfy`: `pipeline/transform.py`. `clean_name` and its
  properties, and the per-column UTC decision. It also has a `PlantFrame`
  class whose columns the two transform steps overwrite in place.
- `load.dfy`: `pipeline/load.py`, over a `Store` class. The store holds the
  reference tables, the `recording` table and its commit state.

The network is the parameter `fetch: nat -> Reply`, which gives the status
code and decoded body for each id. `pd.to_datetime`'s string parser is the
parameter `parse`. The database's verdict on an INSERT is the store's
`accepts` function. A key the source reads only with `.get(key)` is an
`Option`: there a missing key and JSON `null` both give `None`. A key the
source tests with `in`, or reads with `.get(key, default)`, is a `Field`
(`Absent`, `Null` or `Present`), because there the two differ: `null` skips
the default.

## Model

| member | source | states |
|---|---|---|
| Wrappers.SomesSpec | pipeline/extract.py:84-88 | keeping the non-None results keeps exactly the present values, in ascending position, each once |
| Wrappers.SomesAppend | pipeline/load.py:40-50 | what is kept from a concatenation is what is kept from each part, in order |
| PyText.SplitConcat | pipeline/extract.py:24 | the tokens of `split()` concatenate to the input with its whitespace removed |
| PyText.SplitEmpty | pipeline/extract.py:24 | `split()` gives no token exactly when the string is all whitespace |
| PyText.SplitSpaces | pipeline/extract.py:24 | leading whitespace does not change the tokens of `split()` |
| PyText.SplitJoin | pipeline/transform.py:36 | splitting a space-joined list of tokens gives the tokens back |
| Api.Decimal | pipeline/extract.py:19 | `str(plant_id)` is a non-empty string of decimal digits with no leading zero (a positive id never starts with `0`) |
| Api.DecimalValue | pipeline/extract.py:18-19 | the id in the failure message reads back as the id that failed |
| Api.GetPlantData | pipeline/extract.py:13-19 | status 200 gives the body; any other status gives an object with `error` set to the status, the failure message, and no other key |
| Api.MissingBotanist | pipeline/extract.py:24-31 | without a `botanist` key, extraction does not raise and all four botanist fields are None |
| Api.BotanistNameSplit | pipeline/extract.py:24-29 | for a name made of tokens, the first token is the first name and the second the last name; a missing position is None; later tokens are dropped |
| Api.BotanistNameTokensOf | pipeline/extract.py:24-29 | for a name of the form whitespace, word, whitespace, word, then nothing or whitespace and anything, the two words are the first and last names |
| Api.BotanistNameSingleToken | pipeline/extract.py:24-29 | for a name that is one word between any whitespace, the word is the first name and there is no last name |
| Api.BotanistNameBlank | pipeline/extract.py:24-29 | there is no first name exactly when the name is absent or all whitespace, and then there is no last name either |
| Api.BotanistNamesAreTokens | pipeline/extract.py:28-29 | first and last names are non-empty and contain no whitespace |
| Extract.PlantNameOf | pipeline/extract.py:25-26 | `name` when it is a non-empty string; otherwise the `scientific_name` list when it is non-empty; otherwise None (both directions) |
| Extract.ExtractFields | pipeline/extract.py:22-39 | the first and last names are the name's first two tokens; email and phone come from the nested object; all four are None without it; `plant_name` follows the name-then-scientific-name fallback; the country code is the fourth `origin_location` entry or None; `recording_taken`, `last_watered` (as text), `soil_moisture`, `temperature` and `plant_id` are copied |
| Extract.ExtractExample | pipeline/test_extract.py:38-68 | the test reply with botanist "Carl Linnaeus" yields first name "Carl", last name "Linnaeus", country "BR", the name and no plant id |
| Extract.FetchAndExtractPlantData | pipeline/extract.py:42-47 | no record exactly when the reply object has an `error` key |
| Extract.FetchOutcome | pipeline/extract.py:42-47 | a non-200 status never gives a record, nor does a 200 body whose `error` is null; a 200 body without an `error` key gives that body's record |
| Extract.Results | pipeline/extract.py:84-85 | one outcome per id 0..50, the outcome for that id |
| Extract.InitialiseDataframe | pipeline/extract.py:50-64 | the initial table has no rows |
| Extract.LoadIntoDataframe | pipeline/extract.py:81-90 | the table is the present records of ids 0..50, in id order |
| Extract.CollectedRows | pipeline/extract.py:81-90 | at most 51 rows; row k is the record of the k-th id whose reply is not an error; ids ascend; every such id has its row |
| Extract.CollectedSingleSuccess | pipeline/extract.py:81-90 | when only one id answers 200 with a body, the table is exactly that one record |
| LegacyExtract.ScientificNameOf | extract.py:31 | the first `scientific_name` entry, or None exactly when the key is absent |
| LegacyExtract.AgreesWithPipeline | extract.py:22-37 | the older extractor agrees with the newer on every shared field; `plant_name` is `name` as it is, which matches the newer one whenever `name` is a non-empty string; for an empty `name` with `scientific_name` present the older keeps `""` and the newer takes the list |
| LegacyExtract.ExtractFields | extract.py:22-37 | without a botanist the four botanist fields are None; the scientific name is the first list entry or None; `plant_name` is `name` |
| LegacyExtract.FetchAndExtractPlantData | extract.py:40-45 | no record exactly when the reply object has an `error` key; a non-200 status never gives one |
| LegacyExtract.Results | extract.py:61-63 | `pool.map` gives one outcome per id 0..50, in id order |
| LegacyExtract.LoadIntoDataframe | extract.py:58-70 | the table is the present results, in id order |
| LegacyExtract.CollectedRows | extract.py:58-70 | at most 51 rows, each the record of a non-error id; ids ascend; every such id has its row |
| Transform.CleanNameWords | pipeline/transform.py:35-36 | a cleaned name is the lower-cased tokens of the kept characters, each non-empty and lower-case, joined by single spaces |
| Transform.CleanNameShape | pipeline/transform.py:31-37 | the output holds only lower-case ASCII letters and single spaces, with no space at either end |
| Transform.CleanNameLetters | pipeline/transform.py:35-36 | removing the spaces from the output leaves the input's ASCII letters, lower-cased, in order |
| Transform.CleanNameEmpty | pipeline/transform.py:31-37 | the output is empty exactly when the input has no ASCII letter |
| Transform.CleanNameIdempotent | pipeline/transform.py:31-37 | cleaning a cleaned name changes nothing |
| Transform.CleanNameValueSpec | pipeline/transform.py:34-37 | only string cells change, and each comes out clean; None and lists are returned as they are; cleaning is idempotent on every cell |
| Transform.ParseColumn | pipeline/transform.py:10-11 | coercing parse, cell by cell: unparseable text and None become NaT |
| Transform.UniformNotNaive | pipeline/transform.py:12-17 | a single-dtype column that is not naive is aware throughout, so the `else` branch converts every value |
| Transform.NormalizeColumn | pipeline/transform.py:10-17 | same length; NaT exactly where parsing failed; every value is aware in UTC; a naive column keeps each wall-clock reading; an aware column keeps each instant |
| Transform.CleanPlantNamesOf | pipeline/transform.py:42 | each row's `plant_name` is that cell cleaned; every other column is as it was |
| Transform.CleanPlantNamesIdempotent | pipeline/transform.py:40-43 | cleaning the plant names twice is cleaning them once |
| Transform.PlantFrame.ConvertColumnsToDatetime | pipeline/transform.py:7-28 | both timestamp columns are replaced by their normalised columns and nothing else changes; afterwards every timestamp cell is NaT or a UTC value |
| Transform.PlantFrame.CleanPlantNames | pipeline/transform.py:40-43 | the rows become their plant-name-cleaned version |
| Load.FirstMatchSpec | pipeline/load.py:27-31 | the position of the first row whose column equals the value (NULL and lists equal nothing): no earlier row matches, and the row there does unless it is the table's length |
| Load.RowKeysSpec | pipeline/load.py:41-48 | a row gets its triple exactly when all three lookups succeed, and the triple is their three keys |
| Load.RowLookupsSpec | pipeline/load.py:41-47 | the botanist lookup is always issued; the species lookup exactly when it succeeds; the country lookup exactly when both earlier ones succeed; a resolved row issues three |
| Load.AllKeys | pipeline/load.py:40-50 | one outcome per row, in row order |
| Load.PrefixStep | pipeline/load.py:40-50 | one more row adds its own outcome and its own lookups and nothing else |
| Load.KeysStep | pipeline/load.py:40-50 | one more row appends its triple to the collected keys when it resolves, and nothing otherwise |
| Load.LookupsStep | pipeline/load.py:40-47 | one more row appends its own lookups to the log |
| Load.ForeignKeysSpec | pipeline/load.py:36-51 | at most one triple per row; triple k belongs to the k-th fully resolved row; every such row contributes one |
| Load.ForeignKeysIsolated | pipeline/load.py:40-50 | a failing row affects no other row: the keys of two batches are the keys of each, concatenated |
| Load.LookupCount | pipeline/load.py:40-47 | between one and three lookups per row, and exactly three per row when every row resolves |
| Load.ForeignKeysExample | pipeline/test_load.py:52-78 | two rows whose email, name and country match distinct rows of two-row tables give the keys (1, 10, 100), (2, 20, 200) after six lookups |
| Load.RecordingsOf | pipeline/load.py:58-69 | one recording row per table row, carrying its plant id, two timestamps, moisture and temperature |
| Load.Store.constructor | pipeline/load.py:11-21 | a connection to the existing database: the recording table holds the rows already there, all committed; no commit or lookup yet |
| Load.Store.GetForeignKey | pipeline/load.py:24-33 | one SELECT is appended to the cursor's log; `ValueError('Invalid Data!')` exactly when no row matches; otherwise the key of the first matching row |
| Load.Store.RowForeignKeys | pipeline/load.py:41-50 | the cursor's log grows by the row's short-circuited lookups; the result is its triple or nothing |
| Load.Store.GetAllPlantForeignKeys | pipeline/load.py:36-51 | the keys are the triples of the fully resolved rows in order; the cursor's log grows by each row's short-circuited lookups, in row order |
| Load.Store.ExecuteInsert | pipeline/load.py:66-69 | an accepted row is appended to `recording`; a refused one changes nothing |
| Load.Store.Commit | pipeline/load.py:70 | everything inserted so far becomes durable; one more commit |
| Load.Store.InsertIntoRecordingTable | pipeline/load.py:54-70 | rows are appended in order, one commit each; a refused row stops the loop, after which the earlier rows stay committed and nothing later is inserted |

## Left out

- HTTP itself is not modelled: the URL, `requests.get`, its 30 s (or 10 s) timeout, and the JSON decoding inside `response.json()`. The network is the `fetch` parameter, and a timeout or connection error (which the source lets propagate) is not represented.
- The older `load_into_dataframe`'s `multiprocessing.Pool` is modelled as a sequential map. `pool.map` returns results in input order, which is all the collector uses. Worker processes and `cpu_count` are not modelled.
- The older `initialise_dataframe` (three columns) is not modelled. The collected table in `LegacyExtract.LoadIntoDataframe` is its rows, and the column set that `pd.concat` ends up with is not modelled.
- pandas representation is not modelled: dtypes, NaN for a missing float, the column order after `pd.concat`, and the index.
- Soil moisture and temperature are opaque 64-bit patterns, because the pipeline copies them and never computes with them.
- `pd.to_datetime`'s string parsing is the oracle `parse`. A column mixing naive values with aware ones, or two different zones, makes pandas fail or fall back to an object column. `Transform.PlantFrame.ConvertColumnsToDatetime` requires each column to have a single dtype (`UniformZones`).
- Replies on which the extractors raise are excluded by preconditions rather than modelled as a crash. `Api.BotanistOk` excludes a null `botanist` (AttributeError) and a null botanist `name` (AttributeError on `.split()`). `Api.OriginLocationOk` excludes a null `origin_location` (TypeError) and one shorter than four entries (IndexError). In the older extractor, `LegacyExtract.Extractable` also excludes a null `scientific_name` (TypeError) and an empty one (IndexError). The fetch functions require these only of replies whose object has no `error` key, since the others are never extracted.
- `str.lower` is modelled on ASCII only. `clean_name` lowers a string already reduced to ASCII letters and whitespace, and whitespace is unchanged by lowering, so nothing is lost there. The botanist names are never lowered.
- The database connection, `pymssql`, `SCHEMA_NAME` and the SQL text are not modelled. So are the server's collation (SQL Server's `=` may ignore case and trailing spaces) and the driver's binding of a list parameter. `=` is exact string equality, NULL equals nothing, and a list-valued `plant_name` matches no row.
- `Load.Store.GetForeignKey` returns the key of the first matching row in table order. The SELECT has no ORDER BY, so when several rows match, the row `fetchone()` returns is the server's choice; the model fixes it to the first.
- The constraints the database checks on `INSERT INTO recording` are not modelled; its verdict is the `accepts` function. A refused row raises in the source, and the model stops there.
- The `print` logging in `get_foreign_key` and `get_all_plant_foreign_keys` is not modelled, which leaves the returned values unchanged.
- `load.main`, `transform.main`, `etl.lambda_handler` and the `__main__` blocks are not modelled; they are wiring between the modelled steps. The same goes for the dashboard, the database backup scripts, the root `transform.py` and `text_extract.py`.
- The test files' expectations that no longer match the code are not modelled, namely `insert_into_plant_table` and a `plant_ids` argument. The modelled test cases follow the code.
- The concrete `clean_name` test cases are not stated one by one. `Transform.CleanNameShape`, `Transform.CleanNameLetters`, `Transform.CleanNameEmpty` and `Transform.CleanNameIdempotent` state what they exercise: lower-casing, dropped digits and punctuation, collapsed and trimmed whitespace, `""` for no letters.
