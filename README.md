# AustArch ingestion, modelled in Dafny

`ingest.py` loads the AustArch export of Australian archaeological dates
(radiocarbon and luminescence ages, one per CSV row) into a PostgreSQL
schema. Rows are written to five tables:

- `import_batch`, one row per run
- `site`
- `sample`
- `age_determination`
- `data_source`

Two more tables are only read: `dating_method` and `sample_material`, whose
codes the loader maps to ids (ingest.py:437-449).

Loading a row involves these steps:

1. Parse and clean its fields: numbers, depth ranges, lab codes, citations and site names.
2. Classify free-text material, method, state and IBRA bioregion values through ordered keyword tables.
3. Check the coordinates against the Australian bounding box.
4. Skip rows without a usable or a new lab code.
5. Match the site by name or create one, then insert one sample and one age.
6. Count everything in `IngestStats`.

A run then opens an `import_batch` row, feeds every data file through this with one shared `ReferenceDataCache`, and closes the batch with a summary.

This project models that core:

- **Pure code becomes Dafny functions, with its properties proved as lemmas.** This covers the parsers, the classification tables as ordered sequences searched for the first substring hit (the state table is looked up by exact key, as a dictionary), the bounds check and the row rules.
- **Stateful code becomes classes and methods.** This covers the cache, the counters, the in-memory tables and the row, file and run loops. Each method is proved to agree with a pure step function on a `State`: the tables, the citation cache and the counters.
- **Properties of the step functions are proved by induction over rows and files.** This covers counter bookkeeping, referential integrity, lab-code uniqueness and re-running the same input.

Files, in dependency order:

| file | contents |
|---|---|
| `wrappers.dfy` | `Option` |
| `text.dfy` | Python string operations: `lower`, `upper`, `strip`, `split`, `join`, `in`, `startswith`; ASCII letters, Python's whitespace set |
| `numbers.dfy` | `parse_float`, `parse_int`, `parse_depth`, and decimal rendering as their partner |
| `fields.dfy` | `parse_lab_code`, `parse_citation`, `normalize_site_name`, the site-name key of the lookup query |
| `classify.dfy` | the mapping tables; `normalize_material`, `normalize_method`, `normalize_state`, `derive_state_from_ibra`, `determine_method` |
| `settings.dfy` | `Config` and `validate_coordinates` |
| `records.dfy` | CSV rows, the table rows, coordinate nulling, rejection, quality issues, age-column gating |
| `store.dfy` | the database tables, `ReferenceDataCache`, `IngestStats` |
| `ingest.dfy` | `find_existing_site`, `process_radiocarbon_row`, `ingest_csv_file`, `run_ingestion` |

How `ingest.py` matches sites, method codes and data sources:

- **Site matching.** A site is found by comparing `LOWER(REPLACE(site_name, ' ', ''))` with the same form of the row's name, and the first row found is used. The result of `normalize_site_name` is computed but never used (ingest.py:383-390).
- **Unknown methods.** A method code missing from `dating_method` is stored as a NULL `method_id` (ingest.py:446-447, 596).
- **Data sources.** A data source is keyed by its citation text. It is inserted with citation, author and year, and `title` is never set (ingest.py:451-483).

Behaviour of the code that the model keeps as written:

- **Four material codes can never be produced.** `BONE_BURNT`, `SHELL_MARINE`, `SHELL_FRESHWATER` and `EGGSHELL` are unreachable: every pattern that carries one contains `bone` or `shell`, which are listed earlier (`Classify.NormalizeMaterialUnreachable`).
- **The author keeps a trailing space.** `parse_citation("Smith (1985)")` gives the author `"Smith "` (`Fields.ParseCitationExample`).
- **Unknown state names keep leading whitespace.** `normalize_state` takes the first three characters of its argument before stripping (`Classify.NormalizeStateUnknown`).

## Model

| member | source | states |
|---|---|---|
| Settings.ValidateCoordinatesCorners | ingest.py:327-330 | the bounds are inclusive: all four corners of a non-empty box pass |
| Settings.DefaultBounds | ingest.py:61-64 | under the default bounds a point in western New South Wales passes; Auckland and a point just west of longitude 112 fail |
| Numbers.ParseFloatPlain | ingest.py:168-175 | text that is not empty, padded, a sentinel or comma-bearing is read by `float()` alone |
| Numbers.ParseFloatDigits | ingest.py:168-175 | a digit run reads as its value |
| Numbers.ParseFloatNegDigits | ingest.py:168-175 | `-` followed by a digit run reads as the negated value (the lone `-` is a sentinel) |
| Numbers.ParseFloatGrouped | ingest.py:168-175 | commas are thousands separators: the comma-grouped rendering of any n reads back as n |
| Numbers.ParseUnsignedDigits | ingest.py:173 | Python `float()` on a plain digit run gives its integer value |
| Numbers.Truncate | ingest.py:181 | `int()` on a float truncates toward zero: a non-negative input gives its floor, a negative input its ceiling |
| Numbers.ParseIntTruncates | ingest.py:178-181 | `parse_int` gives a number exactly when `parse_float` does, and then its truncation toward zero |
| Numbers.ParseFloatDecimal | ingest.py:168-175 | a decimal point is read: `a.b` with digit runs `a` and `b` gives `a + b / 10^len(b)`, so `12.5` gives 25/2 |
| Numbers.ReadCountsFill | ingest.py:769-770 | text with counters written between fixed labels, each label starting with a non-digit, reads back as those counters |
| Numbers.ParseIntOfWhole | ingest.py:178-181 | an integral `parse_float` value is returned unchanged by `parse_int` |
| Numbers.ParseIntDigits | ingest.py:178-181 | `parse_int` reads a digit run as its value |
| Numbers.BeforeHyphen | ingest.py:265-266 | `split('-')[0]`: the longest hyphen-free prefix, followed by a hyphen if anything follows |
| Numbers.ParseDepthTop | ingest.py:256-272 | for normalised text with a hyphen whose first part parses, the depth is that first part |
| Numbers.ParseDepthRange | ingest.py:264-268 | a range `a-b` of digit runs yields the top value `a` |
| Fields.ParseLabCode | ingest.py:315-324 | an accepted lab code has three or more characters, no whitespace and no lower-case letter |
| Fields.ParseLabCodeByKey | ingest.py:315-324 | a code is accepted exactly when its upper-cased, whitespace-free key has at least three characters, and is then that key |
| Fields.ParseLabCodeInsensitive | ingest.py:320-324 | codes with the same upper-cased, whitespace-free key parse alike |
| Fields.ParseLabCodeLower | ingest.py:320 | lower-casing the input first changes nothing |
| Fields.ParseLabCodeIdempotent | ingest.py:315-324 | an accepted lab code parses to itself |
| Fields.FirstYearFrom | ingest.py:346 | a found index starts a standalone `19dd`/`20dd` token at or after the start position |
| Fields.FirstYearFromFirst | ingest.py:346 | the index found is the first such token, and none is found only when there is none |
| Fields.YearValue | ingest.py:348 | the year of a token lies in 1900..2099 |
| Fields.DropTrailingPunct | ingest.py:353 | the result is a prefix of the input, ends in no `,.()`, and only `,.()` were removed |
| Fields.AuthorBefore | ingest.py:351-355 | an author is non-empty, starts with no space, ends in no `,.()`, and begins the stripped text before the year; none means that text was all `,.()` |
| Fields.ParseCitation | ingest.py:333-357 | `citation` is always the input, `title` always None, and an author only comes with a year |
| Fields.ParseCitationYearIff | ingest.py:345-348 | a year is found exactly when the text holds a standalone year token |
| Fields.ParseCitationFirst | ingest.py:345-355 | the year and the author come from the first year token |
| Fields.ParseCitationExample | ingest.py:350-355 | `Smith (1985)` gives author `Smith ` and year 1985 |
| Fields.ParseCitationNoBoundary | ingest.py:346 | four digits inside a longer number are no year |
| Fields.PunctToSpace | ingest.py:371 | every character that is neither a word character nor whitespace becomes a space; the rest stay |
| Fields.NormalizeSiteNameShape | ingest.py:364-374 | the normalised name holds only lower-case word characters and single inner spaces |
| Fields.NormalizeSiteNameFixed | ingest.py:364-374 | a name already in that shape is its own normalisation |
| Fields.NormalizeSiteNameIdempotent | ingest.py:364-374 | normalising twice equals normalising once |
| Fields.NormalizeSiteNameUpper | ingest.py:370 | letter case does not matter to the normalised name |
| Fields.SiteNameKey | ingest.py:388 | the key of the site query contains no space |
| Fields.SiteNameKeyDef | ingest.py:388 | the key is the name with spaces removed, then lower-cased |
| Fields.SiteNameKeyCaseless | ingest.py:388 | names equal up to case have equal keys |
| Fields.SiteNameKeyConcat | ingest.py:388 | the key of a concatenation is the concatenation of the keys |
| Fields.SiteNameKeySpace | ingest.py:388 | inserting a space into a name does not change its key |
| Classify.FirstHitFrom | ingest.py:192-194 | the table scan returns an entry whose pattern occurs, no earlier entry's does, and none only when no entry's does |
| Classify.FirstHit | ingest.py:192-194 | the scan finds the first hit exactly when some pattern occurs |
| Classify.LookupFirst | ingest.py:192-196 | the code of the first hit, or the default exactly when nothing occurs |
| Classify.FirstHitIs | ingest.py:192-194 | the first hit, if any, is what the scan returns |
| Classify.Shadowed | ingest.py:192-194 | precedence: an entry whose pattern contains an earlier entry's pattern is never the hit |
| Classify.NormalizeMaterialFirstHit | ingest.py:184-196 | `UNKNOWN` for empty input; otherwise the code of the first pattern in the stripped lower-cased text, `OTHER` if none |
| Classify.NormalizeMaterialFallbacks | ingest.py:184-196 | `UNKNOWN` exactly for empty input; `OTHER` exactly when no pattern occurs |
| Classify.MaterialFirstHitReachable | ingest.py:72-105 | the first hit in `MATERIAL_MAPPING` never carries a burnt-bone, shell-type or eggshell code |
| Classify.NormalizeMaterialUnreachable | ingest.py:72-105 | `normalize_material` never returns `BONE_BURNT`, `SHELL_MARINE`, `SHELL_FRESHWATER` or `EGGSHELL` |
| Classify.NormalizeMaterialBurntBone | ingest.py:189-194 | `burnt bone`, in any case and padding, gives `BONE` |
| Classify.NormalizeMaterialOfKey | ingest.py:189-194 | once the first hit in the normalised text is known, the result is its code |
| Classify.NormalizeMethod | ingest.py:199-211 | `C14` for empty or unmatched text, else the code of the first `METHOD_MAPPING` hit |
| Classify.LabMethod | ingest.py:301-312 | the lab-code fallback is always a radiocarbon method |
| Classify.DetermineMethodFirstHit | ingest.py:275-312 | never `COSMO`; the first keyword hit in the combined text decides; otherwise the lab code does |
| Classify.DetermineMethodKeywordsFirst | ingest.py:277-299 | once a keyword occurs, the lab code plays no part |
| Classify.DetermineMethodLuminescenceFirst | ingest.py:279-285 | when a luminescence keyword occurs, the result is luminescence, whatever else occurs |
| Classify.LuminescenceKeywords | ingest.py:279-285 | the first five keyword tests give luminescence methods |
| Classify.LabPrefixesDisjoint | ingest.py:305-309 | no code starts with both an AMS and a conventional prefix, so the test order is immaterial |
| Classify.LabMethodByPrefix | ingest.py:301-309 | `AMS` exactly for an AMS prefix, `CONV` exactly for a conventional prefix of the upper-cased code |
| Classify.LabMethodCaseless | ingest.py:303 | the prefix test ignores letter case |
| Classify.DetermineMethodFromLabCode | ingest.py:301-306 | with no method or technique text, the lab code `oz-1234` gives `AMS` |
| Classify.LookupExact | ingest.py:220 | `dict.get`: None exactly when no key matches, else the code of a matching entry |
| Classify.Upper3 | ingest.py:220 | `upper()[:3]`: the first three characters of the input (all of a shorter one), each upper-cased |
| Classify.NormalizeState | ingest.py:214-220 | None exactly for empty input; otherwise one to three characters, none lower-case |
| Classify.NormalizeStateFallback | ingest.py:219-220 | a non-empty name the table does not hold gives its own first three characters, upper-cased |
| Classify.NormalizeStateFullName | ingest.py:219-220 | `New South Wales`, in any case and padding, gives `NSW` |
| Classify.NormalizeStateUnknown | ingest.py:220 | an unknown name keeps its first characters from before stripping, leading whitespace included |
| Classify.NormalizeStateAbbreviation | ingest.py:130-146 | a state code, in any case and padding, normalises to the code |
| Classify.NormalizeStateCode | ingest.py:130-146 | every state code is its own normal form |
| Classify.DeriveStateFromIbraFirstHit | ingest.py:242-253 | a state exactly when some hint occurs in the region, and then the state of the first hint |
| Classify.DeriveStateSydney | ingest.py:242-253 | the `Sydney Basin` bioregion gives `NSW` |
| Records.CheckCoordinates | ingest.py:516-519 | the check appends at most one error |
| Records.CheckedCoordinatesInBounds | ingest.py:516-519 | with validation on, a pair that survives lies in the bounds |
| Records.QualityIssues | ingest.py:622-626 | the list has at most two entries |
| Records.QualityIssuesShape | ingest.py:622-626 | one entry per non-blank issue column, date issues first, each stripped and non-empty |
| Records.RejectionAndIssues | ingest.py:617-626 | a row with date issues is rejected and carries them first; with no issues at all the column is NULL |
| Records.AgeColumnsExclusive | ingest.py:599-641 | at most one family of age columns is filled; ka is years over 1000; the other methods fill neither |
| Store.CodeIndex | ingest.py:440 | a code is in the index exactly when some reference row carries it |
| Store.CodeIndexLast | ingest.py:440 | the id of a code is that of the last row carrying it |
| Store.FindSource | ingest.py:474-478 | the id names the first row with the citation; none only when no row has it |
| Store.SourceStepValid | ingest.py:451-483 | every cached id keeps naming a row with its citation |
| Store.SourceStepId | ingest.py:451-483 | a non-empty citation always gets an id, which the cache now maps it to |
| Store.SourceStepRows | ingest.py:461-466 | at most one row is appended, only for an unseen citation; unique citations stay unique |
| Store.SourceStepKeeps | ingest.py:451-483 | existing cache entries are kept |
| Store.SourceStepRepeat | ingest.py:456-457 | asking again returns the same id and changes nothing |
| Store.ReferenceDataCache.constructor | ingest.py:430-443 | the method and material indexes are loaded from their tables; the citation cache starts empty |
| Store.ReferenceDataCache.GetMethodId | ingest.py:445-446 | the id loaded from `dating_method` for the code, or None exactly when the code is not loaded |
| Store.ReferenceDataCache.GetMaterialId | ingest.py:448-449 | the id loaded from `sample_material` for the code, or None exactly when the code is not loaded |
| Store.ReferenceDataCache.GetOrCreateSource | ingest.py:451-483 | the cache and `data_source` change as the source step says, and the cache stays valid |
| Store.AddCounts | ingest.py:752-757 | each of the five counters is the sum of the two, and the error lists concatenate in order |
| Store.IngestStats.constructor | ingest.py:490-498 | every counter starts at zero and the error list empty |
| Store.IngestStats.Add | ingest.py:752-757 | the totals become the old totals plus the file's counters |
| Ingest.FindSiteFromSpec | ingest.py:386-392 | the scan finds the first site with the key and fails only when there is none |
| Ingest.FindSiteIndexSpec | ingest.py:386-392 | the matched site has the query's name key, no earlier site has, and no match means no site has |
| Ingest.MatchSite | ingest.py:383-401 | the site count is unchanged; an id exactly when a site name matches |
| Ingest.MatchSiteSpec | ingest.py:383-401 | the id is the earliest match; only its coordinates change, exactly when they are back-filled |
| Ingest.MatchSiteNames | ingest.py:396-400 | a match never changes any site's name |
| Ingest.FindExistingSite | ingest.py:377-420 | the site table and id are those of the name match, including the back-fill |
| Ingest.StoreSite | ingest.py:548-560 | the site table, the counters and the returned id are those of the site step |
| Ingest.StoreRecords | ingest.py:562-649 | sample, data source and age are stored as the record step says; the cache stays valid |
| Ingest.StoreRow | ingest.py:511-649 | the tables, the cache and the counters after the row are those of the row step |
| Ingest.ProcessRadiocarbonRow | ingest.py:501-649 | the tables, the cache and the counters after the row are those of the row step on the row read |
| Ingest.StoreStepSkipped | ingest.py:523-537 | a skipped row changes no table and no cache entry, adds its coordinate error, and counts one skipped age |
| Ingest.StoreStepAccepted | ingest.py:539-649 | an accepted row appends exactly one sample and one age and counts exactly one of site created or matched |
| Ingest.StoreStepAgeValues | ingest.py:562-649 | the appended age carries the row's values, points at the new sample, and has a data source exactly when the row has a citation, a row holding that citation |
| Ingest.ReadRowAgeFields | ingest.py:585-626 | the row's rejection flag, rejection reason, quality issues, age columns and citation, in terms of its cells |
| Ingest.RowStepAcceptedAge | ingest.py:585-649 | for an accepted row, the new age is rejected exactly when `DATE_ISSUES` is not blank or the notes contain `reject`, and then carries the raw `DATE_ISSUES` as reason; its quality issues are NULL exactly when both issue cells are blank; `c14_age` is set exactly for a radiocarbon method with a parsed age, luminescence ages only for a luminescence method; it has a data source exactly when `SOURCE` is non-empty |
| Ingest.RowStepInvalidCoordinates | ingest.py:511-560 | a row whose two coordinates parse but fail the bounds check records one error; a site it creates has no latitude and no longitude, and a site it matches is not back-filled |
| Ingest.SiteStepRange | ingest.py:548-560 | the site table only grows, and the site id names a site |
| Ingest.RecordStepConsistent | ingest.py:562-649 | the records half keeps every sample, age and data-source reference valid |
| Ingest.StoreStepConsistent | ingest.py:501-649 | a row keeps every reference between the tables valid, and the cache agrees with `data_source` |
| Ingest.StoreStepLabCodesUnique | ingest.py:529-537 | with existing lab codes skipped, no row stores a lab code twice |
| Ingest.StoreStepKnown | ingest.py:529-537 | with existing lab codes skipped, after a row with a lab code that code is stored |
| Ingest.StoreStepAgesGrow | ingest.py:628-649 | age rows are only appended |
| Ingest.RunRowsSnoc | ingest.py:676-690 | processing one more row is one more row step |
| Ingest.IngestCsvFile | ingest.py:652-692 | the tables, the cache and the fresh counters after the file are those of its rows in order |
| Ingest.StoreStepBalanced | ingest.py:501-649 | a row counts one created or skipped age, and each created counter is what its table grew by |
| Ingest.RunRowsBalanced | ingest.py:652-692 | a file's counters account for every row and for what each table grew by |
| Ingest.RunRowsConsistent | ingest.py:652-692 | a file keeps the references between the tables valid |
| Ingest.RunRowsLabCodesUnique | ingest.py:652-692 | with existing lab codes skipped, a file never stores a lab code twice |
| Ingest.RunRowsAgesGrow | ingest.py:676-690 | a file only appends age rows |
| Ingest.RunRowsKnown | ingest.py:676-690 | with existing lab codes skipped, every lab code of the file is stored afterwards |
| Ingest.RunRowsAllKnown | ingest.py:676-690 | with existing lab codes skipped, a file whose lab codes are all stored changes no table and no cache entry |
| Ingest.RunRowsReplay | ingest.py:652-692 | with existing lab codes skipped, ingesting a file a second time changes no table and no cache entry |
| Ingest.SummaryNotesReadBack | ingest.py:769-770 | the batch notes name the counters: they read back as sites created, sites matched, ages created and ages skipped |
| Ingest.RunFilesSnoc | ingest.py:734-757 | processing one more file is one more file step |
| Ingest.IngestFiles | ingest.py:734-757 | the tables, the cache and the totals after the files are those of the files in order, reference files skipped |
| Ingest.RunIngestion | ingest.py:695-799 | no directory or no files changes nothing; otherwise the tables are those of the run and one completed batch records the ages created and the summary |
| Ingest.FileStepBalanced | ingest.py:734-757 | one file keeps the counters in step with the tables; reference files count nothing |
| Ingest.RunFilesBalanced | ingest.py:734-757 | the run totals account for every data row and for what each table grew by |
| Ingest.RunFilesRecordCount | ingest.py:759-768 | the batch's record count is the number of ages the run added |
| Ingest.RunFilesConsistent | ingest.py:734-757 | a run keeps the references between the tables valid |
| Ingest.RunFilesLabCodesUnique | ingest.py:734-757 | with existing lab codes skipped, a run never stores a lab code twice |
| Ingest.RunFilesAgesGrow | ingest.py:734-757 | a run only appends age rows |
| Ingest.RunFilesKnown | ingest.py:734-757 | with existing lab codes skipped, every lab code of every data file is stored afterwards |
| Ingest.RunFilesAllKnown | ingest.py:734-757 | with existing lab codes skipped, a run whose lab codes are all stored changes no table |
| Ingest.RunFilesReplay | ingest.py:695-799 | a second run over the same files, with existing lab codes skipped, leaves the site, sample, age_determination and data_source tables as the first left them; it only adds its own import_batch row |

## Left out

- Database plumbing is not modelled: connections, cursors, SQL text, savepoints, commit, rollback and `get_connection` (ingest.py:153-161, 679-687, 774, 794). The tables are in-memory sequences, and a row id is its 1-based position.
- The exception path is out: row errors caught by `ingest_csv_file` (ingest.py:686-690) and database constraint failures. Every modelled step is total and raises nothing, so `IngestStats.errors` only receives coordinate errors.
- The spatial-proximity fallback of `find_existing_site` (ST_DWithin, ingest.py:403-418) is not modelled, because it delegates to the spatial engine. A row whose name matches no site gets a new site.
- `assign_bioregions`, `refresh_views` and `validate_data` (ingest.py:802-876) are not modelled. They run server-side spatial and SQL functions.
- File I/O is a parameter: globbing, opening, `csv.DictReader`, delimiter sniffing and the existence test of the data directory (ingest.py:666-676, 703-716). A run receives the file names and their already-split rows, in glob order.
- A row only keeps the columns the loader reads. `C13_ERROR` is read but never stored (ingest.py:590), so it is dropped.
- Logging, `main` and the command line (ingest.py:883-958) are out, and so are the environment-variable defaults of `Config` and the unused `batch_size`.
- The batch id (`uuid.uuid4()`) is a parameter, and `completed_at = NOW()` is not recorded. Both are a clock and randomness.
- `limit 1` is modelled as the earliest matching row in insertion order, because SQL leaves the order unspecified.
- `data_source` is assumed unique on `citation`, so the select after a conflicting insert always finds the row.
- Floating point is out: Python `float()` is a decimal grammar read as exact reals (digits, optional point, optional exponent, optional sign). `inf`, `nan`, underscores and the rounding of binary floats are left out, and the `/1000.0` ka conversion is exact.
- Numbers.Truncate: exact on reals, so it does not capture `int()` on floats too large for a double.
- The counter and consistency lemmas (`StoreStepBalanced`, `RunRowsBalanced`, `FileStepBalanced`, `RunFilesBalanced`, and the cache half of `Consistent`) hold only because the exception path is out. In `ingest.py` a row that raises after its site or sample counter was incremented (ingest.py:560, 581) keeps those increments after the rollback to the savepoint (ingest.py:686-690). For example, an `AGE` of `1e400` parses to infinity, and `int()` then raises at ingest.py:181, called from ingest.py:585. Not executed.
- In the same way, an age insert that fails (ingest.py:628) after a new `data_source` row was inserted leaves the citation cache holding the id of a row the rollback removed. Not executed.
- Character classes are ASCII: letter case, `\w`, `\d` and `\b` in the regular expressions (ingest.py:322, 346, 371). Whitespace is Python's `str.isspace` set.
- `normalize_state` and `normalize_method` are modelled, but no row logic calls them, just as in `ingest.py`.
- Errors are a datatype (`InvalidCoordinates(lat, lon)`) rather than their formatted message text.
