# HSR resource database: a Dafny model of its deterministic core

The system turns a game's JSON configuration export into an SQLite database, splits that database into per-module databases, exports dumps of them, and serves the data over HTTP, both from a Python server and from a serverless worker.

This project models the part of that pipeline that is pure or sequential logic, and proves properties of the model. It leaves out the SQL text, the HTTP layer, the file handling and the hashing algorithm itself.

The modules follow the program's structure:

- `Common` (common.dfy): shared definitions.
  - The JSON value: `Null`, `Bool`, `Int`, `Real`, `Str`, `Arr`, and `Obj` with its keys in order.
  - `Option`.
  - Python's `str.strip`, ASCII `upper`/`lower`, `split` and `join`.
  - Decimal numerals.
- `Coerce` (coerce.dfy): the value coercions.
  - From the builder: `to_int`, `as_hash`, `as_value`, `as_custom`, `source_group`.
  - From the server: `extract_hash_value`, `numeric_value`, `parse_override_skill_params`.
  - From the worker: `as_float`.
  - Python counts `bool` as an `int`. The model follows each function in accepting or rejecting booleans, and lemmas state where the functions differ.
- `Helpers` (helpers.dfy): the request helpers of the server and of the worker.
  - `as_int`, `qv`, `paging`, `with_paging_meta`.
  - Both versions of `normalize_lang`.
  - `escape_like`, `norm_fts_query`.
  - The two copies of `parse_langs`.
- `HashKey` (hashkey.dfy): `hash_text_key`, which turns a localisation key into a text address.
  - The XXH64 computations of the `xxhash` module and of the `xxhsum` binary are function-valued parameters (`Hasher`). Each returns `None` when that path fails.
- `TextStore` (textstore.dfy): the `text_map` table, a map from `(lang, hash)` to text.
  - `resolve_text_from_key`, `resolve_text_with_fallback`, `resolve_hash_texts` and `resolve`.
  - The merge of `TextMapMain<lang>.json` and `TextMap<lang>.json` in `load_text_maps` and `ensure_lang_loaded`.
  - The upsert of `insert_text_map`, on a `TextDb` class.
- `NumberFormat` (numfmt.dfy): `format_num` on exact reals.
  - Python's half-to-even `round`.
  - Fixed-point formatting.
  - Trimming of trailing zeros.
- `ParamTemplate` (template.dfy): the description renderer.
  - `parse_param_values` is a method with its loop.
  - Scanning for `#<n>[<fmt>]%` turns a description into tokens.
  - `apply_param_template` renders the tokens.
- `StatCurve` (statcurve.dfy): the per-level stat tables of the server (`stat_at_level`, `build_avatar_level_stats`) and of the worker (`build_level_stats`), plus the worker's checkpoint filter.
- `References` (references.dfy): the story-reference extraction.
  - `extract_reference_rows` recursively walks a JSON tree on an `Extractor` class that holds the `rows` list and the `seen` set.
  - `insert_story_references` flushes batches on a `ReferenceTable` class.
- `Ingest` (ingest.dfy): the builder's row construction and keyed upserts.
  - The row builders of `insert_talk`, `insert_missions`, `insert_avatars` and `insert_items`.
  - `ON CONFLICT ... DO UPDATE` as a map update where the last write wins.
  - A `Database` class whose `tables` field holds every entity table, keyed by primary key.
- `ModuleClosure` (closure.dfy): the per-module databases of build_module_dbs.py.
  - `add_hash_if_any`.
  - The `needed_hash` closure of `gather_module_hashes`.
  - `copy_module_tables`, `copy_text_map_for_hashes`, and the step order of `build_one_module`.
  - These run on a `ModuleDb` class that holds the copied tables, the `needed_hash` set and the output `text_map`.
- `SqlDump` (dump.dfy): the SQL dump exporter.
  - The identifier helpers `strip_ident`, `quote_ident` and `prefixed_name`.
  - The regular expressions as predicates on the trimmed line.
  - `rewrite_dump_line` with its "sqlite_sequence CREATE seen" flag.
  - `d1_filter_line` with its "inside a trigger block" flag.
  - The loops of `iterdump_prefixed`, `export_merge` and `export_merge_d1_compatible` that thread those flags, as methods.
  - The D1 filter and its pipeline take a flag `anchored`. With `false` they are the program as written; with `true` they are the corrected filter of the second finding below.

The source's loops are methods with loop invariants. Each is proved equal to a specification function, and lemmas prove the source's promises about those functions.

Things the model takes as parameters instead of computing them:

- reading files, and the results of loading them;
- `float()` parsing;
- `json.loads` and `json.dumps`;
- the two hash computations.

Where the Python regular expressions use `\d`, `\w`, `\s` or `upper()`, the model uses the ASCII meaning.

## Model

| member | source | states |
|---|---|---|
| Coerce.ToInt | build_db.py:25-35 | An id exists exactly for an int, or for a string whose trimmed form is an optional minus sign and digits. An int gives itself; such a string gives `int(s)`. Booleans, None, floats and containers give none. |
| Coerce.ToIntDecimal | build_db.py:25-35 | The decimal text of any integer reads back as that integer, and so does the integer itself. |
| Coerce.ToIntRejects | build_db.py:26-35 | Booleans, None, floats, lists, dicts and non-numeral strings are never ids. |
| Coerce.AsHash | build_db.py:38-50 | The value looked at is the "Hash" member of a dict, else the value itself. An int becomes its decimal numeral. A string becomes its trimmed text, or None when that is blank. Anything else, booleans and a dict without "Hash" included, gives None. Every hash produced is non-empty and already trimmed. |
| Coerce.AsHashOfInt | build_db.py:44-45 | An integer hash becomes its decimal numeral, which `to_int` reads back to the same integer. |
| Coerce.AsHashIdempotent | build_db.py:38-50 | Coercing a coerced hash again changes nothing. |
| Coerce.ExtractHashValue | serve.py:235-245 | The value looked at is the "Hash" member of any dict, and an absent member is None. An int becomes its decimal numeral, and a boolean "True" or "False". A string becomes its trimmed text, or None when that is blank. Anything else gives None. Every hash produced is non-empty and already trimmed. |
| Coerce.HashCoercionsAgree | serve.py:235-245 | The builder's `as_hash` and the server's `extract_hash_value` agree on every value except booleans. The builder rejects a boolean; the server turns it into "True" or "False". |
| Coerce.AsValue | build_db.py:53-64 | A dict is replaced by its "Value" member. Numbers give their value, strings give what `float()` makes of them, and anything else (booleans included) gives None. |
| Coerce.NumericValue | serve.py:488-503 | A boolean counts as 1.0 or 0.0, a blank string gives None, and None, lists and unwrapped dicts give None. |
| Coerce.AsFloat | cf_worker/src/entry.py:183-189 | Numbers give their value; None, lists and dicts give None. |
| Coerce.NumberCoercionsAgree | serve.py:488-503 | If `float()` trims whitespace, the three number coercions agree on every value except booleans. The builder rejects booleans; the server and the worker read them as 1.0 or 0.0. |
| Coerce.AsCustom | build_db.py:67-72 | A string is kept untrimmed. A dict gives its "Value" member exactly when that member is a string. Anything else gives None. |
| Coerce.SourceGroupIsPrefix | build_db.py:81-87 | A source group is a leading part of the path, with backslashes turned into slashes: `Story/<seg>`, `Config/Level/<seg>`, or the first segment. |
| Coerce.SourceGroupNoBackslash | build_db.py:82 | No source group contains a backslash. |
| Coerce.ScanRow | serve.py:512-518 | The inner loop returns the first int value of the row (booleans count as ints) and its first list value. |
| Coerce.ParseOverrideSkillParams | serve.py:506-522 | A non-list gives an empty table. A list gives the table that its contributing rows write, in order. |
| Coerce.OverrideTableKeys | serve.py:506-522 | An id is in the table exactly when some row contributes it. |
| Coerce.OverrideTableLastWins | serve.py:519-520 | The last row that contributes an id decides that id's parameters. |
| Helpers.ParseIntDecimal | serve.py:25 | Python's `int()` reads back the decimal text of every integer, negative ones included. |
| Helpers.AsInt | serve.py:23-28 | Input that `int()` rejects gives the default. Otherwise the value is clamped into `[min_value, max_value]`, so an in-range value is kept and values outside go to the nearer bound. The worker's copy at cf_worker/src/entry.py:101-106 is identical. |
| Helpers.Paging | serve.py:40-44 | The page is between 1 and 100000. With `1 <= default_size <= max_size`, the page size is between 1 and `max_size`. The offset is `(page - 1) * page_size`. The worker's copy at cf_worker/src/entry.py:109-112 is identical. |
| Helpers.PagingReadsPage | serve.py:41 | A page number written in the query, when in range, is the page served. |
| Helpers.WithPagingMeta | serve.py:47-53 | The payload gains exactly `page`, `page_size`, `total` and `total_pages`, and every other key keeps its value. `total_pages` is the ceiling count. The worker's copy at cf_worker/src/entry.py:115-120 is identical. |
| Helpers.TotalPagesIsCeiling | cf_worker/src/entry.py:116-119 | With a positive page size, the pages hold every row and the last page is not empty. No rows means no pages. |
| Helpers.NormalizeLang | serve.py:113-118 | The result is a supported code or the default. The trimmed, upper-cased token with `-` read as `_` gives its alias's code when it is a known alias, and the default otherwise. A blank token or an unknown code gives the default. |
| Helpers.SupportedAliases | serve.py:64-78 | Every supported code is an alias of itself. |
| Helpers.NormalizeLangIdempotent | serve.py:113-118 | With a supported default, normalising an already normalised code changes nothing. |
| Helpers.WorkerNormalizeLang | cf_worker/src/entry.py:123-129 | The worker only ever answers EN or CHS. |
| Helpers.WorkerNormalizeLangAgrees | cf_worker/src/entry.py:123-129 | The worker answers EN exactly where the server's normalisation gives EN. Every other language, JP and KR included, becomes CHS. |
| Helpers.CleanLangs | build_db.py:296 | The kept languages are exactly the non-blank comma-separated parts, trimmed and upper-cased, and there are no more of them than parts. |
| Helpers.CleanLangsAppend | build_db.py:296 | The comprehension works part by part: cleaning two runs of parts is cleaning each, in order, so order and repeats are kept. |
| Helpers.ParseLangs | build_db.py:295-297 | A list of only blank parts gives the fallback. Otherwise every non-blank part appears trimmed and upper-cased, and nothing else does. The copy at build_module_dbs.py:30-32 is the same with other defaults. |
| Helpers.ParseLangsIdempotent | build_module_dbs.py:30-32 | Parsing is a normal form: parsing the comma-joined result again changes nothing. |
| Helpers.DefaultLangsNormal | build_db.py:1058 | The built-in default language lists are already normalised. |
| Helpers.JoinSplit | build_db.py:296 | Splitting a comma-join of comma-free parts gives the parts back. |
| Helpers.EscapeLikeIsLiteral | serve.py:56-57 | With `ESCAPE '\'`, SQLite reads the escaped term as that term's characters, as literals, with no `%` or `_` wildcard. |
| Helpers.PatternAfterEscape | serve.py:56-57 | Each escaped character reads back as one literal, whatever follows it. |
| Helpers.Words | serve.py:32 | The words are non-empty and contain no whitespace. |
| Helpers.WordsJoin | serve.py:31-33 | Splitting a space-joined list of words gives the words back. |
| Helpers.NormFtsQueryIdempotent | serve.py:31-33 | Normalising a normalised query changes nothing. |
| HashKey.BlankAndNumeralKeys | serve.py:162-166 | A key that is blank after trimming has no address. A trimmed all-digit key is its own address, whatever the hashers do. |
| HashKey.HashTextKeyIsAddress | serve.py:161-189 | Every address produced is a non-empty decimal numeral. |
| HashKey.HashTextKeyFailsClosed | serve.py:168-189 | For a key that needs hashing: the module's digest is used when present. When both paths fail, there is no address. An address always comes from one of the two paths. |
| HashKey.ParseXxhsumOutput | serve.py:176-187 | The binary's output gives a decimal numeral, or nothing. |
| HashKey.XxhsumDigestInRange | serve.py:184-186 | A sixteen-hex-digit token from the binary is below 2^64, the module's range. |
| HashKey.OwnAddressIff | serve.py:165-166 | A key is its own address exactly when it is a non-empty numeral. |
| HashKey.HashTextKeyIdempotent | serve.py:161-189 | Hashing an address that `hash_text_key` produced gives it back unchanged. |
| TextStore.ResolveTextFromKey | serve.py:192-202 | No key, an empty key, or a key `hash_text_key` cannot resolve gives None. Otherwise the result is the text stored under exactly that key's address in the requested language when a row exists, and None when none does. Any text returned is stored under an address. |
| TextStore.ResolveIgnoresSpace | serve.py:194-195 | Keys that differ only in surrounding whitespace resolve to the same text. |
| TextStore.ResolveFailsClosed | serve.py:192-197 | When a key needs hashing and both hash paths fail, nothing is looked up. |
| TextStore.ResolveAddress | serve.py:192-202 | An address is looked up as itself: its text if stored, else None. |
| TextStore.FallbackOrder | serve.py:527-532 | The languages tried begin with the requested one. |
| TextStore.FallbackIsFirstFound | serve.py:525-537 | The fallback resolver equals the reference reading: the first language in the order with non-empty text, else the caller's value. |
| TextStore.FallbackOrderSpec | serve.py:525-537 | The caller's fallback comes back only when every language in the order has no text or an empty one. Otherwise the result is the non-empty text of the first language in the order that has one. |
| TextStore.ResolveHashTextsAgrees | serve.py:296-305 | Every key of the result is one of the non-empty hashes asked for. For an address, the batch lookup gives the same text as `resolve_text_from_key`. |
| TextStore.ReadDocs | serve.py:332-340 | The documents read are exactly those of the parsed files, with missing and unreadable files skipped: a document is read iff a file parsed to it. There are never more documents than files. |
| TextStore.ReadDocsLast | serve.py:332-343 | The document of the last file that parsed is the last document read, so it is merged last and its texts win. |
| TextStore.NothingRead | serve.py:332-340 | When no file parses, no document is read. |
| TextStore.MergeFieldsSpec | build_db.py:310-313 | Merging an object gives each of its keys the text of that key's last value, with non-strings serialised. Every other key keeps its old text. |
| TextStore.MergeDocsSpec | build_db.py:304-314 | A key is in the merge exactly when some object document has it. A key of the last document (`TextMap<lang>` after `TextMapMain<lang>`) takes that document's value. |
| TextStore.MergeDocuments | build_db.py:304-314 | The merge loop computes the specified merge. |
| TextStore.LoadTextMaps | build_db.py:300-316 | The load fails exactly when some requested language has an unreadable file. Otherwise the result has exactly the requested languages, each mapped to the merge of its two files in order. |
| TextStore.OverlayStep | build_db.py:321-326 | Upserting one more `(lang, hash)` pair is a single-row update of the table. |
| TextStore.TextDb.InsertTextMap | build_db.py:319-327 | After the call the table is the old table overlaid with every pair, where a pair's text replaces any earlier row and every other row is kept. The count is the number of pairs. |
| TextStore.TextDb.EnsureLangLoaded | serve.py:324-352 | A language that has rows is left alone. Otherwise its merged files are upserted when non-empty. The result says whether the language now has text. |
| TextStore.LoadedLangHasRows | serve.py:328-352 | After a successful load the language has rows, so loading it again changes nothing. |
| TextStore.ResolveAgreesWithTable | build_db.py:75-78 | What the builder resolves in memory is what the filled `text_map` table holds for the same language and address. |
| NumberFormat.RoundHalfEven | serve.py:149 | The result is within one half of the value, and a tie goes to the even integer. |
| NumberFormat.FixedPointShape | serve.py:126-127 | `f"{v:.{n}f}"` has exactly `n` digits after its point, and no point when `n = 0`. |
| NumberFormat.FixedPointValue | serve.py:126-127 | The printed digits are `abs(v) * 10^n` rounded half-to-even: within one half of it, with ties going to the even integer. |
| NumberFormat.FormatNumNatural | serve.py:121-129 | Natural formatting prints an integral value as an integer numeral with no point. Any other value prints with at most four decimals and never ends in `.`. Once it still has a point, it does not end in `0` either. A value such as 10.00001 can print without a point and end in `0`. |
| NumberFormat.TrimZerosShape | serve.py:128-129 | Trimming a four-decimal numeral keeps its integer part and leaves no trailing point. Once it still has a point, it leaves no trailing zero either. |
| NumberFormat.PadZeros | serve.py:126-127 | Left-padding keeps the digits at the end and adds only zeros. |
| NumberFormat.RStrip | serve.py:128 | `rstrip` removes exactly a trailing run of the character. |
| ParamTemplate.ParseParamValues | serve.py:87-110 | The loop returns the specified values, one per usable element, in order. |
| ParamTemplate.ParamValuesEmpty | serve.py:88-98 | None, a string `json.loads` rejects, a string holding a non-list, and any other non-list all give no parameters. |
| ParamTemplate.ItemValuesAll | serve.py:99-110 | When every element has a value, the parameters are those values, one per element, in order. |
| ParamTemplate.ItemValuesFrom | serve.py:99-110 | Every parameter is the value of some element, and elements without a value contribute nothing. |
| ParamTemplate.MatchAt | serve.py:60 | A token starts exactly where `#` is followed by a digit. |
| ParamTemplate.MatchAtText | serve.py:60 | A token covers exactly the text it was read from. |
| ParamTemplate.TokenizeRoundTrip | serve.py:157 | Scanning loses nothing: writing the tokens back gives the description. |
| ParamTemplate.TokenizeComplete | serve.py:157 | Every match is found: a `#` left as text is never followed by a digit. |
| ParamTemplate.ApplyWithoutParams | serve.py:133-137 | No template gives None. When no parameter can be extracted, the template comes back unchanged. |
| ParamTemplate.RenderAppend | serve.py:157 | Rendering is piecewise, so text outside tokens is copied in place. |
| ParamTemplate.RenderOutOfRange | serve.py:143-144 | Tokens with no parameter in range render as the text they were read from. |
| ParamTemplate.ApplyOutOfRange | serve.py:132-157 | A template with no in-range token comes back unchanged. |
| ParamTemplate.TokenOutOfRange | serve.py:140-144 | An index of 0, or one beyond the parameter count, leaves the token verbatim. |
| ParamTemplate.RenderTokenInRange | serve.py:146-155 | An in-range token renders its parameter, multiplied by 100 and followed by `%` when the token has `%`. With `i` the text is the integer numeral of the nearest integer (ties to even). With `f<N>` it is the fixed-point text with N decimals, with no point for N = 0. Otherwise an integral value is an integer numeral with no point. |
| ParamTemplate.RenderValueInteger | serve.py:148-149 | The `i` format prints the value rounded half-to-even, as an integer numeral. |
| ParamTemplate.RenderValueFixed | serve.py:150-153 | The `f<N>` format prints exactly N decimals untrimmed, and no point for N = 0. |
| ParamTemplate.RenderValueNatural | serve.py:154-155 | With no format, an integral value prints with no point and any other value with at most four decimals, no trailing point, and no trailing zero once it still has a point. |
| ParamTemplate.FDecimalsReads | serve.py:151-152 | `f<N>` reads back the N written after the `f`. |
| StatCurve.WithCeiling | serve.py:214 | The kept breakpoints all have a ceiling, and none are kept exactly when none has one. |
| StatCurve.SortByCeiling | serve.py:218 | The sort is a permutation of its input. |
| StatCurve.SortSorted | serve.py:218 | The sort yields ascending ceilings. |
| StatCurve.SortStable | serve.py:218 | The sort is stable: breakpoints that share a ceiling keep their input order. |
| StatCurve.PickStageSpec | serve.py:221-222 | On stages sorted by ceiling, a level takes the first stage whose ceiling is at or above it. When every ceiling is below the level, it takes the highest stage. |
| StatCurve.PickStageMonotone | serve.py:221-222 | A higher level never takes an earlier stage. |
| StatCurve.Round4Monotone | serve.py:210 | Rounding to four decimals never reverses an order. |
| StatCurve.StatAtLevel | serve.py:205-210 | There is a stat exactly when there is a base. |
| StatCurve.StatAtLevelMonotone | serve.py:205-210 | Within one stage, with non-negative growth, a stat never decreases from one level to a higher one. |
| StatCurve.StageRowSpeedConstant | serve.py:223-230 | Rows of one stage share its promotion and its speed: speed is never scaled by level. |
| StatCurve.BuildAvatarLevelStats | serve.py:213-232 | No rows when no breakpoint has a ceiling. Otherwise there is one row per level 1..max_level, each from the stage `PickStage` chooses among the sorted breakpoints. |
| StatCurve.BuildLevelStats | cf_worker/src/entry.py:192-218 | The same table shape as the server's, with the worker's rows, where missing values count as 0. |
| StatCurve.VariantsAgree | cf_worker/src/entry.py:201-215 | Wherever the server has a value, the worker has the same value. Where the server has no base, the worker computes from 0. |
| StatCurve.Checkpoints | cf_worker/src/entry.py:487 | A row is kept exactly when it is an input row at level 1 or at a multiple of 10. |
| StatCurve.CheckpointsInOrder | cf_worker/src/entry.py:487 | The filter equals the list comprehension read front to back, so the kept rows keep their input order. |
| StatCurve.CheckpointCount | cf_worker/src/entry.py:487 | Rows for levels 1..n keep `1 + n / 10` checkpoints. |
| References.SearchFrom | build_db.py:13 | The regex search finds a match exactly when one exists, and returns the value of the leftmost one. |
| References.SearchTalkExample | build_db.py:945-947 | A string that spells `TalkSentence_<n>` yields n. |
| References.TalkIdOf | build_db.py:939-948 | An integer `TalkSentenceID` always wins. Otherwise the first match in the trigger string is used, else the one in the custom string. |
| References.MemberPath | build_db.py:961 | A member's path is the parent path, a dot, and the key. At the root this is the same `$.key` string. |
| References.Extractor.constructor | build_db.py:932-934 | A fresh walk starts with no rows, no seen keys, and the file's source group. |
| References.Extractor.Walk | build_db.py:936-967 | The walk appends, in order, the row of each reference key it meets for the first time, and records the key as seen. The recursion has its termination measure. |
| References.Extractor.Record | build_db.py:954-958 | An object's own row is appended unless its key was already seen. |
| References.Extractor.WalkMembers | build_db.py:960-962 | Members are walked in order, each inheriting the object's task type. |
| References.Extractor.WalkItems | build_db.py:963-965 | Elements are walked in order, each inheriting what the list inherited. |
| References.ExtractReferenceRows | build_db.py:931-968 | The method computes the rows of one document from the root path `$` with no inherited type. |
| References.AddAllDeduplicated | build_db.py:954-958 | Recording keys keeps the rows free of duplicates. The seen set grows by exactly the keys met, and new rows are those keys' rows. |
| References.ReferenceRowsSpec | build_db.py:933 | No two rows of one document share a key. Every row carries the file and its group and is a reference the walk meets, and every reference met has a row. |
| References.EmissionsShape | build_db.py:954 | The walk meets only references, and each sits under a path extending the starting path. |
| References.ReferenceFiles | build_db.py:917-928 | The kept files are exactly the candidates whose name does not end in `.layout.json`. Their order is stated by `ReferenceFilesInOrder`. |
| References.KeptPositions | build_db.py:917-928 | The positions of the kept candidates, strictly ascending: a position is listed iff its file's name does not end in `.layout.json`. |
| References.ReferenceFilesInOrder | build_db.py:917-928 | The kept files are the candidates at the kept positions, one for one, in the candidates' order. |
| References.ReferenceTable.InsertStoryReferences | build_db.py:971-1018 | The table gains every file's rows once, file after file, across the 10,000-row flushes and the final flush. The counts are the files, the rows, and the files that failed to load. |
| References.ReferenceTable.FlushIfFull | build_db.py:992-1002 | A batch of 10,000 rows or more is written and cleared, and a smaller one is kept. |
| References.ReferenceTable.InsertFile | build_db.py:980-1002 | A failed file adds no rows and counts as an error. Rows are never lost between the table and the batch. |
| References.FilesStep | build_db.py:979-990 | One more file adds that file's rows and its failure count. |
| Ingest.Localize | build_db.py:75-78 | A localised column's hash is `as_hash` of the field. Its CHS and EN texts are that hash's entries in those languages. |
| Ingest.Collect | build_db.py:352-353 | No more rows are built than there are entries. |
| Ingest.CollectMembers | build_db.py:337-353 | A row is built exactly when some entry yields it. |
| Ingest.BuildRows | build_db.py:336-354 | The loop builds the specified rows, and builds none when the value is not a list. |
| Ingest.Upsert | build_db.py:355-367 | `executemany` of the upsert applies the rows one at a time. |
| Ingest.UpsertKeys | build_db.py:355-367 | The table's keys after the upsert are its old keys plus the rows' keys. |
| Ingest.UpsertLastWins | build_db.py:355-367 | The last row written for a key is the one the table keeps. |
| Ingest.UpsertUntouched | build_db.py:355-367 | A key that no row mentions keeps its old row. |
| Ingest.UpsertAppend | build_db.py:880-900 | Upserting two batches equals upserting their concatenation. |
| Ingest.UpsertValueFrom | build_db.py:880-900 | A key that some row writes ends up with the value of one of those rows. |
| Ingest.Elements | build_db.py:387-396 | An `ON CONFLICT DO NOTHING` insert adds exactly the rows' elements. |
| Ingest.TalkEntry | build_db.py:337-349 | A row is built exactly for an object with an integer `TalkSentenceID`, under that id. The speaker and text hashes are `as_hash` of their fields, each with its own texts. |
| Ingest.VoiceLinks | build_db.py:377-384 | A link is exactly (sentence, position, voice) for a list element that `to_int` reads as that voice. Positions count skipped entries. |
| Ingest.MainMissionEntry | build_db.py:407-434 | A row is built exactly for an object with an integer `MainMissionID`, under that id, with its localised name. |
| Ingest.MainMissionGuess | build_db.py:471 | The parent guess `sid // 100` is floor division: `100*g <= sid < 100*g + 100`. |
| Ingest.SubMissionEntry | build_db.py:464-479 | A row is built exactly for an object with an integer `SubMissionID`. Its parent is the guess, and its target and description are localised. |
| Ingest.PackLinks | build_db.py:501-510 | Every link belongs to the entry's `MissionPack`. |
| Ingest.PackMembers | build_db.py:505-509 | Links are exactly (pack, id) for each member that `to_int` reads. |
| Ingest.AvatarEntry | build_db.py:536-568 | A row is built exactly for an object with an integer `AvatarID`. It counts as released only for a literal `true`. |
| Ingest.PromotionEntry | build_db.py:606-629 | A row is built exactly for an object with an integer `AvatarID`, keyed by (avatar, promotion). A missing promotion counts as 0. |
| Ingest.SkillEntry | build_db.py:659-691 | A row is built exactly when both `SkillID` and `Level` are integers, keyed by the pair, with localised name, description and tag. |
| Ingest.RankEntry | build_db.py:727-746 | A row is built exactly for an object with an integer `RankID`. Name and description are kept raw, not resolved. |
| Ingest.PurposeEntry | build_db.py:790-801 | A purpose text is built exactly for an object with an integer `ID`. |
| Ingest.ItemEntry | build_db.py:813-869 | A row is built exactly for an object with an integer `ID`, and records its file. Purpose texts are present only for a known purpose type. |
| Ingest.ItemLaterFileWins | build_db.py:803-900 | Files later in the sorted order override earlier ones. An item the last file defines keeps that file's row. |
| Ingest.UpsertBuilt | build_db.py:355-367 | Building and upserting a configuration list is the upsert of its specified rows. |
| Ingest.BuildItemRows | build_db.py:803-878 | The file loop builds every file's rows in order, and counts them. |
| Ingest.Database.constructor | build_db.py:90-292 | A fresh schema has every table empty. |
| Ingest.Database.InsertTalk | build_db.py:330-397 | Only the dialogue tables change: sentences are upserted by id and multi-voice links are added as a set. The counts are the built rows and links. |
| Ingest.Database.InsertMissions | build_db.py:400-525 | Only the mission tables change: main and sub missions are upserted by id and pack links are added as a set. The counts are the built rows. |
| Ingest.Database.InsertAvatars | build_db.py:528-780 | Only the avatar, promotion, skill and rank tables change, each upserted with its built rows. |
| Ingest.Database.InsertItems | build_db.py:783-915 | Only the item table changes: it is upserted with every file's rows in order. The counts are the files, the rows parsed (equal to the rows upserted), and the distinct items. |
| Ingest.TalkTableConsistent | build_db.py:337-367 | Every text column is the entry of its hash column, and this holds through any number of upserts. |
| Ingest.TalkEntryStored | build_db.py:337-367 | Every dialogue entry with an integer id has a row under that id after the upsert. |
| ModuleClosure.MissionReferences | build_module_dbs.py:83-91 | The kept story references are exactly those under `Story/Mission/` or `Config/Level/Mission/`. |
| ModuleClosure.ModuleTables | build_module_dbs.py:66-95 | Meta is always copied. Each module copies exactly its own tables and leaves the others empty. The mission module copies only mission story references, and the monster module copies no entity table. |
| ModuleClosure.AddHashIfAny | build_module_dbs.py:39-44 | An empty or None key, or one with no address, adds nothing. Otherwise exactly its address is added, and every added element is an address. |
| ModuleClosure.ModuleDb.constructor | build_module_dbs.py:294-300 | A freshly created output database is empty. |
| ModuleClosure.ModuleDb.CopyModuleTables | build_module_dbs.py:66-95 | The fresh database's tables become the module's copy, and nothing else changes. |
| ModuleClosure.ModuleDb.AddHashesFromSql | build_module_dbs.py:51-52 | `needed_hash` gains the module's non-empty hash columns, and nothing else changes. |
| ModuleClosure.ModuleDb.AddHashesFromIter | build_module_dbs.py:55-59 | `needed_hash` gains each non-empty hash once, as a set, so repeating the insert changes nothing. |
| ModuleClosure.ModuleDb.CopyTextMapForHashes | build_module_dbs.py:189-201 | Exactly the source rows whose hash is needed and whose language was requested are copied, with their text. The count is the number of rows. |
| ModuleClosure.AddressesUnion | build_module_dbs.py:39-44 | Hashing a union of keys gives the union of their addresses. |
| ModuleClosure.HashKeys | build_module_dbs.py:108-120 | The `add_hash_if_any` loop yields exactly the addresses of the keys. |
| ModuleClosure.AddValues | build_module_dbs.py:124-132 | Each non-empty address value is added as it is. |
| ModuleClosure.GatherModuleHashes | build_module_dbs.py:98-186 | The gathering loop computes the corrected closure (see Findings). |
| ModuleClosure.GatheringsAgreeOnNumerals | build_module_dbs.py:127-132 | When every address value is a numeral, re-hashing is harmless: the gathering as written equals the corrected one. |
| ModuleClosure.NegativeHashText | serve.py:235-245 | A negative integer hash becomes the signed text "-5". |
| ModuleClosure.RehashDropsSignedAddress | build_module_dbs.py:163-182 | The address "-5" of a monster name is missing from the closure as written and present in the corrected one. |
| ModuleClosure.AvatarClosureComplete | build_module_dbs.py:101-134 | The corrected character closure holds: every non-empty name, full-name, skill name, description and tag hash; the address of every rank name, description and ability string; every story and story-name address. |
| ModuleClosure.DialogueClosureComplete | build_module_dbs.py:136-138 | The dialogue closure (the same as written and corrected) holds every non-empty speaker and text hash. |
| ModuleClosure.MissionClosureComplete | build_module_dbs.py:140-143 | The mission closure (the same as written and corrected) holds every non-empty main-mission name, sub-mission target and sub-mission description hash. |
| ModuleClosure.ItemClosureComplete | build_module_dbs.py:145-161 | The corrected item closure holds the item name, description and background hashes, and every light-cone level's skill name and description address. |
| ModuleClosure.MonsterClosureComplete | build_module_dbs.py:163-184 | The corrected monster closure holds the address of every ability-name key, and every name, introduction and skill address as it is. The closure as written can lack these (see Findings). |
| ModuleClosure.CopyKeepsClosure | build_module_dbs.py:301-311 | Gathering after the copy loses nothing: the copied tables give the same corrected closure as the full ones. |
| ModuleClosure.BuildOneModule | build_module_dbs.py:285-321 | The tables are the module's copy. With text embedding, `text_map` holds exactly the requested-language source rows whose hash is in the corrected closure. Without it, `text_map` stays empty. |
| ModuleClosure.ModuleTextMatchesSource | build_module_dbs.py:189-201 | A module database answers a lookup of a requested language and an address of the corrected closure exactly as the full database does. |
| SqlDump.StripIdent | scripts/export_sqlite_dump.py:54-60 | A bare token is returned trimmed. A quoted one loses exactly its enclosing pair. |
| SqlDump.QuoteIdent | scripts/export_sqlite_dump.py:63-71 | The name is quoted like the template (double quotes for a bare template), and stripping the quotes gives the name back. |
| SqlDump.QuoteStable | scripts/export_sqlite_dump.py:63-71 | A quoted name is already trimmed, and quoting it again in its own style changes nothing. |
| SqlDump.PrefixedName | scripts/export_sqlite_dump.py:74-78 | The name becomes `<prefix>__<name>` in the identifier's own quoting, and is not prefixed again when it already has the prefix. |
| SqlDump.PrefixedNameIdempotent | scripts/export_sqlite_dump.py:74-78 | Prefixing twice is the same as prefixing once. |
| SqlDump.PrefixedNameQuotes | scripts/export_sqlite_dump.py:74-78 | A prefixed identifier is its new name in the identifier's own quoting. |
| SqlDump.FindChar | scripts/export_sqlite_dump.py:207 | The first occurrence of the character at or after a position, or none. |
| SqlDump.SequenceLiteral | scripts/export_sqlite_dump.py:205-209 | The quoted table-name literal of a sqlite_sequence row follows `VALUES(` and contains no quote. |
| SqlDump.PrefixedText | scripts/export_sqlite_dump.py:208-210 | The table name gains the prefix unless it already has it. |
| SqlDump.SequenceValueIdempotent | scripts/export_sqlite_dump.py:205-213 | Prefixing the sqlite_sequence literal twice is the same as prefixing it once. |
| SqlDump.RewriteDumpLine | scripts/export_sqlite_dump.py:158-230 | A line is dropped exactly when it is blank, a bare transaction line, a sqlite_sequence DELETE, or a sqlite_sequence CREATE that was already seen. The flag becomes set exactly at a sqlite_sequence CREATE and stays set. Other lines come back trimmed, and are rewritten only when prefixing is on. |
| SqlDump.IterdumpPrefixed | scripts/export_sqlite_dump.py:233-256 | The loop threads the flag from false and writes the specified lines. |
| SqlDump.SequenceCreatedOnce | scripts/export_sqlite_dump.py:172-177 | A dump lets at most one sqlite_sequence CREATE through, and none once the flag is set. |
| SqlDump.UnprefixedKeepsLines | scripts/export_sqlite_dump.py:233-256 | With prefixing off, every line written is a trimmed input line, and no more lines are written than read. |
| SqlDump.ExportMerge | scripts/export_sqlite_dump.py:259-271 | The output is the header pragma and transaction, then each source's header comment and rewritten lines, then COMMIT. |
| SqlDump.MergeSources | scripts/export_sqlite_dump.py:263-270 | The per-source loop writes the specified body. |
| SqlDump.FilterLine | scripts/export_sqlite_dump.py:274-317 | Inside a trigger block nothing is written, and the block ends exactly at a line ending in `END;`. A kept line is the trimmed line, with the flag left clear. Outside a block, a line whose trimmed text the filter accepts is kept, as its trimmed text, with the flag clear. A CREATE TRIGGER line is dropped and opens a block unless it ends the block itself. |
| SqlDump.D1FilterLine | scripts/export_sqlite_dump.py:274-317 | As written: no kept line matches the control patterns anywhere in the line. Outside a trigger block, an accepted line is kept as its trimmed text, with the flag clear. |
| SqlDump.D1FilterLineCorrected | scripts/export_sqlite_dump.py:274-317 | No kept line is blank or a dot-command, refers to FTS, creates a view, virtual table or trigger, mutates sqlite_master, creates or fills sqlite_sequence, or starts with a PRAGMA or transaction control word. Outside a trigger block, a line the corrected filter accepts is kept as its trimmed text, with the flag clear. |
| SqlDump.TriggerBodySwallowed | scripts/export_sqlite_dump.py:279-282 | Under both filters, as written and corrected: inside a trigger block, lines that do not end it are all dropped, and the block stays open. |
| SqlDump.TriggerLineSwallowed | scripts/export_sqlite_dump.py:279-282 | Under both filters, a line inside a block that does not end it is dropped. |
| SqlDump.D1KeepsOnlyAccepted | scripts/export_sqlite_dump.py:274-317 | Under both filters, every line written is a trimmed, non-blank input line that is no refused object and no CREATE TRIGGER. As written it contains none of the control patterns anywhere; corrected it starts with none of them. The converse is `SqlDump.D1KeepsAccepted`. |
| SqlDump.D1KeepsAccepted | scripts/export_sqlite_dump.py:274-317 | Under either filter, when every line is accepted and no trigger block is open, every line is written, trimmed, in input order, and the flag ends clear. |
| SqlDump.FilterLines | scripts/export_sqlite_dump.py:327-334 | The line loop threads the trigger flag and writes the lines the filter keeps: as written with `anchored` false, corrected with `anchored` true. |
| SqlDump.FilterStatements | scripts/export_sqlite_dump.py:326-334 | The statement loop splits each statement into lines and threads the flag across statements, under either filter. |
| SqlDump.ExportMergeD1 | scripts/export_sqlite_dump.py:320-335 | The D1 dump is each source's header then its filtered lines, with the trigger flag carried from one source to the next. With `anchored` false this is the program as written; with `anchored` true it is the corrected export. |
| SqlDump.AsWrittenPipelineDropsCommitRow | scripts/export_sqlite_dump.py:314-316 | As written, a source statement `INSERT INTO t VALUES('commit');` writes nothing, and the trigger flag stays clear. |
| SqlDump.CorrectedPipelineKeepsCommitRow | scripts/export_sqlite_dump.py:314-316 | The corrected pipeline writes that statement through unchanged. |
| SqlDump.AsWrittenDropsCommitRow | scripts/export_sqlite_dump.py:22-30 | The filter as written drops a data row whose quoted text holds the word "commit". |
| SqlDump.CorrectedKeepsCommitRow | scripts/export_sqlite_dump.py:313-316 | The corrected filter keeps that row. |
| Common.NatToDecimalRoundTrip | serve.py:165-166 | A decimal numeral reads back as the number it was written from. |
| Common.StripShape | serve.py:162 | `strip()` gives a contiguous part of the string, with no whitespace at either end, and is empty exactly for an all-whitespace string. |
| Common.StripIdempotent | serve.py:162 | Stripping twice is the same as stripping once. |
| Common.SplitJoin | build_db.py:296 | Joining the parts of a split with the separator gives the string back. |

## Left out

- The HTTP server, its handlers and the worker's request handling are left out. They are I/O around SQL queries.
- SQL text, schema creation, FTS5 side tables and their rebuild (`rebuild_fts_for_module`), WAL pragmas, ATTACH, VACUUM and `update_meta`/`write_meta`/`table_counts` are left out. Tables are modelled as maps and sets keyed by primary key.
- `main`, argparse, logging and timing are left out.
- Reading files is left out: `load_json`, `read_json_file`, `resolve_textmap_root`, `find_default_sources`/`resolve_sources`, and directory enumeration.
  - A directory listing is given as an input sequence, in the order the source enumerates or sorts it.
  - A file that fails to load is `None`.
- The file loading inside `load_avatar_story_index`, `load_light_cone_index` and `load_monster_index` is left out. Their outputs are given inputs to the closure, with `None` standing for a loader that raised.
- `clone_and_prefix_db` and SQLite's `iterdump` are left out. A dump is given as its sequence of statements.
- The XXH64 algorithm and the `xxhsum` subprocess are parameters (`Hasher`). The model does not prove that the two paths agree.
- `float()` string parsing, `json.loads` and `json.dumps` are parameters. Numbers are exact reals, not binary floating point.
- `lru_cache` memoisation is modelled as pure functions.
- Only the ASCII parts of Python's `\d`, `\w`, `\s`, `upper()` and `lower()` are modelled. `splitlines()` is modelled as splitting at `\n`.
- The score ranking of the term-explain handler is a floating-point heuristic and is left out.
- HashKey.HashTextKey: the function's own contract states nothing; its properties are the lemmas `BlankAndNumeralKeys`, `HashTextKeyFailsClosed`, `OwnAddressIff` and `HashTextKeyIdempotent`.
- NumberFormat.FormatNum: formatting with an explicit number of decimals is stated through `FixedPointShape` and `FixedPointValue` on `FixedPoint`. The natural form is stated by `FormatNumNatural`.
- SqlDump.Prefixed: the rewrite with prefixing on is stated through its parts, `PrefixedName` and `SequenceValueIdempotent`. That rewriting a whole line twice equals rewriting it once is not proved, because the patterns would have to be shown to match again on the rewritten line.
- SqlDump.SequenceValueIdempotent: this is proved only for a prefix that contains no single quote. The prefix is a file stem.
- ModuleClosure.ModuleDb.CopyModuleTables: this requires a freshly created database, which is how `build_one_module` uses it. Copying into a non-empty database is not modelled.
- ModuleClosure.ModuleDb.CopyTextMapForHashes: this requires an empty `text_map`, as in `build_one_module`. Rows are therefore inserted, never merged.
- Ingest.Database: `meta` and `story_reference` are not written by the `Insert*` methods; `story_reference` is written by `References.ReferenceTable`. The two are separate classes over separate state.
- Ingest.MultiVoiceLinks: its contract is the property of `VoiceLinks`, which it applies to the entry's voice list.
- Helpers.Qv: `parse_qs` is modelled as giving each key its list of values. `qv` reads the first of them.
- StatCurve.StatAtLevelMonotone: hp and the other stats are monotone only within one stage. Across a stage boundary a new base may be lower, and nothing in the source prevents that.
- ModuleClosure.GatherModuleHashes: a side index is either loaded whole or absent (`None` for a loader that raised). A `try` block that fails part-way through its loop (build_module_dbs.py:160-161, 182-183), keeping the hashes added so far, is not modelled.
- Objects with a repeated key are not modelled as `json.loads` reads them. `Obj` keeps every field in document order, while the Python dict keeps one entry per key: the last value, at the first occurrence's position. `Common.Lookup` returns the last value, as Python does. The members that walk an object's fields are faithful only to objects that hold each key once: `References.Extractor.WalkMembers`, `Coerce.FirstPyInt`, `Coerce.FirstList` and `TextStore.MergeDocs`. On a repeated key, WalkMembers would visit it twice.
- Coerce.SourceGroup: the source's "Unknown" fallback is unreachable, because `split` always returns at least one part. The model has no such branch.

## Findings

| source | as written | input that shows it | evidently intended | confidence | as-written member | corrected member |
|---|---|---|---|---|---|---|
| build_module_dbs.py:163-182 | The monster side-index values `name_hash`, `introduction_hash` and the skill hashes are already text addresses (from `extract_hash_value`), yet they are passed through `add_hash_if_any`, which hashes again every value that is not all digits. The same happens to story, story-name and light-cone skill values (lines 123-132, 150-156). | A monster whose name `Hash` is the negative integer -5. `extract_hash_value` stores "-5", `hash_text_key("-5")` hashes it to another number, and the closure lacks "-5". The module database then has no text for that name, while the server reads it with `resolve_hash_texts("-5")`. | Values that are already addresses go into `needed_hash` as they are. Only raw text keys are hashed. | not executed | ModuleClosure.RehashDropsSignedAddress | ModuleClosure.GatherModuleHashes |
| scripts/export_sqlite_dump.py:22-30 | The D1 skip patterns `\bBEGIN\s+TRANSACTION\b`, `\bCOMMIT\b`, `\bROLLBACK\b`, `\bSAVEPOINT\b`, `\bRELEASE\s+SAVEPOINT\b` and `\bVACUUM\b` are searched anywhere in the line (only the PRAGMA pattern is anchored). Data rows whose quoted values contain those words are dropped. | `INSERT INTO t VALUES('commit');` is dropped from the D1 dump. | Only statements that start with a transaction control word are dropped, as with PRAGMA. | not executed | SqlDump.AsWrittenPipelineDropsCommitRow | SqlDump.CorrectedPipelineKeepsCommitRow |
