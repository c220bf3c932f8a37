# Crawler-to-SQL loader: a verified model

This project models the deterministic core of the "crawler to SQL" loading pipeline:

- **`Method`** (Modules/resqlconnection/methods.py):
  - the bounded `max_varchar` setting;
  - the pandas-dtype to SQL-type rule;
  - the banner of `format_string`;
  - the guards and shape dispatch of `push_data`;
  - what `df_to_db` does to the data frame (the timestamp column) and to the database: chunked appends under SQL Server's 2100-parameter limit, `ALTER TABLE … ADD` for new columns, the failure clean-up, the de-duplication statement of `remove_duplicates`, the monitoring row and the notification emails.
- **`MySqlConnection`** (Modules/connect_to_sql.py):
  - the T-SQL `MERGE` statement of `df_sql_upsert`, with its bracket-escaped table name;
  - the column-type map of `df_to_new_table`.
- **`SqlCompareTools`** (Modules/sql_compare_tools.py):
  - the "oldest row per partition" query of `get_old_data`;
  - the change set of `compare_and_upload`: column selection, a left join of new rows against old rows, and the "rounded new ≠ rounded old" filter;
  - how a change set is routed to an append or an upsert, and when an email goes out;
  - the gating in `upsert`, `upload` and `truncate_and_upload`.
- **`initiate_log_file`** (Modules/initiate_benchmark_logger_Latin.py): the month folder, the base log-file name, and the search for the first free `_n` variant.

The database, the mail server, the clock, the UUID generator, the environment and the file system are not simulated. What the loader learns from them comes in as parameters:

- the table's columns, as read at the guard of `push_data`, again after a refused append, and at de-duplication;
- whether the schema exists, whether each append is accepted, and whether the server runs the de-duplication statement;
- the row counts;
- today's date and "now";
- the UUID and the primary key;
- the `SEND_EMAIL` variable;
- the set of existing files.

What the loader does to them comes out as a sequence of effects, in call order.

Files:

- `Wrappers.dfy`: `Option`, `Result` and `Outcome`.
- `Seqs.dfy`: filter, map, subsequence, and Python's `s[:n]` and `s[-n:]`.
- `Text.dfy`: `sep.join`, `str.split`, substring search, `str(n)`, and their round trips.
- `Dates.dfy`: `strftime("%Y%m%d")` and reading it back.
- `SqlTypes.dfy`: the sqlalchemy column types and the dtype-name tests.
- `SqlText.dfy`: bracketed column lists.
- `ResqlMethods.dfy`, `ConnectToSql.dfy`, `SqlCompareTools.dfy`, `BenchmarkLogger.dfy`: one per source file.

## Model

| member | source | states |
|---|---|---|
| ResqlMethods.Method.constructor | Modules/resqlconnection/methods.py:16-17 | The class attribute: `max_varchar` is 255 before any size is set. |
| ResqlMethods.Method.Create | Modules/resqlconnection/methods.py:19-21 | Construction fails exactly when `set_max_varchar` refuses the size, with the same error. On success the new loader's `max_varchar` is that size. |
| ResqlMethods.Method.SetMaxVarchar | Modules/resqlconnection/methods.py:479-486 | A size above 1023 fails with "too big" and a size of 0 fails with "cannot be 0"; both leave `max_varchar` unchanged. Any other size, negative ones included, becomes `max_varchar` exactly. |
| ResqlMethods.Method.GetDtype | Modules/resqlconnection/methods.py:365-379 | The tests run in a fixed order: "object", "datetime", "float", "int". The first test that matches decides the type. Text and the fallback both get NVARCHAR of the current `max_varchar`. A float gets FLOAT with no precision. INT is chosen only for a name that passes the "int" test alone. Under the bound `set_max_varchar` keeps, an NVARCHAR length is at most 1023 and never 0. |
| SqlTypes.NameHasContains | Modules/resqlconnection/methods.py:367-375 | The dtype tests are Python's substring `in`. |
| ResqlMethods.Method.FormatString | Modules/resqlconnection/methods.py:381-388 | The result is the text between two dash rules, each followed by a line break, and the exact positions of the rules and the text are stated. |
| ResqlMethods.FormatStringLines | Modules/resqlconnection/methods.py:381-388 | For one-line text, the result splits into the rule, the text, the rule and an empty tail. |
| ResqlMethods.Notify | Modules/resqlconnection/methods.py:459-477 | At most one email goes out. It goes out iff recipients are given, and it carries the notice. |
| ResqlMethods.Subject | Modules/resqlconnection/methods.py:459 | Every error email has the default subject "Crawler Error". Only the new-data report has a different one. |
| ResqlMethods.Classify | Modules/resqlconnection/methods.py:128-210 | Dispatch order: the nested-list test comes first for every input. A flat list whose length equals the number of names gives one row; any other flat list gives one column. DataFrame, ndarray and dict each have their own case. Any other iterable, or a string, is unrecognised. A number is not iterable. Each case is stated as an if-and-only-if. |
| ResqlMethods.FrameArgs | Modules/resqlconnection/methods.py:128-200 | The frame each shape becomes. A nested list gives one row per element, and each element's own list when every element is a list as long as the names. A flat list as long as the names gives exactly that one row. Any other flat list gives one row per element, and pandas accepts it only when it is empty or there is one name. An array keeps its rows, with pandas' column labels 0, 1, 2, ... written as decimal strings. A dict with N items gives N (key, value) rows. Every refusal is a shape mismatch, except the TypeError of a plain value read as a row of a nested list. |
| ResqlMethods.NestedFrame | Modules/resqlconnection/methods.py:128-129 | pandas decides by the first element. A plain first value: one object column holding each element whole, accepted iff there is one name. A list first: a TypeError iff some element is neither a list nor a string. Otherwise every element is read as a row (a string character by character) and padded with NULL. It is accepted iff no row is longer than the names and one row is exactly as long. |
| ResqlMethods.SizedRowsFrame | Modules/resqlconnection/methods.py:128-129 | When every element is a list or a string, each is read as a row and padded with NULL to the names. The frame is accepted iff no row is longer than the names and at least one row is exactly as long; a refusal is a shape mismatch. The frame has one row per element. |
| ResqlMethods.FlatListFrame | Modules/resqlconnection/methods.py:143-147 | A list as long as the names is one row. Otherwise there is one row per element, accepted iff the list is empty or there is one name. |
| ResqlMethods.DictFrame | Modules/resqlconnection/methods.py:188-189 | One `[key, value]` row per entry, in order. It is accepted iff there are no entries or exactly two names. |
| ResqlMethods.Method.PushData | Modules/resqlconnection/methods.py:77-210 | The first three cases write nothing: `None` input fails with an email; a missing name list fails; a guard refusal (every column a value column) fails with an email. Otherwise the schema is created when missing. An unrecognised shape drops the schema only when it was just created, emails and fails. An array with at least one column fails with a KeyError right after the schema step: no drop, no monitoring row, no email. Every other shape becomes its frame and is uploaded exactly as `df_to_db` does. A given DataFrame is left untouched when the name list is missing or the guard refuses. |
| ResqlMethods.Method.LoadShape | Modules/resqlconnection/methods.py:128-210 | The dispatch after the schema step. The nested-list test runs first, then list, DataFrame, array and dict, each becoming a frame that `df_to_db` uploads. A non-iterable value fails with nothing more sent. An array with at least one column fails with a KeyError. Any other input drops the schema only when it was just created, emails and fails. |
| ResqlMethods.TimestampColumn | Modules/resqlconnection/methods.py:241-245 | An empty `crawldate_column` falls back to "CrawlDate"; any other name is used as given. |
| ResqlMethods.ChunkSize | Modules/resqlconnection/methods.py:253-263 | `floor(2100/n) - 1` rows of n columns stay below 2100 parameters. Two more rows would exceed the limit. The chunk is positive iff n ≤ 1050. |
| ResqlMethods.Method.VarcharColumns | Modules/resqlconnection/methods.py:248-250 | The loop builds exactly the map of object columns to NVARCHAR(`max_varchar`). |
| ResqlMethods.VarcharMapEntries | Modules/resqlconnection/methods.py:248-250 | The keys are exactly the object-dtype columns, and every value is NVARCHAR of the given size. |
| ResqlMethods.Method.NewColumns | Modules/resqlconnection/methods.py:264-272 | The reported new columns are the frame's columns absent from the table, in frame order. Each gets its own `ALTER TABLE … ADD [col] <type>`, with the type from `get_dtype` of that column's dtype. |
| ResqlMethods.AddedColumnsExactly | Modules/resqlconnection/methods.py:266-272 | A column is reported new iff it is in the frame and not in the table, and the k-th reported column is the frame column at the k-th new position. |
| ResqlMethods.NewColumnPositionsComplete | Modules/resqlconnection/methods.py:266-272 | Every frame column missing from the table is among the new positions. |
| ResqlMethods.AppendsWithinLimit | Modules/resqlconnection/methods.py:253-282 | The first append uses the chunk size and the varchar map. Every append stays under 2100 parameters. A retry without the map happens iff the first append is refused. A refused append adds one retry and one ALTER per column missing from the table as re-read after the refusal; an accepted one is the only effect. |
| ResqlMethods.FailedAddCleansUp | Modules/resqlconnection/methods.py:283-293 | When both appends fail, the load fails. The schema is dropped iff it was created by this load, and the monitor records a failure and nothing else. |
| ResqlMethods.UploadSucceeds | Modules/resqlconnection/methods.py:253-304 | The load passes iff one of the appends is accepted and, unless the duplicate check is skipped, the de-duplication step yields a statement and the server runs it. A statement the server refuses fails the load right after it is sent, with no monitoring row and no email. |
| ResqlMethods.SuccessKeepsSchema | Modules/resqlconnection/methods.py:294-304 | A passing load never drops the schema, and it records the added line count as a success. |
| ResqlMethods.NewDataEmailOnlyOnChange | Modules/resqlconnection/methods.py:305-321 | The new-data email goes out iff the load passes, recipients are given and the row count changed. It reports the table, both counts and the columns added, found against the columns re-read after a refused append. |
| ResqlMethods.Reported | Modules/resqlconnection/methods.py:303-321 | A successful monitor row with the added count is always recorded. The new-data email is present iff it was already in the trace, or recipients are given and the count changed. |
| ResqlMethods.Method.StampTimestamp | Modules/resqlconnection/methods.py:241-245 | The timestamp column is appended, holding "now" in every row, only when the frame lacks it. An existing column and its rows are left as they were. |
| ResqlMethods.Frame.AddColumn | Modules/resqlconnection/methods.py:243-245 | The new column is appended to the names and dtypes, and its value to every row; nothing else changes. |
| ResqlMethods.Method.DfToDb | Modules/resqlconnection/methods.py:212-321 | The frame gains the timestamp column (holding "now" in every row) only when it is absent; an existing one is never overwritten. The outcome and effects are those of the upload trace. |
| ResqlMethods.Method.UploadFrame | Modules/resqlconnection/methods.py:248-321 | Runs the append, retry, de-duplication and reporting steps, and equals the upload trace, including its failure when the server refuses the de-duplication statement. |
| ResqlMethods.Method.AppendAttempts | Modules/resqlconnection/methods.py:253-282 | The appends and ALTERs sent, and the list of added columns. The list is empty when the first append is accepted. Otherwise it is found against the table's columns re-read after the refusal, since the refused append may itself have created the table. |
| ResqlMethods.DedupStatement | Modules/resqlconnection/methods.py:340-362 | Fails iff the table has no more columns than there are value columns. |
| ResqlMethods.DedupStatementParts | Modules/resqlconnection/methods.py:340-362 | On success the statement reads, part by part: the CTE opening, PARTITION BY the bracketed partition columns, `order by [<crawldate column>]`, then `Desc` iff `replace`, and the `[db].[schema].[table]` delete. The partition list reads back as one `[c]` per partition column, in table order. |
| ResqlMethods.Method.RemoveDuplicates | Modules/resqlconnection/methods.py:323-363 | The `+=` loop builds exactly the statement of `DedupStatement`. |
| ResqlMethods.Method.PartitionList | Modules/resqlconnection/methods.py:353-357 | The `+=` loop accumulates `[c], ` for exactly the partition columns, in table order. |
| ResqlMethods.PartitionColumns | Modules/resqlconnection/methods.py:353-357 | The PARTITION BY columns are the table's columns in table order, minus the value columns and the literal "CrawlDate". |
| ResqlMethods.ChoppedListed | Modules/resqlconnection/methods.py:353-362 | Cutting the trailing ", " off the `[c], ` accumulation gives the ", "-joined bracket list. |
| ResqlMethods.PartitionIgnoresTimestampParameter | Modules/resqlconnection/methods.py:353-362 | A custom timestamp column stays in PARTITION BY, because only the literal "CrawlDate" is excluded. |
| ResqlMethods.GuardAllowsEmptyPartition | Modules/resqlconnection/methods.py:349-357 | For every table with more columns than value columns, where each column is a value column or "CrawlDate", the guard lets the statement through. Its PARTITION BY list is then empty: the statement reads `PARTITION BY  order by [`. |
| ResqlMethods.PartitionListSplits | Modules/resqlconnection/methods.py:353-362 | The PARTITION BY list reads back as one `[c]` per partition column, in order. |
| ConnectToSql.DfSqlUpsert | Modules/connect_to_sql.py:119-153 | Raises iff both skip flags are set. Otherwise the statement is the "\n"-joined MERGE lines followed by ";". |
| ConnectToSql.TableSpecRoundTrip | Modules/connect_to_sql.py:124-127 | Un-doubling the bracket contents recovers the schema and table names. The `[schema].` prefix is present iff the schema is non-empty. |
| ConnectToSql.ReadEscaped | Modules/connect_to_sql.py:124-127 | Doubling every `]` lets the closing bracket be found again. |
| ConnectToSql.TempTableName | Modules/connect_to_sql.py:122 | `##` followed by the UUID, with no dash left in it. |
| ConnectToSql.ColumnsToUpdate | Modules/connect_to_sql.py:134 | The frame's columns minus the match columns, in frame order, and disjoint from the match columns. |
| ConnectToSql.MergeClauses | Modules/connect_to_sql.py:136-153 | The statement opens with `MERGE <spec> WITH (HOLDLOCK) AS main`. `WHEN MATCHED` appears iff updates are not skipped, and `WHEN NOT MATCHED` iff inserts are not skipped, with MATCHED first. |
| ConnectToSql.MergeStatementLines | Modules/connect_to_sql.py:136-153 | The statement ends in ";" and splits into exactly its MERGE lines. |
| ConnectToSql.OnClauseConjuncts | Modules/connect_to_sql.py:139-140 | The ON clause has one `main.[c] = temp.[c]` conjunct per match column, in order. |
| ConnectToSql.InsertListsAligned | Modules/connect_to_sql.py:149-151 | The INSERT column list and the VALUES list name every frame column, in the same order and with equal length. |
| ConnectToSql.UpdateSetAssignments | Modules/connect_to_sql.py:143-146 | The UPDATE SET items are exactly `[c] = temp.[c]` for the frame's non-match columns. |
| ConnectToSql.VarcharLength | Modules/connect_to_sql.py:241-246 | The length is 255 unless the `varchar` keyword argument overrides it. |
| ConnectToSql.NewTableType | Modules/connect_to_sql.py:253-266 | A dtype matching no test gets no type. Later matching tests overwrite earlier ones: any "int" name ends as INT, a "float" name that is not "int" ends as FLOAT(3), and a "datetime" name that is neither ends as DATETIME. NVARCHAR is chosen iff the name is "object" and matches no other test. |
| ConnectToSql.NewTableTypeMapKeys | Modules/connect_to_sql.py:241-266 | The map has an entry exactly for the columns whose dtype matches some test. |
| ConnectToSql.NewTableTypeMapValues | Modules/connect_to_sql.py:241-266 | A column's entry is the type of its last matching occurrence, and later tests overwrite earlier ones. |
| ConnectToSql.DfToNewTableTypes | Modules/connect_to_sql.py:241-266 | The loop's in-place updates build exactly that map. |
| SqlCompareTools.OldDataQueryLines | Modules/sql_compare_tools.py:97-115 | The query reads as its fifteen template lines, with the date filter, when there is one, at the end of the last. |
| SqlCompareTools.OldDataSameColumns | Modules/sql_compare_tools.py:97-112 | SELECT and PARTITION BY carry the same bracketed, ", "-joined partition list, one `[c]` per column in order. The value column is aliased `old_<name>`. |
| SqlCompareTools.OldDataDateFilter | Modules/sql_compare_tools.py:103-115 | The `[DATE] > 'YYYYMMDD'` filter is present iff a date is given, and the date reads back from it. |
| SqlCompareTools.ColsToJoin | Modules/sql_compare_tools.py:150-152 | The old columns whose name does not contain the new column's name as a substring, in order. |
| SqlCompareTools.OldValueNotJoined | Modules/sql_compare_tools.py:150-152 | `old_Value` is never a join column when the new column is `Value`. |
| SqlCompareTools.ColsToKeep | Modules/sql_compare_tools.py:160-165 | All source columns when `keep_first_col` is set, otherwise all but the first. |
| SqlCompareTools.LeftJoinOneToOne | Modules/sql_compare_tools.py:171-176 | When each new row matches at most one old row, the join is one entry per new row, in order, with the old value of its match. |
| SqlCompareTools.UnmatchedKept | Modules/sql_compare_tools.py:171-179 | A new row with no matching old row is always in the change set. |
| SqlCompareTools.EmptyHistoryKeepsAll | Modules/sql_compare_tools.py:171-179 | Against an empty history, the change set is every new row, in order. |
| SqlCompareTools.ReloadIsEmpty | Modules/sql_compare_tools.py:171-179 | When every new row matches old rows whose rounded value equals its own, the change set is empty. |
| SqlCompareTools.ChangeSet | Modules/sql_compare_tools.py:177-179 | Keeps, in order, exactly the joined rows whose rounded new value differs from the rounded old value. |
| SqlCompareTools.ColumnError | Modules/sql_compare_tools.py:168-178 | As modelled, no KeyError iff four conditions hold: every kept column exists in the new frame; every join column is kept; the new-value column is kept and is not an old column; the old-value column is an old column and is not kept. A KeyError names a column that breaks one of these. |
| SqlCompareTools.Deliver | Modules/sql_compare_tools.py:181-211 | An empty change set does nothing. Otherwise the changed rows are written first: an append when `cols_to_compare` is None or empty, else an upsert keyed on it. An email follows iff notification is on, previewing the first 50 changes projected to the join, old and new columns. |
| SqlCompareTools.PreviewJoined | Modules/sql_compare_tools.py:184 | A preview row holds the join columns and the new value of the row, plus its old value (or none). |
| SqlCompareTools.Changes | Modules/sql_compare_tools.py:168-179 | Every change is changed, and it holds only kept columns. |
| SqlCompareTools.CompareAndUpload | Modules/sql_compare_tools.py:149-213 | The composition that the three lemmas below are about. A column pandas would not find raises KeyError before anything is written; otherwise the change set is delivered. Every row written holds only the source table's kept columns. |
| SqlCompareTools.ReloadWritesNothing | Modules/sql_compare_tools.py:149-213 | Reloading data that agrees with the history writes and emails nothing. |
| SqlCompareTools.FirstLoadWritesAll | Modules/sql_compare_tools.py:149-213 | Against an empty history, every new row, projected to the kept columns, is written in order. |
| SqlCompareTools.UnmatchedRowWritten | Modules/sql_compare_tools.py:149-213 | A new row with no counterpart in the history is written. |
| SqlCompareTools.Upsert | Modules/sql_compare_tools.py:227-254 | The upsert is always sent. An email previewing the last 50 rows follows iff `SEND_EMAIL` is "True" and the row count changed. |
| SqlCompareTools.UploadRows | Modules/sql_compare_tools.py:284-308 | An append is always sent. An email follows iff `SEND_EMAIL` is "True" and the caller asks for it. It names the fundamental and previews `table.head(50)`, the first fifty rows. |
| SqlCompareTools.TruncateAndUpload | Modules/sql_compare_tools.py:256-282 | A truncate comes first, then exactly what `upload` does. |
| SqlCompareTools.UploadAppends | Modules/sql_compare_tools.py:284-308 | Replaying `upload` on a table appends the rows to it. |
| SqlCompareTools.TruncateReplaces | Modules/sql_compare_tools.py:256-282 | Replaying `truncate_and_upload` on any table leaves exactly the rows. |
| Dates.YyyymmddRoundTrip | Modules/initiate_benchmark_logger_Latin.py:8 | The `%Y%m%d` stamp reads back to the date. |
| Dates.Yyyymm | Modules/initiate_benchmark_logger_Latin.py:8-11 | The stamp without its last two characters still gives the year and the month. |
| BenchmarkLogger.MonthFolder | Modules/initiate_benchmark_logger_Latin.py:8-12 | The folder is the log directory plus the stamp with its last two characters removed, and its last six digits give the year and the month. |
| BenchmarkLogger.BaseNameParts | Modules/initiate_benchmark_logger_Latin.py:14 | The base name is `<month folder>/<YYYYMMDD>_<login>.log`, and the date reads back from it. |
| BenchmarkLogger.CounterBeforeExtension | Modules/initiate_benchmark_logger_Latin.py:21 | When `.log` occurs only as the extension, the counter goes just before it: `<stem>.log` becomes `<stem>_<n>.log`. |
| BenchmarkLogger.CandidateInjective | Modules/initiate_benchmark_logger_Latin.py:21 | Distinct counters give distinct names. |
| BenchmarkLogger.PassedSize | Modules/initiate_benchmark_logger_Latin.py:17-26 | The counters tried so far name `expand - 1` distinct files, which bounds the search by the number of existing files. |
| BenchmarkLogger.FreeName | Modules/initiate_benchmark_logger_Latin.py:17-26 | A free base name is returned unchanged. Otherwise the result is a name not on disk: the text before the first `.log`, `_n` and `.log`, with n the smallest counter from 2 up whose name is free. |
| BenchmarkLogger.InitiateLogFile | Modules/initiate_benchmark_logger_Latin.py:7-28 | The same, for today's base name of the login. |

## Left out

- Database access: the engines and sessions (pyodbc, sqlalchemy), `to_sql`, `read_sql`, `exec_driver_sql`, `run_query`, `truncate_table`, `monitor_crawler`, `drop_schema`, `get_row_count`, `get_table_columns`, `get_table_info` and `get_last_date`. Their answers are `Db` fields or function parameters, and their calls are effects.
- The temporary-table upload and the execution of the MERGE statement in `df_sql_upsert`. The primary-key lookup used when no match columns are given is the `primaryKey` parameter, and the UUID is a parameter.
- `Timestamp.now()` (the `now` parameter), `os.getlogin()` (the `login` parameter), today's date and the set of files on disk.
- Mail: SMTP, `sp_send_dbmail`, the recipient lists and the HTML body of the preview table. Only whether an email is sent, the subject of the error emails, the fundamental named in the preview emails, and the preview rows are modelled.
- `os.makedirs` and `initiate_logger`'s logging configuration.
- pandas dtype inference is approximated by `InferDtype` over the model's cell values. `astype` conversions are not modelled.
- Rounding to three decimals is an abstract `rounded` key function; floating point and NaN are not modelled (a missing old value is `None`).
- The pandas merge is modelled on rows as maps. With an empty join list it matches every old row, like a cross join. pandas' `_x`/`_y` renaming of overlapping columns is modelled only as the KeyError that follows it.
- SqlCompareTools.ColumnError: an old-value column found only in the new frame, or one that is also a join column, is reported as a KeyError. pandas' exact behaviour in those cases is not modelled.
- SqlCompareTools.ColumnError: a new-value column that is an old column but not a kept one is reported as a KeyError. pandas instead carries the old frame's column of that name into the merge, so `df_final[new_column_name]` succeeds and the old frame's own values are compared. The model does not follow that path.
- ResqlMethods.Method.PushData: the consumption of a generator by the nested-list test is not modelled; an `OtherIterable` keeps its items.
- ResqlMethods.FrameArgs: rows of unequal length in an ndarray are excluded by the requirement that the array be rectangular.
- ResqlMethods.Method.PushData: `df.dtypes[i]` is read by position whenever the column labels are all strings, as pandas does before version 3.0; only an array's integer labels make it a label lookup.
- ResqlMethods.FailedAddCleansUp: an `ALTER TABLE` that itself fails is not modelled; every ALTER is taken to succeed.
- Dates.Valid: years before 1000 or after 9999 are outside the model, because `%Y` would not give four digits for them.
- The forwarding wrapper in Modules/resqlconnection/__init__.py does not pass a custom timestamp column on to `remove_duplicates`. Only the method itself is modelled.
- SqlCompareTools.Upsert: its effect on the table's rows is not replayed. `Replay` covers only truncate and append.
- `df_to_sql`, `delete_with_conditions`, `get_newest_date`, `preview_table` and `get_all_tables_info` are plain database calls and are not part of this model.
