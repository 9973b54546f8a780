# boiler, modelled in Dafny

This project models the core of the Go library `boiler`. The core is the structured-log engine of `pkg/logging` and the small stateful helpers around it:

- **Log engine.** A JSON-array log directory with a shared in-memory record buffer:
  - `logFileWriter.Write` decodes one record and appends it to the buffer.
  - When the buffer reaches `MaxStackSize` (5), `flush` merges it into a log file of today.
  - `findLatestFile` picks that file: `<date>_0.log.json` unless the newest of today's files has reached `MaxFileSize` (5096000 bytes); then `<date>_<n>.log.json`, where n is the number of today's files.
  - `logReporter.getLogs` collects the files of the last `days` days into a report keyed by date and workplace. It then adds the buffer to today's entry, if there is one.
- **Dataframe.** `pkg/utils/dataframe.go`: text to rows, record cleaning, header interpretation, row cleaning, `Drop`, the column projection `Get`, and `NewDataframe`.
- **Configuration.** `pkg/yamlConfig/cfg.go` and `pkg/config/cfg.go`:
  - validators, the slog level mapping and the getters;
  - path resolution;
  - what each loader leaves behind after a failed load.
- **Databases.** `pkg/db/database.go` and `pkg/datamanagement/db/database.go`:
  - configuration checks, the open/close flags and the nil-connection guards;
  - row accumulation, the commit/rollback decision and the prepared-statement cache.
- **File filter.** `pkg/fsops/fileFilter.go`: a glob over a list of directories, with an optional age cut-off.

## Layout

- **Shared state and codecs:**
  - `log_store.dfy`: the log directory as a name-ordered sequence of files; the shared `Folder` and `RecordStack` objects.
  - `json.dfy`: a JSON codec of its own for records, standing in for encoding/json; "## Left out" lists where the two differ. A record is an object of string fields. The codec comes with proved round trips.
  - `dates.dfy`: civil dates, `civil.Date.String`, `time.Parse(time.DateOnly, …)`, and the day arithmetic of `AddDate(0, 0, -d)`.
- **Log engine:**
  - `log_writer.dfy`: the writer. `OpenTarget`, `FlushStep` and `WriteStep` are its specification functions. The `LogFileWriter` class with `FindLatestFile`, `Flush` and `Write` is proved against them.
  - `log_reporter.dfy`: the reporter. `Window` and `GetLogsSpec` are its specification functions, and the `LogReporter` class is proved against them. The file also holds the write-then-report scenario of the logger's test.
- **Other cores:** `dataframe.dfy`, `ascii.dfy` (ToLower/EqualFold on ASCII), `levels.dfy`, `paths.dfy`, `yaml_config.dfy`, `config.dfy`, `db.dfy`, `dm_db.dfy` and `file_filter.dfy`.

Abstractions:
- The clock is a parameter: `today` for the date, `now` for file modification times.
- Failing operating-system and driver calls are parameters: `IoFaults` in the writer, the `unreadable` set in the reporter, and the `Option<string>` errors of the database calls.
- The YAML decoder is a map from path to `Doc`.
- The glob engine of `pkg/fsops` is a pair of functions (`valid`, `matches`).
- A Go panic is an explicit outcome (`Panic`, `NilFileInfoPanic`, or a `None` result), never a precondition.

### Behaviours modelled as written

- **Rotation falls back to `_0`.** A latest file below `MaxFileSize` sends the flush to `<date>_0.log.json`, not to that latest file, whatever higher indices exist (`RotationTarget`).
- **`findLatestFile` can panic.** It panics when no file of today is newer than the zero time.
- **`Write` returns a buffer length.** The result is the buffer length after the call, so 0 after a flush (`WriteBelowThreshold`, `WriteAtThreshold`).
- **The report ignores some inputs.** Severity plays no part. The buffer is merged only into an already existing entry for today, and never creates one (`GetLogsReport`).
- **`Get` only compares counts.** It fails exactly when the number of matched columns differs from the number of requested names. So two columns matching one name can hide a name that matches nothing (`GetCountQuirk`), and a name requested twice fails (`GetDuplicateNameQuirk`).
- **`Drop` deletes a half-open range.** It deletes `[min, max)`: the row at the greatest index stays, and a single index deletes nothing (`DropSingle`).
- **`pkg/config` Load resets first.** It resets the global before reading, so a failed load leaves an empty configuration, not nil and not the previous one (`Config.LoadThenProvide`).
- **`pkg/yamlConfig` Load replaces on success only.** It installs a new configuration only when read, parse and validation all succeed.
- **`pkg/datamanagement/db` `NewDatabase` never returns a database.**
- **`pkg/datamanagement/db` Query and Execute:**
  - `Open` replaces the statement cache, so every call prepares afresh (`QueryTwice`).
  - If `Open` fails, the deferred `Close` on the nil connection panics.
- **`Drill` has no effect.** It only sets a flag, and `Filter` never reads it.

## Model

| member | source | states |
|---|---|---|
| Json.DecodeEncodeRecord | pkg/logging/logWriter.go:40-44 | decoding the encoding of a record gives the record back |
| Json.DecodeEncodeRecords | pkg/logging/logWriter.go:69-79 | decoding the encoding of a record array gives the array back |
| Json.DecodeEmptyFails | pkg/logging/logReporter.go:55-59 | zero-length input decodes neither as a record nor as a record array |
| Json.EncodeRecordsNonEmpty | pkg/logging/logWriter.go:76-82 | an encoded array is at least two bytes long, so a rewritten file is never empty |
| Dates.PrevDay | pkg/logging/logReporter.go:35 | the day before a valid date is a valid, strictly earlier date |
| Dates.DaysBefore | pkg/logging/logReporter.go:35 | going back n days from a valid date gives a valid date |
| Dates.DaysBeforeStrictlyEarlier | pkg/logging/logReporter.go:34-35 | going further back gives a strictly earlier date, so the days of a window are distinct |
| Dates.FormatShape | pkg/logging/logWriter.go:112 | the date text is ten characters: four year digits, dash, two month digits, dash, two day digits |
| Dates.ParseFormat | pkg/logging/logReporter.go:60 | parsing the text of a date with a four-digit year gives the date back |
| Dates.FormatParse | pkg/logging/logReporter.go:60 | text that parses as a date is exactly the formatted text of that date |
| Dates.FormatChars | pkg/logging/logReporter.go:35-36 | date text holds only digits and dashes |
| LogStore.GlobMembers | pkg/logging/logWriter.go:93 | the glob `<prefix>*` lists exactly the files whose names start with the prefix |
| LogStore.GlobSorted | pkg/logging/logWriter.go:93 | the glob of a name-ordered directory is name-ordered, so it lists no name twice |
| LogStore.FindPut | pkg/logging/logWriter.go:109-125 | after creating or overwriting a file, that file reads as written and every other file as before |
| LogStore.PutSorted | pkg/logging/logWriter.go:80-82 | creating or overwriting a file keeps the directory in name order |
| LogWriter.LatestIdxSpec | pkg/logging/logWriter.go:98-107 | the loop finds no file exactly when no mtime is after the zero time; otherwise it finds the first file with the strictly greatest mtime |
| LogWriter.LatestFile | pkg/logging/logWriter.go:98-107 | the loop returns the index of the latest of today's files: none exactly when no mtime is after the zero time, otherwise the first file with the strictly greatest mtime |
| LogWriter.LatestUnique | pkg/logging/logWriter.go:98-107 | the latest file is unique among equal modification times |
| LogWriter.RotationTarget | pkg/logging/logWriter.go:108-126 | no file of today gives index 0; a latest file of at least MaxFileSize bytes gives index = number of today's files; a smaller one gives index 0; no file newer than the zero time panics |
| LogWriter.OpenTargetSorted | pkg/logging/logWriter.go:109-125 | opening the target keeps the directory in name order |
| LogWriter.OpenKeepsContent | pkg/logging/logWriter.go:109-125 | opening with O_CREATE and without O_TRUNC changes no file's content |
| LogWriter.FlushSuccess | pkg/logging/logWriter.go:55-88 | a successful flush leaves the target holding its earlier records followed by the whole buffer in order, empties the buffer, and leaves every other file unchanged; zero-length content counts as no records |
| LogWriter.FlushFailureKeepsBuffer | pkg/logging/logWriter.go:57-85 | a failed flush never clears the buffer |
| LogWriter.FlushCorruptTarget | pkg/logging/logWriter.go:69-73 | a non-empty target that does not decode fails the flush with a decode error before anything is written |
| LogWriter.FlushSorted | pkg/logging/logWriter.go:80-85 | a flush keeps the directory in name order |
| LogWriter.WriteUndecodable | pkg/logging/logWriter.go:40-43 | bytes that do not decode give (0, error) and change neither the buffer nor the directory |
| LogWriter.WriteBelowThreshold | pkg/logging/logWriter.go:44-51 | for any input bytes that decode to a record r: below MaxStackSize r is appended at the end of the buffer, no file is touched, and the new buffer length is returned |
| LogWriter.WriteAtThreshold | pkg/logging/logWriter.go:44-51 | for any input bytes that decode to a record r: at MaxStackSize the buffer with r at its end is flushed; Write returns 0; the buffer is empty after a successful flush and holds every record after a failed one |
| LogWriter.WriteKeepsBufferBound | pkg/logging/logWriter.go:44-51 | a successful Write keeps the buffer below MaxStackSize and returns its length |
| LogWriter.LogFileWriter.constructor | pkg/logging/logWriter.go:26-33 | the writer holds the shared buffer and the directory |
| LogWriter.LogFileWriter.FindLatestFile | pkg/logging/logWriter.go:90-127 | the loop and the open yield OpenTarget's name and directory; the directory stays name-ordered |
| LogWriter.LogFileWriter.Flush | pkg/logging/logWriter.go:55-88 | the new directory, buffer and error are FlushStep of the old ones |
| LogWriter.LogFileWriter.Write | pkg/logging/logWriter.go:35-52 | the new directory, buffer, count and error are WriteStep of the old ones |
| LogReporter.DayPrefixes | pkg/logging/logReporter.go:34-36 | days + 1 prefixes, the d-th being the date text d days before today; none for negative days |
| LogReporter.DayMembers | pkg/logging/logReporter.go:36 | one day's glob lists exactly the directory's names that start with that day's text |
| LogReporter.ListingMembers | pkg/logging/logReporter.go:34-41 | the collected names are exactly the directory's names that start with one of the prefixes |
| LogReporter.WindowMembers | pkg/logging/logReporter.go:31-43 | a name is a candidate exactly when it is a file starting with the text of one of today, today−1, …, today−days |
| LogReporter.DatePatternIsLiteral | pkg/logging/logReporter.go:36-39 | the date pattern has no glob metacharacter, so the glob cannot fail and the nil branch is not taken |
| LogReporter.BeforeUnderscore | pkg/logging/logReporter.go:60 | the result is the prefix of the name before its first underscore |
| LogReporter.BeforeUnderscoreOf | pkg/logging/logReporter.go:60 | for `a_b` with no underscore in a, the prefix is a |
| LogReporter.SkipsUndecodable | pkg/logging/logReporter.go:51-59 | empty or undecodable files contribute nothing |
| LogReporter.ContributionDate | pkg/logging/logReporter.go:51-64 | a contributing file's date is its name's date prefix, and its records are its decoded content |
| LogReporter.ContributionOf | pkg/logging/logReporter.go:51-64 | a readable, decodable file with a dated name contributes that date and those records |
| LogReporter.DatedFileDay | pkg/logging/logReporter.go:36-60 | a file listed under a day's glob whose name yields a date is dated that day |
| LogReporter.AppendSpec | pkg/logging/logReporter.go:64-68 | one append creates the date's entry if needed and adds the records at the end of lr[date][wp] |
| LogReporter.ScanSpec | pkg/logging/logReporter.go:50-70 | an entry exists exactly for the dates some listed file contributes; it holds only wp, with that date's records in listing order |
| LogReporter.MergedScan | pkg/logging/logReporter.go:50-77 | for any list of files, the scan followed by the buffer merge has an entry exactly for the dates some file contributes, holding only wp, with that date's records and, for today, the buffer after them |
| LogReporter.GetLogsReport | pkg/logging/logReporter.go:46-77 | the same, plus the buffer after today's file records only when today's entry exists; severity plays no part |
| LogReporter.GetLogsDatesInWindow | pkg/logging/logReporter.go:34-64 | every date in the report is one of the window's days |
| LogReporter.RecordsOnSnoc | pkg/logging/logReporter.go:50-68 | one more listed file adds its records for a date at the end |
| LogReporter.ContributesSnoc | pkg/logging/logReporter.go:50-68 | one more listed file contributes a date exactly when it, or an earlier file, does |
| LogReporter.LogReporter.constructor | pkg/logging/logReporter.go:23-28 | the reporter reads the writer's directory and buffer |
| LogReporter.LogReporter.FilterLogs | pkg/logging/logReporter.go:31-43 | the loop returns Window: each day's glob in day order, concatenated |
| LogReporter.LogReporter.GetLogs | pkg/logging/logReporter.go:46-77 | the loop returns GetLogsSpec and changes neither the buffer nor the directory |
| LogReporter.AddFile | pkg/logging/logReporter.go:51-69 | one pass of the loop appends the file's records under its date and wp; an unreadable file, an undecodable one or a name without a date leaves the report as it was |
| LogReporter.WritesFillBuffer | pkg/logging/logWriter.go:44-51 | fewer than MaxStackSize writes into a short buffer only append to it |
| LogReporter.FirstFlush | pkg/logging/logWriter.go:55-88 | the first flush into an empty directory creates `<today>_0.log.json` holding exactly the buffer |
| LogReporter.ScenarioWrites | pkg/logging/tests/dcsLogger_test.go:57-70 | MaxStackSize + 1 writes give one file with the first five records and a buffer with the sixth |
| LogReporter.ScenarioLastWrites | pkg/logging/tests/dcsLogger_test.go:60-62 | the fifth write flushes and the sixth is buffered |
| LogReporter.FileNameDated | pkg/logging/logWriter.go:112-122 | a log file name starts with today's text and is dated today |
| LogReporter.OneFileReport | pkg/logging/logReporter.go:46-77 | one dated file for today and a non-empty buffer give {today: {wp: file records + buffer}} |
| LogReporter.ScenarioWindow | pkg/logging/logReporter.go:34-41 | a directory of one file of today has that file as its zero-day window |
| LogReporter.ScenarioReport | pkg/logging/tests/dcsLogger_test.go:72-78 | the report over the scenario's file and buffer holds all records under today |
| LogReporter.WriteThenReport | pkg/logging/tests/dcsLogger_test.go:57-78 | after MaxStackSize + 1 writes, GetLogs(0, wp) is {today: {wp: all records in order}}, so it is not empty |
| Dataframe.HeaderOf | pkg/utils/dataframe.go:85-91 | the column names in column order, same length |
| Dataframe.Dataframe.Header | pkg/utils/dataframe.go:85-91 | the filling loop returns HeaderOf(columns) |
| Dataframe.TrimLeftSpec | pkg/utils/dataframe.go:189 | removes exactly the leading run of ' ', '+' and '-' |
| Dataframe.TrimRightSpec | pkg/utils/dataframe.go:189 | removes exactly the trailing run of ' ', '+' and '-' |
| Dataframe.TrimSpec | pkg/utils/dataframe.go:189 | the trimmed text is a slice of the input with no cut character at either end, and only cut characters removed |
| Dataframe.CleanedSingle | pkg/utils/dataframe.go:185-193 | one field is kept, trimmed, exactly when non-empty |
| Dataframe.CleanedAppend | pkg/utils/dataframe.go:185-193 | cleaning distributes over concatenation, so kept fields stay in order |
| Dataframe.CleanedDash | pkg/utils/dataframe.go:188-189 | emptiness is tested before trimming: "-" becomes "" |
| Dataframe.CleanRecord | pkg/utils/dataframe.go:185-193 | the loop returns the cleaned record |
| Dataframe.FindSep | pkg/utils/dataframe.go:95-98 | the first occurrence of the separator, if any |
| Dataframe.JoinSplit | pkg/utils/dataframe.go:95-98 | joining the split parts with the separator gives the input back, for every separator |
| Dataframe.SplitPartsFree | pkg/utils/dataframe.go:95-98 | no part of a split contains the separator |
| Dataframe.ExplodeParts | pkg/utils/dataframe.go:95-98 | an empty separator splits into single characters |
| Dataframe.TextRowsRoundTrip | pkg/utils/dataframe.go:93-106 | one row per line and one field per segment; joining them back gives the text |
| Dataframe.Dataframe.WithRecordsFromText | pkg/utils/dataframe.go:93-106 | the loops append TextRows to the rows and return no error |
| Dataframe.TextOptionNeverFails | pkg/utils/dataframe.go:93-106 | the text option never errors and keeps the earlier rows as a prefix |
| Dataframe.ColumnNameShape | pkg/utils/dataframe.go:219 | column names hold no space and no upper-case letter |
| Dataframe.ColumnsFrom | pkg/utils/dataframe.go:217-223 | one column per header entry, idx = position, name lower-cased without spaces |
| Dataframe.InterpretOutcome | pkg/utils/dataframe.go:212-226 | fails exactly when the header differs from the first row (or there is no first row), changing nothing: with no rows the error is the index panic, on a mismatch it is HeaderInterpretErr naming the header and the first row; otherwise appends the columns and drops the first row |
| Dataframe.Dataframe.InterpretColumns | pkg/utils/dataframe.go:212-226 | the new state and error are those of InterpretSpec |
| Dataframe.InterpretFirstRow | pkg/utils/dataframe.go:291-293 | interpreting a frame's own first row never fails |
| Dataframe.CleanRowsMembers | pkg/utils/dataframe.go:269-279 | a row is kept exactly when it is as wide as the header and its cleaned first field differs from the first header name |
| Dataframe.CleanRowsOrder | pkg/utils/dataframe.go:269-279 | kept rows stay in their original order |
| Dataframe.CleanOutcome | pkg/utils/dataframe.go:269-279 | columns never change; a panic happens exactly when a row indexes an empty header or an empty cleaned record; otherwise exactly the Keep rows survive |
| Dataframe.CleanIdempotent | pkg/utils/dataframe.go:269-279 | a frame that was cleaned is a fixed point of clean |
| Dataframe.Dataframe.Clean | pkg/utils/dataframe.go:269-279 | the loop's new state and error are those of CleanSpec |
| Dataframe.Min | pkg/utils/dataframe.go:230-231 | the least index, which is i[0] after the sort |
| Dataframe.Max | pkg/utils/dataframe.go:230-231 | the greatest index, which is i[len-1] after the sort |
| Dataframe.DeleteRange | pkg/utils/dataframe.go:231 | deleting [lo, hi) keeps rows before lo and from hi on, and removes exactly hi − lo rows |
| Dataframe.DropSingle | pkg/utils/dataframe.go:229-233 | one index deletes nothing and only cleans |
| Dataframe.DropBounds | pkg/utils/dataframe.go:229-233 | a least index below 0 or a greatest past the rows panics and changes nothing |
| Dataframe.Dataframe.Drop | pkg/utils/dataframe.go:229-233 | the new state and error are those of DropSpec |
| Dataframe.Values | pkg/utils/dataframe.go:255 | one value per matched column, read at the column's idx |
| Dataframe.MatchingMembers | pkg/utils/dataframe.go:245-258 | a column is matched exactly when some requested name equals its name case-insensitively |
| Dataframe.MatchingAppend | pkg/utils/dataframe.go:245-258 | matching keeps frame order |
| Dataframe.GetOutcome | pkg/utils/dataframe.go:235-267 | no names give the row with all columns; otherwise failure exactly when the match count differs from the name count, else the matched columns in frame order with their values |
| Dataframe.GetCountQuirk | pkg/utils/dataframe.go:259-264 | columns "a" and "A" requested as ["a", "b"] succeed although no column is "b" |
| Dataframe.GetDuplicateNameQuirk | pkg/utils/dataframe.go:259-264 | ["a", "a"] over the one column "a" fails with ColumnsNotFoundErr |
| Dataframe.Dataframe.Get | pkg/utils/dataframe.go:235-267 | the loop returns GetSpec |
| Dataframe.Dataframe.Apply | pkg/utils/dataframe.go:195-210 | each option closure's new state and error are those of ApplySpec |
| Dataframe.NewFirstError | pkg/utils/dataframe.go:284-290 | the first failing option's error is the one returned |
| Dataframe.FirstErrorSticks | pkg/utils/dataframe.go:284-290 | later options do not run after an error |
| Dataframe.ErrorSticks | pkg/utils/dataframe.go:284-290 | once an option has failed, the options after it leave the frame and the error unchanged |
| Dataframe.NewIsClean | pkg/utils/dataframe.go:291-295 | whatever NewDataframe returns has been through clean |
| Dataframe.NewDataframe | pkg/utils/dataframe.go:281-296 | a fresh dataframe in state NewSpec exactly when NewSpec succeeds, else no dataframe and its error |
| Ascii.LowerChar | pkg/yamlConfig/cfg.go:136 | A–Z map to a–z, every other character is unchanged |
| Ascii.Lower | pkg/yamlConfig/cfg.go:136 | same length, lower-cased character by character |
| Ascii.LowerIdempotent | pkg/yamlConfig/cfg.go:136 | lower-casing twice is lower-casing once |
| Levels.LevelOfSpec | pkg/yamlConfig/cfg.go:135-148 | Debug ⇔ EqualFold "debug"; Warn ⇔ "warn" or "warning"; Error ⇔ "error"; Info for everything else |
| Levels.ValueOrder | pkg/yamlConfig/cfg.go:137-144 | Debug < Info < Warn < Error |
| YamlConfig.ValidateCredentials | pkg/yamlConfig/cfg.go:116-124 | username first, then password; no error exactly when both are set |
| YamlConfig.ValidateSource | pkg/yamlConfig/cfg.go:84-97 | name, then location, then the credentials only when present; no error exactly when all pass |
| YamlConfig.Message | pkg/yamlConfig/cfg.go:50 | a source error reads "source <name>: …" |
| YamlConfig.Auth | pkg/yamlConfig/cfg.go:100-105 | the configured credentials, or empty ones without an auth block |
| YamlConfig.MinLevel | pkg/yamlConfig/cfg.go:135-148 | the four level names case-insensitively, Info otherwise |
| YamlConfig.FirstSourceErrorAt | pkg/yamlConfig/cfg.go:48-52 | when source k is the first to fail, its error is reported under its name |
| YamlConfig.FirstSourceErrorNone | pkg/yamlConfig/cfg.go:48-52 | no source error exactly when every source validates |
| YamlConfig.ValidateOutcome | pkg/yamlConfig/cfg.go:41-54 | an empty service name fails first with the port untouched; otherwise port 0 becomes 8080 and nothing else changes; success exactly when every source validates |
| YamlConfig.ValidateIdempotent | pkg/yamlConfig/cfg.go:41-54 | a validated configuration validates again unchanged, with a non-zero port |
| YamlConfig.Base.Validate | pkg/yamlConfig/cfg.go:41-54 | the loop's new configuration and error are those of ValidateSpec |
| YamlConfig.Base.Sources | pkg/yamlConfig/cfg.go:57-63 | same length and order as the sources |
| Paths.Join | pkg/yamlConfig/cfg.go:179 | the joined path starts with the directory and ends with the name |
| Paths.JoinTwice | pkg/config/cfg.go:246 | joining a name without a trailing "/" and then a second name yields a path that starts with the root and ends with the two names separated by one "/" |
| Paths.Absolute | pkg/yamlConfig/cfg.go:181-183 | an absolute path stays, any other gets a leading "/" |
| Paths.DefaultPathSpec | pkg/config/cfg.go:246 | the default path starts with the root and ends with config/cfg.yaml |
| Paths.ConfigPathSpec | pkg/config/cfg.go:244-250 | the resolved path is absolute; an absolute override is kept, a relative one gets "/"; no override gives <root>/config/cfg.yaml |
| YamlConfig.ConfigManager.Load | pkg/yamlConfig/cfg.go:171-200 | read, parse or validation failure gives that error and keeps the current configuration; success installs a fresh validated one |
| YamlConfig.ConfigManager.Get | pkg/yamlConfig/cfg.go:206-214 | panics (None) exactly before any successful load; otherwise the current configuration |
| Config.Databases | pkg/config/cfg.go:92-98 | same length and order as the database sources |
| Config.FTPs | pkg/config/cfg.go:100-106 | same length and order as the FTP sources |
| Config.HTTPs | pkg/config/cfg.go:108-114 | same length and order as the HTTP sources |
| Config.MinLevel | pkg/config/cfg.go:211-225 | the four level names case-insensitively, Info otherwise |
| Config.Dir | pkg/config/cfg.go:227-229 | the configured folder unchanged |
| Config.MaxFileSize | pkg/config/cfg.go:231-233 | the configured size unchanged |
| Config.Global.Load | pkg/config/cfg.go:242-260 | resets to the empty configuration first; a read or parse failure leaves it; success stores the decoded one |
| Config.Global.Provide | pkg/config/cfg.go:263-268 | panics (None) exactly when Load never ran |
| Config.LoadThenProvide | pkg/config/cfg.go:243-268 | after any Load, Provide returns a configuration, the empty one after a failure |
| Db.ValidateConfig | pkg/db/database.go:53-59 | no error exactly when address, driver, template, user and password are set; else ErrBadConfig |
| Db.NameNotChecked | pkg/db/database.go:54 | the database name plays no part in validation |
| Db.NewDatabase | pkg/db/database.go:61-75 | an invalid configuration gives ErrBadConfig and no database; a template error gives that error; else a closed database with the rendered connection string |
| Db.Database.Open | pkg/db/database.go:77-86 | success sets open and an empty statement cache; failure changes neither |
| Db.Database.Close | pkg/db/database.go:88-95 | a nil connection panics; a failing close keeps open; success clears it |
| Db.QueryRow | pkg/db/database.go:101-109 | no connection gives ErrNoConnection; otherwise the scanner's outcome |
| Db.FirstScanError | pkg/db/database.go:123-127 | no scan error exactly when every scan succeeds |
| Db.Values | pkg/db/database.go:128 | the scanned values in row order |
| Db.ScanErrorDiscards | pkg/db/database.go:122-127 | the first scan error discards every earlier row and is returned wrapped |
| Db.FirstScanErrorAt | pkg/db/database.go:123-127 | the first failing scan is the one reported |
| Db.ValuesAppend | pkg/db/database.go:122-129 | accumulation distributes over concatenation |
| Db.QueryRows | pkg/db/database.go:111-136 | the loop returns QueryRowsSpec |
| Db.Exec | pkg/db/database.go:139-150 | no connection gives ErrNoConnection; an exec error is wrapped; otherwise the result |
| Db.Health | pkg/db/database.go:177-183 | no connection gives ErrNoConnection; otherwise the ping's outcome |
| Db.Transaction | pkg/db/database.go:152-174 | no connection makes no call; a fn error rolls back and never commits, returning the fn error alone or with the rollback's; fn success commits; commit ⇔ fn succeeded; rollback ⇔ fn failed |
| DataDb.ValidateConfig | pkg/datamanagement/db/database.go:60-66 | no error exactly when pkg/db accepts the configuration, that is when address, driver, template, user and password are set; else this package's ErrBadConfig |
| DataDb.NewDatabase | pkg/datamanagement/db/database.go:68-82 | never a database; ErrBadConfig, the template error, or "no compatible source found" |
| DataDb.Database.Open | pkg/datamanagement/db/database.go:84-93 | success sets open and replaces the cache with an empty map |
| DataDb.Database.Close | pkg/datamanagement/db/database.go:95-102 | a nil connection panics; a failing close keeps open; success clears it |
| DataDb.Database.Prepare | pkg/datamanagement/db/database.go:108-121 | after a successful open the lookup always misses, the statement is prepared and cached under the query's type name |
| DataDb.Database.DeferredCloses | pkg/datamanagement/db/database.go:109-113 | the deferred closes panic exactly on a nil connection, else leave the database closed |
| DataDb.Database.Query | pkg/datamanagement/db/database.go:104-128 | an open failure panics in the deferred Close; a prepare error is returned unwrapped; the query's outcome otherwise; always closed afterwards |
| DataDb.Database.Execute | pkg/datamanagement/db/database.go:130-148 | as Query, with prepare errors prefixed "statement construction error:" |
| DataDb.QueryTwice | pkg/datamanagement/db/database.go:108-121 | two queries of one type both prepare |
| FileFilter.MatchingMembers | pkg/fsops/fileFilter.go:71 | an entry matches exactly when it is in the directory and matches the pattern |
| FileFilter.GlobDirSpec | pkg/fsops/fileFilter.go:71-74 | the glob fails exactly on a malformed pattern; otherwise it lists the matching entries |
| FileFilter.Joined | pkg/fsops/fileFilter.go:75-77 | each match joined with its directory, same order |
| FileFilter.JoinInPlace | pkg/fsops/fileFilter.go:75-77 | the loop rewrites each match in place as the joined path |
| FileFilter.AgedSpec | pkg/fsops/fileFilter.go:78-91 | the age pass succeeds exactly when every match opens, and keeps exactly the matches modified after now − maxAge |
| FileFilter.AgedSucceeds | pkg/fsops/fileFilter.go:78-91 | the age pass succeeds exactly when every match can be opened |
| FileFilter.AgedMembers | pkg/fsops/fileFilter.go:84-88 | after a successful age pass, a path is kept exactly when it is the joined path of a match modified after now − maxAge |
| FileFilter.AgedFirstFailure | pkg/fsops/fileFilter.go:80-83 | the first match that cannot be opened is the error reported |
| FileFilter.AgedSnoc | pkg/fsops/fileFilter.go:79-90 | one more match fails the pass when it cannot be opened, and is kept when recent |
| FileFilter.AgedFailureSticks | pkg/fsops/fileFilter.go:80-83 | a failure aborts the whole pass |
| FileFilter.AgePass | pkg/fsops/fileFilter.go:78-91 | the loop returns Aged |
| FileFilter.NoAgeKeepsAll | pkg/fsops/fileFilter.go:78-93 | with maxAge 0 every match is kept, joined with its directory |
| FileFilter.FilterDir | pkg/fsops/fileFilter.go:70-93 | one directory's step returns DirResult |
| FileFilter.FilterSpecShape | pkg/fsops/fileFilter.go:69-96 | Filter fails exactly when some directory fails; the results of earlier directories come first |
| FileFilter.FilterFailureSticks | pkg/fsops/fileFilter.go:72-83 | a failing directory aborts the whole call |
| FileFilter.Filter.Filter | pkg/fsops/fileFilter.go:69-96 | the loop returns FilterSpec and changes no field of the filter (value receiver) |
| FileFilter.Filter.Apply | pkg/fsops/fileFilter.go:20-51 | each option's new settings and error are those of ApplySpec: only a malformed pattern fails and leaves the pattern unset |
| FileFilter.Filter.SetDirs | pkg/fsops/fileFilter.go:64-66 | replaces the directories and nothing else |
| FileFilter.ApplyAllError | pkg/fsops/fileFilter.go:53-62 | options fail exactly when some pattern is malformed; the error names the first one |
| FileFilter.NewFileFilter | pkg/fsops/fileFilter.go:53-62 | the options in order on a fresh filter; the first error gives no filter and that error |
| FileFilter.FirstErrorSticks | pkg/fsops/fileFilter.go:55-59 | options after the first error do not change the outcome |

## Left out

- Json: the codec covers records that are objects of string fields. Numbers, nesting, escapes other than `\"` and `\\`, and whitespace between the tokens of an object are not modelled.
- Json differs from encoding/json even on objects of string fields, in four ways:
  - A raw control byte (below 0x20) inside a string is accepted. json.Unmarshal rejects it, so the source's Write returns (0, err) where the model buffers the record.
  - A repeated key decodes to two fields. Go's map keeps only the last value.
  - The encoder keeps field order and does not HTML-escape `<`, `>` and `&`. json.Marshal sorts the keys of a map and escapes those three characters, which changes the file bytes and sizes, and so when a file reaches MaxFileSize.
  - The input `null` is refused. json.Unmarshal turns it into a nil record.
- Concurrency is not modelled: calls are sequential and every mutex is absent. This covers the writer lock, the logger lock and the configuration RWMutex.
- Crash consistency of truncate-then-write is not modelled: a failing write leaves the target truncated, which the model shows. The ignored `Truncate` and `Seek` errors and the discarded deferred `Close` error are not modelled.
- newLogFileWriter's `os.MkdirAll(logDir, 0o700)` is not modelled, and neither is its ignored error. LogWriter.LogFileWriter.constructor takes an existing `Folder`.
- Config.MinLevel does not model the `fmt.Print` of "log level not recognized; returning LevelInfo" on its default branch (pkg/config/cfg.go:222). Output to stdout is not modelled.
- The clock is not modelled: `time.Now` is the `today` and `now` parameters, constant during one call.
- Read failures in getLogs are the `unreadable` set. A failing `os.Stat` in findLatestFile is not modelled.
- The filterLogs glob-error branch is not reachable, because a date pattern has no metacharacter (`DatePatternIsLiteral`). So it is modelled as never taken.
- logger.go is not modelled beyond its two constants: the slog glue, the logger singleton and `NewDCSlogger`.
- The HTTP clients in pkg/netcom and pkg/utils/httpEmitter.go are not modelled: they are network plumbing.
- Ascii: case folding covers ASCII letters only, so the Unicode folding of `strings.ToLower` and `strings.EqualFold` is not modelled.
- Dataframe.Dataframe.Drop: the in-place sort of the caller's index slice is not modelled, only its least and greatest elements. The zeroing of the tail by `slices.Delete` is not modelled either.
- Dataframe.Dataframe.Get: the result is a value, so the sharing of the column slice with the source frame is not modelled.
- `DfRowsAsStructList` is not modelled: it needs reflection and float parsing.
- `WithRecordsFromFiles` is not modelled: it needs the spreadsheet library.
- The `logging.Provide` call in `NewDataframe` is not modelled.
- Paths.Join does not model `filepath.Clean`: it joins with one "/".
- YAML decoding is the abstract `Doc`. The unexported fields of yamlConfig's `credentials` and `logConfig` are set directly. A YAML `null` document, which would set `baseC` back to nil in pkg/config, is not modelled.
- Config.Global.Load models a parse failure as leaving the empty configuration; it does not model whatever `yaml.Unmarshal` had already decoded.
- `ExtensionAs`, `Reload` (a plain call to `Load`) and the getters `Service`, `LogConfig` and `Extension` are not modelled.
- The SQL driver and `text/template` are parameters: open, prepare, query, exec, begin, rollback, commit, ping and the rendered connection string each succeed or fail with a message.
- The difference between a nil statement map and an empty one is not modelled.
- FileFilter: the glob engine is the `Glob` functions `valid` and `matches` (the syntax check and the match of `path.Match`), so patterns that reach into subdirectories are not modelled.
- FileFilter: the ignored `Stat` error and the `Close` of each opened file are not modelled, and `time.Now` is evaluated once per call.
