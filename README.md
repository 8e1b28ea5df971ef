# FEC bulk-data loader, modelled in Dafny

The modelled program fetches the Federal Election Commission's 2020 bulk files and loads them into SQLite. The model covers the following parts.

- **The registry (`Fec::TABLES`).** Seven tables. Each has a zip entry name, a remote archive URL, a remote header URL, a local data path, a local header path and, for two tables, a documentation link.
- **The downloader.** For one table it writes the remote header text to the local header file. It then streams the entry's lines from the zip into the local data file, one parsed row per line. Lines are parsed with `CSV.parse_line(line, col_sep: '|', quote_char: "\x00")`. For `expenditures` each row is cut to its first 25 fields. `download_all` does this for every registry key, in key order.
- **The importer.**
  - `setup_database` issues seven `CREATE TABLE IF NOT EXISTS` statements, with their NOT NULL and UNIQUE constraints.
  - `import` bulk-loads a table's staging file into the table.
  - `import_all` sets the schemas up, then imports every registry key in order.
- **Database helpers.** These are in `fec/database.rb` and again in the top-level `database.rb`. `row_count`, `distinct_column_count` and `uniq_test` are queries. `convert_column_blank_strings_to_null` is an `UPDATE` that turns `''` into NULL in one column. `clean_data` applies it to `committees.CAND_ID`.
- **The ActiveRecord models.**
  - A contribution's two code decoders: `amendment_indicator` and `election_type`.
  - A candidate's `CAND_ICI` predicates.
  - The candidate filters: party, office, state and year.

## How the model is built

- **Files.** One Dafny module per source file, plus `Store` for the database and `Wrappers` for `Option`/`Result`.
  - `tables.dfy`: the registry, as constants.
  - `row_parser.dfy`: the line parser, as pure functions.
  - `downloader.dfy`: a `Disk` class whose maps and event log `download` updates, and the `download_all` loop.
  - `store.dfy`: a `Database` class whose catalog `CREATE TABLE IF NOT EXISTS` and the bulk load update.
  - `importer.dfy`: the schemas, `setup_database`, `import` and the `import_all` loop.
  - `fec_database.dfy`: the queries and the `UPDATE`.
  - `contribution.dfy` and `candidate.dfy`: the model classes.
- **Stateful operations are methods proved against functions.** Each method's `ensures` ties its result and its new state to a specification function, for example `Downloader.DownloadResult`/`DownloadLog`, `Store.LoadOutcome`, `Importer.ImportFrom` or `FecDatabase.ConvertOutcome`. Lemmas then prove what the program promises about those functions.
- **Stored values.** A value is NULL or a text.
- **Ruby symbols.** Table names and symbols are strings.
- **Staged cells.** A staged cell is `Option<string>`, because Ruby's CSV yields nil for an empty field. The CSV writer writes nil as an empty field, and `.import` reads an empty field back as `''`.
- **The top-level `database.rb`** is a second copy of the helpers outside `module Fec`. Its `execute`, `row_count`, `distinct_column_count`, `uniq_test`, `convert_column_blank_strings_to_null` and `clean_data` are the same code as those of `fec/database.rb`. The files differ only in the connection: the top-level `establish_connection(dbfile)` returns when the file is missing, and `fec/database.rb` keeps a `dbfile` accessor and returns when already connected. The same members therefore model both copies of the helpers. Each table row cites `fec/database.rb` and names the matching lines of the top-level copy.

## Model

| member | source | states |
|---|---|---|
| Tables.Fetch | fec/downloader.rb:19 | `TABLES.fetch(name)` succeeds exactly for the seven registry keys. Otherwise it fails with `KeyError` carrying the key. |
| Tables.RegistryKeys | fec/tables.rb:15-95 | The registry has exactly seven keys, pairwise distinct, in the order expenditures, committees, candidates, linkages, individual_contributions, committee_contributions, transactions. |
| Tables.Entries | fec/tables.rb:16-95 | Each key maps to its own entry: zip entry, URLs, staging paths, documentation. |
| Tables.StagingPaths | fec/tables.rb:16-95 | Every output path is a `.csv` file under `data/`. Each header path is its data path with `_header` inserted before `.csv`. |
| Tables.OwnersInvert | fec/tables.rb:16-95 | From a table's data file, header file or zip entry name one can recover the table. No data file is anyone's header file. |
| Tables.DistinctEntries | fec/tables.rb:16-95 | No two tables share a zip entry, a data file or a header file. No data file is any table's header file. |
| Tables.DocumentationPresence | fec/tables.rb:38-72 | `documentation` is present exactly for candidates and individual_contributions. |
| RowParser.Split | fec/downloader.rb:23 | Splitting on the pipe gives one field per pipe plus one, and no field contains a pipe. |
| RowParser.JoinSplit | fec/downloader.rb:23 | Joining the fields of a split with pipes gives the text back. |
| RowParser.SplitJoin | fec/downloader.rb:23 | Splitting a pipe-join of pipe-free fields gives the fields back. |
| RowParser.FieldsOfCells | fec/downloader.rb:23 | Reading empty fields as nil and writing nil back as the empty field loses nothing. |
| RowParser.Body | fec/downloader.rb:23 | The row separator `CSV.parse_line` removes is a suffix. What remains is a prefix of the line. |
| RowParser.BodyOfTerminated | fec/downloader.rb:45 | The parser removes exactly the `"\n"` that `each_line` leaves on a line. |
| RowParser.ParseLineSplits | fec/downloader.rb:23 | A parsed line has one cell per pipe plus one. Its cells, written back, join to the line body, so every other character is data. No cell is the empty text, because empty fields are nil. |
| RowParser.ParseJoined | fec/downloader.rb:23 | Parsing a line built from plain fields gives those fields back. |
| RowParser.QuotesAreData | fec/downloader.rb:21-23 | With NUL as the quote character, a double quote anywhere in a well-formed line's body ends up inside one of its parsed cells. No quote opens a quoted field. |
| RowParser.Take | fec/downloader.rb:21 | `row[0..n-1]` is the first `n` cells, or the whole of a shorter row. |
| RowParser.TruncationKeepsPrefix | fec/downloader.rb:20-24 | The truncating parser keeps a prefix of the full parse. It keeps all of it when the full parse has at most `limit` cells, and exactly `limit` cells otherwise. |
| Downloader.ParserFor | fec/downloader.rb:20-24 | The 25-field parser is used exactly for `expenditures`. Every other table parses whole lines. |
| Downloader.New | fec/downloader.rb:17-25 | `Downloader.new` fails exactly when the registry lacks the key, with the registry's `KeyError`. Otherwise it carries the table's entry and parser. |
| Downloader.ParsablePrefix | fec/downloader.rb:32-34 | This is the index of the first line that does not parse: every line before it parses, and the line at it does not. |
| Downloader.StagedRows | fec/downloader.rb:33 | One staged row per line, in order. |
| Downloader.WrittenLines | fec/downloader.rb:30-36 | The lines that reach the staging file all parse. |
| Downloader.DownloadSucceeds | fec/downloader.rb:27-37 | `download` succeeds exactly when the header URL and the archive are reachable, the entry exists and every line parses. Then the staging file holds one parsed row per entry line, in order. |
| Downloader.HeaderBeforeData | fec/downloader.rb:28-30 | The header file is opened first. No data file is opened and no row appended until the header text has been fetched and written. |
| Downloader.SaveHeader | fec/downloader.rb:49-53 | Opening the header file empties it. It then holds the fetched text, or stays empty when the fetch fails. The staging files are untouched. |
| Downloader.StreamLines | fec/downloader.rb:43-47 | One parsed row is appended per line, in order, up to the first line that does not parse. That line's index is the error. |
| Downloader.SaveData | fec/downloader.rb:30-36 | Opening the data file empties it. It then holds the rows of the lines that parse. The errors are a missing archive, a missing entry or a bad line, in that order. |
| Downloader.DownloadResult | fec/downloader.rb:27-37 | `download` succeeds exactly when the header is fetched, the entry exists and every entry line reaches the staging file. It never fails with the registry's error, which `new` raises. |
| Downloader.DataResult | fec/downloader.rb:30-36 | The data half succeeds exactly when the entry exists and every one of its lines reaches the staging file. |
| Downloader.DownloadLog | fec/downloader.rb:27-53 | `download` first opens the header file. It touches no file but the table's header and data files. |
| Downloader.DataLog | fec/downloader.rb:30-36 | The data half touches only the table's data file. |
| Downloader.Download | fec/downloader.rb:27-37 | The result, the whole file-operation log, the header file and the staging file are exactly those the specification functions give. |
| Downloader.RegistryDownloaders | fec/downloader.rb:11-13 | The loop's downloaders are `new(key)` for each registry key, in key order. |
| Downloader.RegistrySeparate | fec/downloader.rb:11-13 | The registry's downloaders write separate data files. |
| Downloader.DownloadNext | fec/downloader.rb:13 | One turn of the loop. It returns that table's download result. The log, the header files and the staging files become exactly what that download leaves. The staging files of the tables before it stay staged, and its own holds the lines before any failure once opened. |
| Downloader.DownloadEach | fec/downloader.rb:11-14 | Running downloaders in order fails fast. It succeeds exactly when every download would. Then the log, the header files and the staging files are exactly what all of them leave, and every staging file holds its rows. On failure there is a first failing table: its error is the result, and the disk is exactly what the downloads up to it leave. The staging files before it are staged, and its own holds the lines before the failure once opened. |
| Downloader.DownloadAll | fec/downloader.rb:10-15 | `download_all` is `DownloadEach` over the registry, in key order, with the same exact log, header and staging files. After a full run every table's header file holds its header text. |
| Downloader.HeadersAfterHold | fec/downloader.rb:10-15 | When downloaders write separate files, running them leaves every one's header file holding its own header text. |
| Downloader.HeadersAfterFrame | fec/downloader.rb:10-15 | A header file that none of the downloaders owns is left exactly as it was. |
| Downloader.StagedAfterFrame | fec/downloader.rb:10-15 | A staging file that none of the downloaders owns is left exactly as it was. |
| Store.CheckExact | fec/importer.rb:29-186 | The per-row constraint check accepts a row exactly when the table with the row added still satisfies every column's width, NOT NULL and UNIQUE constraint. |
| Store.ColumnIndex | fec/database.rb:24 | A column named in a query or update resolves to the first column of that name. There is none exactly when no column has the name. |
| Store.Attribute | models/candidate.rb:9 | `attributes[key]` is the row's value in that column, and nil when the table has no such column. |
| Store.EnsureIdempotent | fec/importer.rb:29 | `CREATE TABLE IF NOT EXISTS` leaves an existing table alone with its rows, adds only the named table, and is idempotent. |
| Store.Ensure | fec/importer.rb:29 | `CREATE TABLE IF NOT EXISTS` leaves the named table present. It creates it empty when it was missing, keeps every existing table as it was, and adds no other table. |
| Store.LoadFrom | fec/importer.rb:12-15 | Loading rows one at a time either stores all of them after the existing rows, keeping the table consistent, or stops at a row. That row is the first whose addition breaks a constraint. |
| Store.LoadOutcome | fec/importer.rb:12-15 | A bulk load into a missing table fails with no such table. A successful load leaves the old rows followed by the loaded ones, consistent with the schema. Any other failure names a loaded row that breaks a constraint. |
| Store.LoadAllOrNothing | fec/importer.rb:12-15 | A bulk load succeeds exactly when the table exists and its rows followed by the new ones satisfy its constraints. Then the table holds exactly those rows. |
| Store.DuplicateRejected | fec/importer.rb:51 | Two loaded rows with the same non-NULL value in a UNIQUE column make the load fail. |
| Store.Database.EnsureSchema | fec/importer.rb:29 | The catalog afterwards is the old catalog with the schema ensured. |
| Store.Database.Load | fec/importer.rb:12-15 | Succeeds with the number of rows exactly when the load outcome does, and the table then holds the outcome's rows. Otherwise it fails with the outcome's error and the catalog is unchanged. |
| Importer.ConstrainedFromMeaning | fec/importer.rb:27-187 | The NOT NULL (UNIQUE) column list of a schema holds exactly the constrained column names, in declaration order. |
| Importer.ExpendituresNotNull | fec/importer.rb:29-55 | `expenditures` has 25 columns. Its NOT NULL columns are CMTE_ID and SUB_ID. |
| Importer.ExpendituresUnique | fec/importer.rb:29-55 | Its only UNIQUE column is SUB_ID. |
| Importer.CommitteesNotNull | fec/importer.rb:59-75 | `committees` has 15 columns, and CMTE_ID is its only NOT NULL column. |
| Importer.CommitteesUnique | fec/importer.rb:59-75 | CMTE_ID is its only UNIQUE column. |
| Importer.CandidatesNotNull | fec/importer.rb:79-95 | `candidates` has 15 columns, and CAND_ID is its only NOT NULL column. |
| Importer.CandidatesUnique | fec/importer.rb:79-95 | It has no UNIQUE column. |
| Importer.LinkagesNotNull | fec/importer.rb:99-107 | `linkages` has 7 columns. Its NOT NULL columns are CAND_ID and LINKAGE_ID. |
| Importer.LinkagesUnique | fec/importer.rb:99-107 | It has no UNIQUE column. |
| Importer.IndividualContributionsNotNull | fec/importer.rb:110-132 | `individual_contributions` has 21 columns. Its NOT NULL columns are CMTE_ID and SUB_ID. |
| Importer.IndividualContributionsUnique | fec/importer.rb:110-132 | Its only UNIQUE column is SUB_ID. |
| Importer.CommitteeContributionsNotNull | fec/importer.rb:136-159 | `committee_contributions` has 22 columns. Its NOT NULL columns are CMTE_ID and SUB_ID. |
| Importer.CommitteeContributionsUnique | fec/importer.rb:136-159 | Its only UNIQUE column is SUB_ID. |
| Importer.TransactionsNotNull | fec/importer.rb:163-185 | `transactions` has 21 columns. Its NOT NULL columns are CMTE_ID and SUB_ID. |
| Importer.TransactionsUnique | fec/importer.rb:163-185 | Its only UNIQUE column is SUB_ID. |
| Importer.SchemasFollowRegistry | fec/importer.rb:27-187 | The seven schemas are named like the registry keys, in the same order. |
| Importer.ExpendituresWidthMatchesParser | fec/importer.rb:29-55 | The expenditures table has exactly as many columns as the downloader's truncating parser keeps. |
| Importer.IdentifierConstraints | fec/importer.rb:51-184 | SUB_ID is NOT NULL UNIQUE in the four submission tables. CMTE_ID is NOT NULL UNIQUE in committees. LINKAGE_ID is NOT NULL in linkages. |
| Importer.EnsureFrom | fec/importer.rb:27-187 | Creating schemas keeps a consistent catalog consistent. |
| Importer.Setup | fec/importer.rb:27-187 | `setup_database` keeps a consistent catalog consistent. |
| Importer.EnsureFromFrame | fec/importer.rb:27-187 | Creating schemas never drops or changes an existing table. It adds one table per schema, and nothing else. |
| Importer.EnsureFromPresent | fec/importer.rb:27-187 | Once each schema's table exists, creating them again changes nothing. |
| Importer.EnsureFromFresh | fec/importer.rb:27-187 | A table the catalog lacked comes out empty, with its own schema. |
| Importer.SetupIdempotent | fec/importer.rb:27-187 | `setup_database` is idempotent and keeps every existing table with its rows. Afterwards the tables are exactly the old ones plus the seven. |
| Importer.SetupFresh | fec/importer.rb:27-187 | On an empty database `setup_database` creates exactly the seven tables, each empty and with its own schema. |
| Importer.SetupUnrolled | fec/importer.rb:28-186 | `setup_database` is the seven statements in the order written. |
| Importer.SetupDatabase | fec/importer.rb:27-187 | The catalog afterwards is `Setup` of the old one. |
| Importer.RegistryDig | fec/importer.rb:14 | `dig(table, :output, key)` is nil for a missing table or for a key other than `data`/`header`. |
| Importer.ImportPathAsWrittenIsNil | fec/importer.rb:14 | As written (`:output, :csv`), the path is nil for every table. |
| Importer.ImportPathAsWritten | fec/importer.rb:14 | The path as written could only ever name one of the table's own staging files. |
| Importer.ImportPathIsStagingFile | fec/importer.rb:14 | The corrected path exists exactly for the registry keys, and it is the very file the downloader fills. |
| Importer.RecordsKeepText | fec/importer.rb:13-14 | Every loaded cell holds the staged text, with nil read as `''`. No loaded cell is NULL. |
| Importer.ImportOutcome | fec/importer.rb:11-16 | An unknown table has no file, and a missing staging file is reported by its path. A successful import leaves the table's old rows followed by the staged rows read back as text, consistent with the schema. |
| Importer.Import | fec/importer.rb:11-16 | `import` succeeds exactly when the import outcome does. The table then holds the outcome's rows; otherwise nothing changes. |
| Importer.ImportFrom | fec/importer.rb:21-24 | Importing tables in turn keeps the catalog consistent. |
| Importer.ImportFromKeys | fec/importer.rb:21-24 | Importing never creates or drops a table. |
| Importer.ImportFromUntouched | fec/importer.rb:21-24 | A table the run does not name is unchanged, whether or not the run succeeds. |
| Importer.ImportFromLoaded | fec/importer.rb:21-24 | After a successful run over distinct names, each named table holds its old rows followed by its staging file's rows, loaded once. |
| Importer.ImportTables | fec/importer.rb:21-24 | The loop's result and catalog are those of `ImportFrom`. |
| Importer.ImportAll | fec/importer.rb:18-25 | `import_all` is `setup_database` followed by importing every registry key in key order. |
| Importer.ImportAllFreshTables | fec/importer.rb:18-25 | On an empty database, `import_all` leaves exactly the seven tables. |
| Importer.ImportAllFreshRows | fec/importer.rb:18-25 | On an empty database, a successful `import_all` leaves each table holding exactly its staging file's rows, under its own schema. |
| FecDatabase.RowCountAfterLoad | fec/database.rb:19-21 | `row_count` grows by the number of loaded rows on the loaded table and stays the same on every other table. The top-level copy, database.rb:14-16, is the same code. |
| FecDatabase.RowCount | fec/database.rb:19-21 | `row_count` is the number of rows of an existing table. It fails with no such table otherwise. The top-level copy, database.rb:14-16, is the same code. |
| FecDatabase.DistinctColumnCount | fec/database.rb:23-25 | `distinct_column_count` succeeds exactly when the table and the column exist, failing with no such table or no such column otherwise. It never exceeds the row count. The top-level copy, database.rb:18-20, is the same code. |
| FecDatabase.ColumnValuesCount | fec/database.rb:23-25 | There are never more distinct non-NULL values than rows. There are exactly as many precisely when every row holds its own non-NULL value. |
| FecDatabase.DistinctAtMostRows | fec/database.rb:19-25 | `distinct_column_count` is at most `row_count`. The top-level copy, database.rb:14-20, is the same code. |
| FecDatabase.UniqTest | fec/database.rb:27-35 | It fails exactly when the count query does. It reports uniqueness exactly when the two counts are equal. Otherwise it reports the distinct count and the row count, the distinct one being the smaller. The top-level copy, database.rb:22-31, is the same code. |
| FecDatabase.UniqTestMeaning | fec/database.rb:27-35 | `uniq_test` reports uniqueness exactly when every row holds its own non-NULL value in the column. The top-level copy, database.rb:22-31, is the same code. |
| FecDatabase.DeclaredKeyIsUnique | fec/database.rb:27-35 | A column declared NOT NULL UNIQUE always passes `uniq_test`. |
| FecDatabase.BlankToNull | fec/database.rb:38-40 | The update keeps the number of rows. |
| FecDatabase.BlankToNullEffect | fec/database.rb:38-40 | Afterwards no row holds `''` in the column, and the rows that held it hold NULL. Every other cell, and every row's width, is unchanged. The top-level copy, database.rb:33-35, is the same code. |
| FecDatabase.BlankToNullIdempotent | fec/database.rb:38-40 | Running the update twice is running it once. The top-level copy, database.rb:33-35, is the same code. |
| FecDatabase.FirstBlank | fec/database.rb:39 | This is the first row holding `''` in the column. There is none exactly when no row does. |
| FecDatabase.ConvertOutcome | fec/database.rb:38-40 | The update fails for a missing table or column. A NOT NULL column makes it fail at a row holding `''`. A successful update keeps the row count and leaves no `''` in the column. The top-level copy, database.rb:33-35, is the same code. |
| FecDatabase.ConvertKeepsSound | fec/database.rb:38-40 | A successful update keeps the row count and keeps the catalog consistent. |
| FecDatabase.ConvertColumnBlankStringsToNull | fec/database.rb:38-40 | The table afterwards holds the converted rows. The method fails, changing nothing, for a missing table or column, or for a NOT NULL column that holds `''`. The top-level copy, database.rb:33-35, is the same code. |
| FecDatabase.CommitteesCandId | fec/importer.rb:59-75 | CAND_ID is the committees table's fifteenth column, and it is not NOT NULL. |
| FecDatabase.CleanData | fec/database.rb:42-44 | `clean_data` is the update on `committees.CAND_ID`. The top-level copy, database.rb:37-39, is the same code. |
| FecDatabase.CleanDataScope | fec/database.rb:42-44 | On the committees table `setup_database` creates, `clean_data` cannot fail. It keeps the row count, changes no column but CAND_ID, and leaves no `''` there. The top-level copy, database.rb:37-39, is the same code. |
| Contribution.AmendmentDecodesCodes | models/contribution.rb:10-19 | A value decodes to an amendment kind exactly when it is that kind's code (N, A, T). Every other value, NULL included, decodes to nil. |
| Contribution.ElectionDecodesCodes | models/contribution.rb:21-38 | A value decodes to an election type exactly when it is that type's code (P, G, O, C, R, S, E). Every other value decodes to nil. |
| Contribution.CodesInjective | models/contribution.rb:10-38 | Distinct kinds have distinct codes, in both decoders. |
| Contribution.DecodeAmendment | models/contribution.rb:12-18 | A decoded kind is the one whose code the value is. A value decodes to nil only when it is no kind's code. |
| Contribution.DecodeElection | models/contribution.rb:22-37 | A decoded type is the one whose code the value is. A value decodes to nil only when it is no type's code. |
| Contribution.AmendmentIndicatorAsWritten | models/contribution.rb:10-19 | As written, a kind is reported only when the attribute `AMMDT_IND` holds its code. |
| Contribution.AmendmentIndicator | models/contribution.rb:10-19 | The corrected reader reports a kind exactly when the row's `AMNDT_IND` holds its code, and nil otherwise. |
| Contribution.ElectionTypeOf | models/contribution.rb:21-38 | `election_type` reports a type exactly when the row's `TRANSACTION_PGI` holds its code, and nil otherwise. |
| Contribution.NoAmmdtColumn | models/contribution.rb:11 | The contributions table has no column `AMMDT_IND`. |
| Contribution.AmendmentIndicatorAsWrittenIsNil | models/contribution.rb:10-19 | As written, `amendment_indicator` is nil for every contribution. |
| Contribution.AmendmentColumn | fec/importer.rb:110-132 | `AMNDT_IND` is the contributions table's second column. |
| Contribution.ElectionColumn | fec/importer.rb:110-132 | `TRANSACTION_PGI` is its fourth column. |
| Contribution.AmendmentIndicatorMeaning | models/contribution.rb:10-19 | The corrected `amendment_indicator` gives a kind exactly when the row's `AMNDT_IND` is that kind's code, and nil otherwise. |
| Contribution.ElectionTypeMeaning | models/contribution.rb:21-38 | `election_type` gives a type exactly when the row's `TRANSACTION_PGI` is that type's code, and nil otherwise. |
| Contribution.AmendmentMisread | models/contribution.rb:11 | For a contribution whose `AMNDT_IND` is `A`, the corrected reader reports an amendment and the reader as written reports nil. |
| Candidate.Where | models/candidate.rb:24-46 | `where key => value` returns at most the table's rows. A row is returned exactly when it is in the table and its attribute is that text. |
| Candidate.WhereAppend | models/candidate.rb:24-46 | Filtering a concatenation concatenates the filtered parts, so table order is kept. |
| Candidate.WhereSingle | models/candidate.rb:24-46 | A single row is kept exactly when it matches. |
| Candidate.WhereIdempotent | models/candidate.rb:24-46 | Filtering twice on one condition is filtering once. |
| Candidate.IciColumn | fec/importer.rb:79-95 | `CAND_ICI` is the candidates table's eighth column. |
| Candidate.Incumbent | models/candidate.rb:8-10 | An incumbent is neither a challenger nor an open seat. |
| Candidate.Challenger | models/candidate.rb:12-14 | A challenger is neither an incumbent nor an open seat. |
| Candidate.OpenSeat | models/candidate.rb:16-18 | An open seat is neither an incumbent nor a challenger. |
| Candidate.StatusMeaning | models/candidate.rb:8-18 | `incumbent?`, `challeneger?` and `open_seat?` hold exactly when `CAND_ICI` is `I`, `C` and `O` respectively. At most one holds, and none holds for any other code. |
| Candidate.PartyColumn | fec/importer.rb:79-95 | `CAND_PTY_AFFILIATION` is the third column. |
| Candidate.OfficeColumn | fec/importer.rb:79-95 | `CAND_OFFICE` is the sixth column. |
| Candidate.Republicans | models/candidate.rb:24-26 | `republicans` returns at most the table's rows, and exactly those whose party is `REP`. |
| Candidate.Democrats | models/candidate.rb:28-30 | `democrats` returns at most the table's rows, and exactly those whose party is `DEM`. |
| Candidate.HouseCandidates | models/candidate.rb:40-42 | `house_candidates` returns at most the table's rows, and exactly those whose office is `H`. |
| Candidate.SenateCandidates | models/candidate.rb:44-46 | `senate_candidates` returns at most the table's rows, and exactly those whose office is `S`. |
| Candidate.PartyFilters | models/candidate.rb:24-30 | A candidate is among `republicans` (`democrats`) exactly when it is in the table with party `REP` (`DEM`). None is in both. |
| Candidate.OfficeFilters | models/candidate.rb:40-46 | A candidate is among `house_candidates` (`senate_candidates`) exactly when its office is `H` (`S`). None is in both. |
| Candidate.UpcaseChar | models/candidate.rb:37 | `a`..`z` map to `A`..`Z` letter for letter; every other character stays. |
| Candidate.Upcase | models/candidate.rb:37 | Upcasing keeps the length. |
| Candidate.UpcaseNormal | models/candidate.rb:37 | No lower-case ASCII letter is left, and upcasing is idempotent. |
| Candidate.State | models/candidate.rb:36-38 | `state(st)` returns at most the table's rows, and exactly those whose office state is `st` upcased. |
| Candidate.StateIgnoresCase | models/candidate.rb:36-38 | Two spellings that upcase alike select the same rows. |
| Candidate.StateNy | models/candidate.rb:36-38 | `state("ny")` is `state("NY")`. |
| Candidate.StateRows | models/candidate.rb:36-38 | `state(st)` returns exactly the rows whose office state is `st` upcased. No returned row holds a lower-case letter there. |
| Candidate.StrToI | models/candidate.rb:33 | `String#to_i` reads a string with no digit as 0. |
| Candidate.IntToS | models/candidate.rb:33 | `Integer#to_s` writes a non-negative integer as digits only, and a negative one as a minus sign followed by digits. |
| Candidate.Year | models/candidate.rb:32-34 | `year(y)` returns at most the table's rows, and exactly those whose election year is the text of `y.to_i`. |
| Candidate.ToSToI | models/candidate.rb:33 | `Integer#to_s` followed by `String#to_i` gives the integer back. |
| Candidate.YearNormalises | models/candidate.rb:32-34 | `year` given an integer's decimal text selects what the integer does. `year(nil)` selects what `year(0)` does. |
| Candidate.Year2020 | models/candidate.rb:32-34 | `year("2020")` is `year(2020)`. |

## Left out

- Network, zip and file access. The remote documents and archives are a `Remote` value; the local files are the `Disk` object. Timeouts and partial reads are not modelled.
- The progress lines `puts` prints (fec/downloader.rb:12, fec/importer.rb:22).
- The CSV writer's quoting. A row written to the staging file is modelled as read back by `.import` exactly, field for field.
- `CSV.parse_line` on a line holding a NUL, a stray CR or a stray LF. The model treats such a line as one that does not parse, so `download` stops there. Ruby would read some NUL-quoted fields instead.
- Connection setup (`establish_connection` in both database files) and ActiveRecord's own SQL generation.
- `Importer.Import`: `import` hands `.mode csv` and `.import` to `exec_query` (fec/database.rb:16), which prepares the text as SQL. To SQLite a statement starting with `.` is a syntax error, so as written `import` loads nothing. The model gives `import` the meaning of the sqlite3 shell's `.import`, which the program evidently intends. Running that shell command is not part of this model, so no corrected member exists and this is not a Findings row.
- `Store.ColumnIndex`: table and column names match case-sensitively, where SQLite matches identifiers ignoring ASCII case. So `uniq_test('committees', 'cmte_id')` succeeds in SQLite and fails here with no such column. Every call in the modelled code spells names exactly as declared.
- SQLite type affinity. Every stored value is a text, so `1` and `01` in an INTEGER column count as distinct.
- `Store.Database.Load`: the whole load is refused at the first row that breaks a constraint or has the wrong width. The sqlite3 shell can instead report the row and go on, and it pads or cuts a row of the wrong width.
- `Importer.Import`: on a table that does not exist, the result is an error. `.import` would create the table from the file's first row. `import_all` always runs `setup_database` first, so this case does not arise there.
- `FecDatabase.UniqTest`: the printed ratio `uniq_values / count.to_f` is floating-point formatting. The model returns the two counts instead.
- `Candidate.search` (SQL `LIKE`) and `Candidate.random` (`ORDER BY RANDOM()`): pattern matching and randomness.
- `Contribution#transaction_type`: it calls `Fec::TransactionType`, which is not part of this model.
- `models/committee.rb`: a single attribute accessor.
- `Candidate.UpcaseChar`: only ASCII letters are upcased, where Ruby's `String#upcase` also maps non-ASCII letters.
- `Candidate.StrToI`: reads leading whitespace, an optional sign and decimal digits with single underscores between them. Ruby's other integer-literal prefixes are not modelled.
- `Candidate.YearArg`: `year` is modelled for Integer, String and nil arguments only.

## Findings

| source | as written | input that shows it | evidently intended | confidence | as-written member | corrected member |
|---|---|---|---|---|---|---|
| fec/importer.rb:14 | `.import` takes its file from `CONFIG.dig(table, :output, :csv)`. `CONFIG` is defined in none of the program files modelled here, so as written the call raises `NameError` before any path exists. Reading `CONFIG` as the registry `Fec::TABLES`, which the model assumes, still finds no file: no entry has a `csv` key under `output`. | table `expenditures`: `NameError` as written; with `CONFIG` read as `TABLES`, the path is nil | the table's staging file, `TABLES[table][:output][:data]` | not executed | Importer.ImportPathAsWrittenIsNil | Importer.ImportPathIsStagingFile |
| models/contribution.rb:11 | `amendment_indicator` reads the attribute `AMMDT_IND`, which is no column of `individual_contributions` | a contribution whose `AMNDT_IND` is `A` decodes to nil | read `AMNDT_IND`, the column the schema declares | not executed | Contribution.AmendmentMisread | Contribution.AmendmentIndicatorMeaning |
