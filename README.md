# excel_database in Dafny

`excel_database.py` turns a multi-sheet spreadsheet into an SQLite database
and then opens a query prompt. The script has two passes over the workbook.

- **Build pass** (`create_database_from_excel`). It runs only when the
  database file does not exist yet. For every sheet it:
  - derives a table name by replacing space, `:` and `;` with `_`;
  - drops the columns pandas named `Unnamed…`;
  - skips the sheet if nothing is left;
  - maps each dtype name to a SQL type (`object` → `TEXT`, `int64` →
    `INTEGER`, `float64` → `REAL`, anything else unchanged);
  - issues `CREATE TABLE name (col type, …);`;
  - writes the filtered rows with `to_sql(..., if_exists='replace')`.
- **Sync pass** (`insert_data_from_excel`). It runs every time. For every
  sheet it:
  - derives the table name by replacing spaces only;
  - skips the sheet when no table has that name;
  - otherwise handles each row in order. It builds a `WHERE` condition with
    one `"col" = '<value>'` test per column, doubling single quotes in text
    values. It asks whether an equal row exists. If none does, it appends
    the row with a parameterised `INSERT`.
- **Prompt**. It runs every typed line as a query until a line that
  upper-cases to `Q`.

The model treats the database as a map from table name to the table's rows,
in insertion order. "An equal row exists" is sequence membership. The
spreadsheet is an already-parsed workbook: sheets, each with named and typed
columns and rows of cell values.

Modules, one per concern of the script:

- `Text`: the `str` operations the script uses (`replace` with a
  one-character pattern, `join`, `startswith`, `str(int)`).
- `Identifiers`: the two sanitisations and how they differ.
- `Values`: cell values, `escape_special_chars`, and how SQL reads an
  escaped literal back.
- `Schema`: the `Unnamed` filter, the dtype map and the column-definition
  loop.
- `SqlText`: the `CREATE TABLE`, `WHERE`, `SELECT` and `INSERT` texts.
- `Sync`: syncing rows into one table, as a specification function with its
  lemmas.
- `Workbook`: both passes over a workbook, and the `Database` class whose
  methods run them in place.
- `Console`: the quit test and the prompt loop.

Two details of the code shape the model. Line 86 replaces only spaces in a
sheet name, while the build pass also replaces `:` and `;`. So a sheet whose
name holds `:` or `;` is never synced (`Identifiers.LookupNeverBuilt`,
`Workbook.SyncSkipsColonNames`). Line 98 puts every value between single
quotes, strings or not, and so does `SqlText.Clause`.

## Model

| member | source | states |
|---|---|---|
| `Text.ReplaceOneChar` | excel_database.py:22 | Replacing one character by one character keeps the length and maps each position independently. |
| `Text.ReplaceLength` | excel_database.py:146 | Replacing a character by a text grows the string by one less than the replacement's length per occurrence. |
| `Text.JoinPartAt` | excel_database.py:53 | `sep.join(parts)` holds each part at a computed offset, in order, and ends with the last part. |
| `Text.JoinSepAt` | excel_database.py:53 | In `sep.join(parts)` exactly `sep` lies between each part and the next. |
| `Identifiers.Sanitize` | excel_database.py:22 | The build-pass name keeps the length; space, `:` and `;` become `_`; every other character stays. |
| `Identifiers.SanitizeSpaces` | excel_database.py:86 | The sync-pass name keeps the length; only spaces become `_`. |
| `Identifiers.SanitizeIsClean` | excel_database.py:37 | A sanitised name contains no space, `:` or `;`. |
| `Identifiers.SanitizeIdempotent` | excel_database.py:22 | Sanitising twice gives the same name as sanitising once. |
| `Identifiers.LookupMatchesBuild` | excel_database.py:84-93 | The sync pass looks a sheet up under its build-pass name exactly when the sheet name holds neither `:` nor `;`. |
| `Identifiers.LookupNeverBuilt` | excel_database.py:84-93 | A sheet name with `:` or `;` is looked up under a name that differs from every build-pass name. |
| `Values.Escape` | excel_database.py:142-148 | A string grows by one character per single quote; a non-string is returned unchanged. |
| `Values.EscapeQuotes` | excel_database.py:146 | `value.replace("'", "''")`, defined by the one-character `Text.Replace`; its meaning is stated by the three lemmas below. |
| `Values.EscapeQuotesDoubled` | excel_database.py:146 | In an escaped string every quote is immediately doubled, so it is a well-formed SQL literal body. |
| `Values.UnescapeEscape` | excel_database.py:146 | Reading `''` as `'` in the escaped string gives back the original string. |
| `Values.EscapeUnescape` | excel_database.py:146 | Every well-formed literal body is the escaping of what it reads as, so escaping is a bijection onto well-formed bodies. |
| `Values.RenderedEscapeIsLiteral` | excel_database.py:98 | The text spliced into the condition for any cell (string, integer or float) is a well-formed literal body; for a string it reads back as the string. |
| `Schema.KeptIndices` | excel_database.py:25 | The kept columns are exactly those whose header does not start with `Unnamed`, at strictly increasing positions. |
| `Schema.KeptColumnsExactly` | excel_database.py:25 | A column is kept if and only if it is in the sheet and its header does not start with `Unnamed`. |
| `Schema.KeptIndicesAllNamed` | excel_database.py:25 | Without `Unnamed` headers, every column is kept, in order. |
| `Schema.KeptColumns` | excel_database.py:25 | `df_filtered`'s columns: the sheet's columns at the positions `Schema.KeptIndices` gives, in order. |
| `Schema.SqlType` | excel_database.py:40-45 | The map is total: `object`→`TEXT`, `int64`→`INTEGER`, `float64`→`REAL`, any other dtype name unchanged. |
| `Schema.ColumnDefinitionSplits` | excel_database.py:37-48 | A column definition splits at its first space into the sanitised name and the mapped type, so the name is one token. |
| `Schema.BuildColumnDefinitions` | excel_database.py:34-48 | The loop yields one definition per column, in column order, each `sanitised name + " " + mapped type`. |
| `Schema.ColumnDefinition` | excel_database.py:48 | One entry of `column_definitions`: the sanitised column name, a space, and the mapped SQL type. |
| `SqlText.CreateTableSql` | excel_database.py:53 | `CREATE TABLE <table> (<definitions joined by ", ">);`. |
| `SqlText.CreateTableFrame` | excel_database.py:53 | The statement opens with `CREATE TABLE <table> (` and closes with `);` right after the joined column definitions. |
| `SqlText.CreateTableDefinitionAt` | excel_database.py:53 | Each column definition sits at its place in the joined list after the opening, and the last one ends where `);` begins. |
| `SqlText.CreateTableSeparator` | excel_database.py:53 | Exactly `, ` lies between each column definition and the next. |
| `SqlText.WhereCondition` | excel_database.py:98 | The sync condition: one `"col" = '<escaped value>'` test per column (`SqlText.Clause`), joined by ` AND `. |
| `SqlText.WhereConditionClauses` | excel_database.py:98 | The condition holds the column tests in column order, each at its offset, and ends with the last test. |
| `SqlText.WhereConditionSeparator` | excel_database.py:98 | Exactly ` AND ` lies between each column test and the next. |
| `SqlText.SelectSql` | excel_database.py:101 | `SELECT 1 FROM <table> WHERE <condition>;`. |
| `SqlText.TextClauseLiteral` | excel_database.py:98 | A text cell is compared through a well-formed literal that SQL reads back as exactly the cell's text. |
| `SqlText.Placeholders` | excel_database.py:110 | One `?` per value of the row, joined by `, `. |
| `SqlText.ColumnList` | excel_database.py:112 | The sheet's column headers, each between double quotes, joined by `, `. |
| `SqlText.InsertSql` | excel_database.py:113 | `INSERT INTO <table> (<column list>) VALUES (<placeholders>);`. |
| `SqlText.PlaceholdersShape` | excel_database.py:110 | The placeholder list for `n` values holds exactly `n` `?` and is `3n - 2` characters long (empty for none). |
| `SqlText.InsertParameterCount` | excel_database.py:110-113 | When no table or column name holds `?`, the insert statement has exactly one `?` per value of the row. |
| `Sync.SyncRows` | excel_database.py:95-115 | Syncing only appends: the old table is a prefix, and at most one row is added per source row. |
| `Sync.SyncRowsContents` | excel_database.py:95-115 | A row is in the synced table if and only if it was in the table or is a source row. |
| `Sync.SyncRowsCovers` | excel_database.py:95-115 | Afterwards every source row is in the table. |
| `Sync.SyncRowsAppendsAbsent` | excel_database.py:100-115 | Each appended row was absent at that moment, counting rows appended earlier in the run, and is a source row. |
| `Sync.SyncRowsKeepsNoDuplicates` | excel_database.py:100-115 | Syncing never introduces a duplicate into a table without duplicates. |
| `Sync.SyncRowsPresent` | excel_database.py:100-105 | Rows that are all present already leave the table unchanged. |
| `Sync.SyncRowsIdempotent` | excel_database.py:95-115 | Syncing the same rows a second time leaves the table unchanged. |
| `Workbook.BuildSheet` | excel_database.py:20-67 | One iteration of the build loop: a sheet that is empty after filtering changes nothing; any other sheet's sanitised name now maps to its filtered rows. |
| `Workbook.BuildAll` | excel_database.py:20-69 | The build loop over the sheets, in workbook order. |
| `Workbook.NonEmptySheetsExactly` | excel_database.py:20-30 | The listed positions are exactly the sheets that are non-empty after filtering, in strictly increasing order. |
| `Workbook.BuildKeys` | excel_database.py:19-69 | The build pass writes one table per sheet that is non-empty after filtering, under its sanitised name, and leaves every other table unchanged. |
| `Workbook.CreatedNamesExactly` | excel_database.py:20-30 | A name is written by the build pass if and only if it is the sanitised name of a sheet that is non-empty after filtering. |
| `Workbook.BuildTable` | excel_database.py:63-67 | Unless a later sheet shares its name, a non-empty sheet's table holds its filtered rows, one per sheet row. |
| `Workbook.CreateStatementsAt` | excel_database.py:20-59 | The build pass issues one `CREATE TABLE` per sheet that is non-empty after filtering and no other, in workbook order: the k-th statement is that of the k-th such sheet. |
| `Workbook.CreateStatementsComplete` | excel_database.py:28-59 | Every sheet that is non-empty after filtering has its `CREATE TABLE` among the statements issued. |
| `Workbook.CreateStatementColumn` | excel_database.py:34-53 | The k-th kept column's definition sits in the sheet's `CREATE TABLE` at its place in the list after `CREATE TABLE <table> (`. |
| `Workbook.BuildNamesClean` | excel_database.py:22 | Every table name the build pass writes is free of space, `:` and `;`. |
| `Workbook.NonEmptyHasDefinitions` | excel_database.py:50-61 | A sheet that passes the emptiness check keeps at least one column, so the "no valid columns" branch is never taken. |
| `Workbook.SyncSheet` | excel_database.py:84-115 | One iteration of the sync loop: the sheet is looked up under its space-sanitised name; if a table has that name, its rows become `Sync.SyncRows` of the old rows and the sheet's rows; otherwise nothing changes. |
| `Workbook.SyncAll` | excel_database.py:84-115 | The sync loop over the sheets, in workbook order. |
| `Workbook.SyncAllFrame` | excel_database.py:84-115 | The sync pass creates and drops no table, and every old table is a prefix of its new contents. |
| `Workbook.SyncSheetAbsent` | excel_database.py:88-93 | A sheet whose table is absent leaves the database untouched. |
| `Workbook.SyncSkipsColonNames` | excel_database.py:84-93 | With build-pass table names, a sheet whose name holds `:` or `;` finds no table and its rows are never synced. |
| `Workbook.SyncAllCovers` | excel_database.py:84-115 | After the sync pass, every sheet whose table exists has all its rows in that table. |
| `Workbook.SyncAllIdempotent` | excel_database.py:84-115 | Running the sync pass twice on the same workbook equals running it once. |
| `Workbook.ExistenceChecksAt` | excel_database.py:96-101 | The existence check issued for the k-th row is the `SELECT` whose condition tests that row's values. |
| `Workbook.InsertsAt` | excel_database.py:106-115 | The k-th insert carries the insert text of the sheet's columns and the k-th appended row as its parameters. |
| `Workbook.FirstRunCovered` | excel_database.py:151-164 | On a first run with no `Unnamed` columns and distinct sanitised sheet names, every table the sync pass finds already holds all rows of its sheet. |
| `Workbook.FirstRunSyncAddsNothing` | excel_database.py:151-164 | On a first run with no `Unnamed` columns and distinct sanitised sheet names, the sync after the build adds no row. |
| `Workbook.Database.constructor` | excel_database.py:9-11 | A database file that did not exist starts with no tables. |
| `Workbook.Database.CreateFromWorkbook` | excel_database.py:19-69 | The build loop leaves the database equal to the build pass over the sheets in order, and the statements it issues are `Workbook.CreateStatements`, one `CREATE TABLE` per non-empty sheet in order (`Workbook.CreateStatementsAt`). |
| `Workbook.BuildStep` | excel_database.py:20-67 | One iteration of the build loop yields `Workbook.BuildSheet` of the database and issues the sheet's `CREATE TABLE` exactly when the sheet is non-empty after filtering. |
| `Workbook.SyncTable` | excel_database.py:95-115 | The row loop yields `SyncRows` of the old table. It issues one `SELECT` per row with that row's condition, and one `INSERT` with the row as parameters per appended row, in order. |
| `Workbook.Database.InsertRows` | excel_database.py:93-115 | Syncing a sheet into an existing table replaces only that table, by its synced rows, and reports the statements of the row loop. |
| `Workbook.Database.SyncFromWorkbook` | excel_database.py:84-115 | The sheet loop leaves the database equal to the sync pass over the sheets in order. |
| `Workbook.Database.Startup` | excel_database.py:151-164 | The build pass runs only when the database file is absent, and the sync pass always follows. |
| `Console.IsQuit` | excel_database.py:172 | `query.upper() == "Q"`, with `Console.Upper` mapping each character. |
| `Console.IsQuitExactly` | excel_database.py:172 | A line ends the session if and only if it is `Q` or `q`. |
| `Console.Session` | excel_database.py:170-175 | The lines before the first quit line are run as queries, in order; the loop stops at that line or when the input runs out. |

## Left out

- Reading the spreadsheet (`pd.read_excel`, lines 14 and 81) and pandas'
  dtype inference are foreign code. The workbook is a parameter. Its sheets
  are assumed rectangular, and their column dtypes arrive as names.
- Duplicate headers are not modelled. `dtypes.to_dict()` (line 33) would
  merge them, but pandas already renames duplicates on reading. Headers
  that are not strings are not modelled either.
- SQLite's own behaviour is not modelled:
  - type affinity;
  - NULL and NaN comparison (a NULL-bearing row never matches and is
    inserted again);
  - the error `CREATE TABLE` raises on a name already taken or not a valid
    identifier;
  - the error the sync query raises on an `Unnamed` column, which line 81
    reads again but the build pass filtered out of the table;
  - `commit` and `close`.

  The existence check is sequence membership. A row is a sequence of plain
  values. Its `SELECT` text is produced but not evaluated.
- The table-existence query of line 89 is modelled as "the name is a key of
  the database". Its text is not modelled. That query puts the table name
  inside a quoted literal, so a sheet name holding `'` makes it a syntax
  error and the script stops there. `Workbook.SyncSheet` instead skips such
  a sheet and goes on with the sheets after it.
- `to_sql(..., if_exists='replace')` (line 67) drops and recreates the table
  with pandas' own schema. It is modelled only as "the table's contents
  become the filtered rows". The schema it writes is not modelled. The
  `CREATE TABLE` texts are only recorded, not applied.
- `Workbook.Database.CreateFromWorkbook`: when two sheets share a sanitised name, the
  later sheet's rows replace the earlier ones. The script would stop at the
  second `CREATE TABLE` instead.
- `run_query` (lines 121-139) runs arbitrary user SQL and prints the result.
  That is I/O, so `Console.Session` only returns the queries it would run.
- Console I/O (`input` and `print`, lines 169-175), the progress bars
  (lines 19 and 95) and the diagnostic prints are not modelled. The file
  check of line 154 becomes the `fileExists` parameter of
  `Workbook.Database.Startup`.
- Floating-point cells are opaque. They are the text Python prints for
  them, and equal when that text is equal. That text never holds a single
  quote, which `Values.ValidCell` states for the float case of
  `Values.RenderedEscapeIsLiteral`. NaN, signed zero, timestamps and
  boolean cells are not modelled.
- `Console.Upper` maps only the ASCII letters. No other character upper-cases
  to `Q`, so `Console.IsQuitExactly` holds for full Unicode `upper()` as well.
