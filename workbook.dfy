/**
  The two passes over a workbook: the build pass of
  `create_database_from_excel` (excel_database.py:6-73), which gives every
  non-empty sheet a table holding its filtered rows, and the sync pass of
  `insert_data_from_excel` (excel_database.py:75-119), which appends each
  sheet's absent rows to the table it finds under the sheet's name. The
  database is a map from table name to the table's rows.
*/
module Workbook {
  import opened Identifiers
  import opened Values
  import opened Schema
  import opened SqlText
  import opened Sync
  import opened Text

  /** A sheet as `pd.read_excel` hands it over: its name, its columns and its rows. */
  datatype Sheet = Sheet(name: string, columns: seq<Column>, rows: seq<Row>)

  /** A statement sent to the database with its positional parameters. */
  datatype Statement = Statement(sql: string, parameters: Row)

  /** Every row of a data frame has one cell per column. */
  predicate Rectangular(s: Sheet)
  {
    forall i :: 0 <= i < |s.rows| ==> |s.rows[i]| == |s.columns|
  }

  predicate WellFormed(workbook: seq<Sheet>)
  {
    forall i :: 0 <= i < |workbook| ==> Rectangular(workbook[i])
  }

  /** `df_filtered.empty`: no column survives the filter, or there is no row. */
  predicate FilteredEmpty(s: Sheet)
  {
    |KeptIndices(s.columns)| == 0 || |s.rows| == 0
  }

  /** The rows of `df_filtered`: every row keeps the cells of the kept columns. */
  function FilteredRows(s: Sheet): (r: Table)
    requires Rectangular(s)
    ensures |r| == |s.rows|
  {
    var idx := KeptIndices(s.columns);
    seq(|s.rows|, i requires 0 <= i < |s.rows| => Project(s.rows[i], idx))
  }

  /** `df.columns`. */
  function ColumnNames(columns: seq<Column>): (names: seq<string>)
    ensures |names| == |columns|
  {
    seq(|columns|, i requires 0 <= i < |columns| => columns[i].name)
  }

  /** The `CREATE TABLE` statement the build pass issues for a non-empty sheet. */
  function CreateStatement(s: Sheet): string
  {
    var kept := KeptColumns(s.columns);
    CreateTableSql(Sanitize(s.name), seq(|kept|, i requires 0 <= i < |kept| => ColumnDefinition(kept[i])))
  }

  /** One iteration of the build pass: `to_sql(..., if_exists='replace')` for a non-empty sheet. */
  function BuildSheet(tables: map<string, Table>, s: Sheet): map<string, Table>
    requires Rectangular(s)
  {
    if FilteredEmpty(s) then tables else tables[Sanitize(s.name) := FilteredRows(s)]
  }

  /** The database after the build pass over the sheets, in workbook order. */
  function BuildAll(tables: map<string, Table>, workbook: seq<Sheet>): map<string, Table>
    requires WellFormed(workbook)
    decreases |workbook|
  {
    if workbook == [] then tables
    else BuildSheet(BuildAll(tables, workbook[..|workbook| - 1]), workbook[|workbook| - 1])
  }

  /** The `CREATE TABLE` statements of the build pass, in workbook order. */
  function CreateStatements(workbook: seq<Sheet>): seq<string>
    decreases |workbook|
  {
    if workbook == [] then []
    else
      var last := workbook[|workbook| - 1];
      CreateStatements(workbook[..|workbook| - 1]) + (if FilteredEmpty(last) then [] else [CreateStatement(last)])
  }

  /** The names of the tables the build pass writes. */
  function CreatedNames(workbook: seq<Sheet>): set<string>
    decreases |workbook|
  {
    if workbook == [] then {}
    else
      var last := workbook[|workbook| - 1];
      CreatedNames(workbook[..|workbook| - 1]) + (if FilteredEmpty(last) then {} else {Sanitize(last.name)})
  }

  /** One iteration of the sync pass: a sheet whose table is absent is skipped. */
  function SyncSheet(tables: map<string, Table>, s: Sheet): map<string, Table>
  {
    var name := SanitizeSpaces(s.name);
    if name in tables then tables[name := SyncRows(tables[name], s.rows)] else tables
  }

  /** The database after the sync pass over the sheets, in workbook order. */
  function SyncAll(tables: map<string, Table>, workbook: seq<Sheet>): map<string, Table>
    decreases |workbook|
  {
    if workbook == [] then tables
    else SyncSheet(SyncAll(tables, workbook[..|workbook| - 1]), workbook[|workbook| - 1])
  }

  /** The `SELECT` existence check issued for each row, in row order. */
  function ExistenceChecks(name: string, columns: seq<string>, rows: seq<Row>): (r: seq<string>)
    requires forall k :: 0 <= k < |rows| ==> |rows[k]| == |columns|
    ensures |r| == |rows|
    decreases |rows|
  {
    if rows == [] then []
    else
      var n := |rows| - 1;
      ExistenceChecks(name, columns, rows[..n]) + [SelectSql(name, WhereCondition(columns, rows[n]))]
  }

  /** The check of row `k` is the `SELECT` on that row's values. */
  lemma {:induction false} ExistenceChecksAt(name: string, columns: seq<string>, rows: seq<Row>)
    requires forall k :: 0 <= k < |rows| ==> |rows[k]| == |columns|
    ensures forall k :: 0 <= k < |rows| ==>
              ExistenceChecks(name, columns, rows)[k] == SelectSql(name, WhereCondition(columns, rows[k]))
    decreases |rows|
  {
    if rows != [] {
      ExistenceChecksAt(name, columns, rows[..|rows| - 1]);
    }
  }

  /** One more source row adds its check at the end. */
  lemma ExistenceChecksStep(name: string, columns: seq<string>, rows: seq<Row>, i: nat)
    requires forall k :: 0 <= k < |rows| ==> |rows[k]| == |columns|
    requires i < |rows|
    ensures ExistenceChecks(name, columns, rows[..i + 1]) ==
            ExistenceChecks(name, columns, rows[..i]) + [SelectSql(name, WhereCondition(columns, rows[i]))]
  {
    assert rows[..i + 1][..i] == rows[..i];
  }

  /** The `INSERT` statements issued for the appended rows: the row is the parameter list. */
  function Inserts(name: string, columns: seq<string>, added: seq<Row>): (r: seq<Statement>)
    ensures |r| == |added|
    decreases |added|
  {
    if added == [] then []
    else
      var n := |added| - 1;
      Inserts(name, columns, added[..n]) + [Statement(InsertSql(name, columns, |columns|), added[n])]
  }

  /** The insert of appended row `k` is the one statement text, with that row as its parameters. */
  lemma {:induction false} InsertsAt(name: string, columns: seq<string>, added: seq<Row>)
    ensures forall k :: 0 <= k < |added| ==>
              Inserts(name, columns, added)[k] == Statement(InsertSql(name, columns, |columns|), added[k])
    decreases |added|
  {
    if added != [] {
      InsertsAt(name, columns, added[..|added| - 1]);
    }
  }

  /** One more appended row adds its insert at the end. */
  lemma InsertsSnoc(name: string, columns: seq<string>, added: seq<Row>, row: Row)
    ensures Inserts(name, columns, added + [row]) ==
            Inserts(name, columns, added) + [Statement(InsertSql(name, columns, |columns|), row)]
  {
    assert (added + [row])[..|added|] == added;
  }

  /** Appending a row to a table that extends `table` adds its insert at the end. */
  lemma InsertsAppend(name: string, columns: seq<string>, table: Table, synced: Table, row: Row)
    requires |table| <= |synced|
    ensures Inserts(name, columns, (synced + [row])[|table|..]) ==
            Inserts(name, columns, synced[|table|..]) + [Statement(InsertSql(name, columns, |columns|), row)]
  {
    assert (synced + [row])[|table|..] == synced[|table|..] + [row];
    InsertsSnoc(name, columns, synced[|table|..], row);
  }

  /** Every table the sync pass finds for `s` holds all of `s`'s rows. */
  predicate Covered(tables: map<string, Table>, s: Sheet)
  {
    var name := SanitizeSpaces(s.name);
    name in tables ==> forall k :: 0 <= k < |s.rows| ==> s.rows[k] in tables[name]
  }

  // ---------------------------------------------------------------------
  // The build pass

  /**
    The build pass writes exactly one table per non-empty sheet, under the
    sheet's sanitised name, and leaves every other table as it was; a sheet
    that is empty after the filter gets no table.
  */
  lemma {:induction false} BuildKeys(tables: map<string, Table>, workbook: seq<Sheet>)
    requires WellFormed(workbook)
    ensures BuildAll(tables, workbook).Keys == tables.Keys + CreatedNames(workbook)
    ensures forall k :: k in tables && k !in CreatedNames(workbook) ==> BuildAll(tables, workbook)[k] == tables[k]
    decreases |workbook|
  {
    if workbook != [] {
      var n := |workbook| - 1;
      assert WellFormed(workbook[..n]);
      BuildKeys(tables, workbook[..n]);
    }
  }

  /** Whether the build pass writes the table `k` for the sheet `s`. */
  predicate Writes(s: Sheet, k: string)
  {
    !FilteredEmpty(s) && k == Sanitize(s.name)
  }

  /** Every created name is the sanitised name of a non-empty sheet, and every such name is created. */
  lemma CreatedNamesExactly(workbook: seq<Sheet>, k: string)
    ensures k in CreatedNames(workbook) <==> exists i :: 0 <= i < |workbook| && Writes(workbook[i], k)
  {
    if k in CreatedNames(workbook) {
      CreatedNamesSound(workbook, k);
    }
    if exists i :: 0 <= i < |workbook| && Writes(workbook[i], k) {
      var i :| 0 <= i < |workbook| && Writes(workbook[i], k);
      CreatedNamesComplete(workbook, k, i);
    }
  }

  /** A created name comes from some sheet that the build pass writes. */
  lemma {:induction false} CreatedNamesSound(workbook: seq<Sheet>, k: string)
    requires k in CreatedNames(workbook)
    ensures exists i :: 0 <= i < |workbook| && Writes(workbook[i], k)
    decreases |workbook|
  {
    var n := |workbook| - 1;
    var front := workbook[..n];
    if k in CreatedNames(front) {
      CreatedNamesSound(front, k);
      var i :| 0 <= i < n && Writes(front[i], k);
      assert workbook[i] == front[i];
    } else {
      assert Writes(workbook[n], k);
    }
  }

  /** The name of every sheet the build pass writes is created. */
  lemma {:induction false} CreatedNamesComplete(workbook: seq<Sheet>, k: string, i: nat)
    requires i < |workbook| && Writes(workbook[i], k)
    ensures k in CreatedNames(workbook)
    decreases |workbook|
  {
    var n := |workbook| - 1;
    if i < n {
      assert workbook[..n][i] == workbook[i];
      CreatedNamesComplete(workbook[..n], k, i);
    }
  }

  /** The positions holding `true`, in increasing order. */
  function Marked(marks: seq<bool>): (idx: seq<nat>)
    ensures forall k :: 0 <= k < |idx| ==> idx[k] < |marks|
    decreases |marks|
  {
    if marks == [] then []
    else
      var n := |marks| - 1;
      Marked(marks[..n]) + (if marks[n] then [n] else [])
  }

  /** Every listed position is marked. */
  lemma {:induction false} MarkedSound(marks: seq<bool>)
    ensures forall k :: 0 <= k < |Marked(marks)| ==> marks[Marked(marks)[k]]
    decreases |marks|
  {
    if marks != [] {
      var n := |marks| - 1;
      MarkedSound(marks[..n]);
      var before := Marked(marks[..n]);
      forall k | 0 <= k < |before|
        ensures marks[before[k]]
      {
        assert marks[..n][before[k]];
      }
    }
  }

  /** The positions are listed in strictly increasing order. */
  lemma {:induction false} MarkedIncreasing(marks: seq<bool>)
    ensures forall k, l :: 0 <= k < l < |Marked(marks)| ==> Marked(marks)[k] < Marked(marks)[l]
    decreases |marks|
  {
    if marks != [] {
      MarkedIncreasing(marks[..|marks| - 1]);
    }
  }

  /** Every marked position is listed. */
  lemma {:induction false} MarkedComplete(marks: seq<bool>)
    ensures forall i :: 0 <= i < |marks| && marks[i] ==> i in Marked(marks)
    decreases |marks|
  {
    if marks != [] {
      var n := |marks| - 1;
      MarkedComplete(marks[..n]);
      forall i | 0 <= i < |marks| && marks[i]
        ensures i in Marked(marks)
      {
        if i < n {
          assert marks[..n][i];
        }
      }
    }
  }

  /** For each sheet, whether the build pass writes it (`not df_filtered.empty`). */
  function NonEmptyMarks(workbook: seq<Sheet>): (marks: seq<bool>)
    ensures |marks| == |workbook|
    ensures forall i :: 0 <= i < |workbook| ==> (marks[i] <==> !FilteredEmpty(workbook[i]))
  {
    seq(|workbook|, i requires 0 <= i < |workbook| => !FilteredEmpty(workbook[i]))
  }

  /** The positions of the sheets the build pass writes, in workbook order. */
  function NonEmptySheets(workbook: seq<Sheet>): (idx: seq<nat>)
    ensures forall k :: 0 <= k < |idx| ==> idx[k] < |workbook|
  {
    Marked(NonEmptyMarks(workbook))
  }

  /**
    `NonEmptySheets` lists exactly the sheets that are non-empty after
    filtering, each once, in increasing order.
  */
  lemma NonEmptySheetsExactly(workbook: seq<Sheet>)
    ensures forall k :: 0 <= k < |NonEmptySheets(workbook)| ==> !FilteredEmpty(workbook[NonEmptySheets(workbook)[k]])
    ensures forall k, l :: 0 <= k < l < |NonEmptySheets(workbook)| ==> NonEmptySheets(workbook)[k] < NonEmptySheets(workbook)[l]
    ensures forall i :: 0 <= i < |workbook| && !FilteredEmpty(workbook[i]) ==> i in NonEmptySheets(workbook)
  {
    var marks := NonEmptyMarks(workbook);
    MarkedSound(marks);
    MarkedIncreasing(marks);
    MarkedComplete(marks);
  }

  /** Adding a sheet at the end adds its position when the build pass writes it. */
  lemma NonEmptySheetsSnoc(workbook: seq<Sheet>)
    requires workbook != []
    ensures var n := |workbook| - 1;
            NonEmptySheets(workbook) == NonEmptySheets(workbook[..n]) + (if FilteredEmpty(workbook[n]) then [] else [n])
  {
    var n := |workbook| - 1;
    assert NonEmptyMarks(workbook)[..n] == NonEmptyMarks(workbook[..n]);
  }

  /**
    The build pass issues one `CREATE TABLE` per sheet that is non-empty
    after filtering, in workbook order, and no other: the k-th statement is
    that of the k-th such sheet.
  */
  lemma {:induction false} CreateStatementsAt(workbook: seq<Sheet>)
    ensures |CreateStatements(workbook)| == |NonEmptySheets(workbook)|
    ensures forall k :: 0 <= k < |NonEmptySheets(workbook)| ==>
              CreateStatements(workbook)[k] == CreateStatement(workbook[NonEmptySheets(workbook)[k]])
    decreases |workbook|
  {
    if workbook != [] {
      var n := |workbook| - 1;
      var front := workbook[..n];
      CreateStatementsAt(front);
      NonEmptySheetsSnoc(workbook);
      var before, idx := NonEmptySheets(front), NonEmptySheets(workbook);
      var cs := CreateStatements(workbook);
      if FilteredEmpty(workbook[n]) {
        assert cs == CreateStatements(front) && idx == before;
      } else {
        assert cs == CreateStatements(front) + [CreateStatement(workbook[n])];
        assert idx == before + [n];
      }
      forall k | 0 <= k < |idx|
        ensures cs[k] == CreateStatement(workbook[idx[k]])
      {
        if k < |before| {
          assert idx[k] == before[k] && front[before[k]] == workbook[before[k]];
        }
      }
    }
  }

  /** Every sheet that is non-empty after filtering gets its `CREATE TABLE`. */
  lemma CreateStatementsComplete(workbook: seq<Sheet>, i: nat)
    requires i < |workbook| && !FilteredEmpty(workbook[i])
    ensures CreateStatement(workbook[i]) in CreateStatements(workbook)
  {
    CreateStatementsAt(workbook);
    NonEmptySheetsExactly(workbook);
    var idx := NonEmptySheets(workbook);
    var k :| 0 <= k < |idx| && idx[k] == i;
    assert CreateStatements(workbook)[k] == CreateStatement(workbook[i]);
  }

  /**
    The k-th kept column's definition, `sanitised name + " " + SQL type`,
    sits in the sheet's `CREATE TABLE` text at its place in the list that
    follows `CREATE TABLE <table> (`.
  */
  lemma CreateStatementColumn(s: Sheet, k: nat)
    requires k < |KeptColumns(s.columns)|
    ensures var kept := KeptColumns(s.columns);
            var defs := seq(|kept|, i requires 0 <= i < |kept| => ColumnDefinition(kept[i]));
            var sql, head := CreateStatement(s), "CREATE TABLE " + Sanitize(s.name) + " (";
            var o := |head| + JoinOffset(", ", defs, k);
            StartsWith(sql, head) &&
            o + |ColumnDefinition(kept[k])| <= |sql| &&
            sql[o..o + |ColumnDefinition(kept[k])|] == ColumnDefinition(kept[k])
  {
    var kept := KeptColumns(s.columns);
    var defs := seq(|kept|, i requires 0 <= i < |kept| => ColumnDefinition(kept[i]));
    CreateTableFrame(Sanitize(s.name), defs);
    CreateTableDefinitionAt(Sanitize(s.name), defs, k);
  }

  /**
    The table of a non-empty sheet holds the sheet's filtered rows, as many
    as the sheet has, unless a later sheet is written under the same name.
  */
  lemma {:induction false} BuildTable(tables: map<string, Table>, workbook: seq<Sheet>, i: nat)
    requires WellFormed(workbook)
    requires i < |workbook| && !FilteredEmpty(workbook[i])
    requires forall j :: i < j < |workbook| && !FilteredEmpty(workbook[j]) ==>
               Sanitize(workbook[j].name) != Sanitize(workbook[i].name)
    ensures Sanitize(workbook[i].name) in BuildAll(tables, workbook)
    ensures BuildAll(tables, workbook)[Sanitize(workbook[i].name)] == FilteredRows(workbook[i])
    ensures |BuildAll(tables, workbook)[Sanitize(workbook[i].name)]| == |workbook[i].rows|
    decreases |workbook|
  {
    var n := |workbook| - 1;
    var front := workbook[..n];
    assert WellFormed(front);
    if i < n {
      assert front[i] == workbook[i];
      assert forall j :: i < j < |front| ==> front[j] == workbook[j];
      BuildTable(tables, front, i);
    }
  }

  /** Table names written by the build pass contain no space, `:` or `;`. */
  lemma BuildNamesClean(tables: map<string, Table>, workbook: seq<Sheet>)
    requires WellFormed(workbook)
    requires forall k :: k in tables ==> IsClean(k)
    ensures forall k :: k in BuildAll(tables, workbook) ==> IsClean(k)
  {
    BuildKeys(tables, workbook);
    forall k | k in CreatedNames(workbook)
      ensures IsClean(k)
    {
      CreatedNamesExactly(workbook, k);
      var i :| 0 <= i < |workbook| && Writes(workbook[i], k);
      SanitizeIsClean(workbook[i].name);
    }
  }

  /** A non-empty sheet keeps at least one column, so its definition list is not empty. */
  lemma NonEmptyHasDefinitions(s: Sheet)
    requires !FilteredEmpty(s)
    ensures |KeptColumns(s.columns)| > 0
  {
  }

  // ---------------------------------------------------------------------
  // The sync pass

  /**
    The sync pass creates and drops no table, and only appends to the
    tables it finds: every old table is a prefix of its new contents.
  */
  lemma {:induction false} SyncAllFrame(tables: map<string, Table>, workbook: seq<Sheet>)
    ensures SyncAll(tables, workbook).Keys == tables.Keys
    ensures forall k :: k in tables ==>
              |tables[k]| <= |SyncAll(tables, workbook)[k]| &&
              SyncAll(tables, workbook)[k][..|tables[k]|] == tables[k]
    decreases |workbook|
  {
    if workbook != [] {
      var n := |workbook| - 1;
      var before := SyncAll(tables, workbook[..n]);
      SyncAllFrame(tables, workbook[..n]);
      forall k | k in tables
        ensures |tables[k]| <= |SyncAll(tables, workbook)[k]| &&
                SyncAll(tables, workbook)[k][..|tables[k]|] == tables[k]
      {
        var after := SyncAll(tables, workbook)[k];
        assert after[..|before[k]|] == before[k];
        assert before[k][..|tables[k]|] == tables[k];
        assert after[..|tables[k]|] == after[..|before[k]|][..|tables[k]|];
      }
    }
  }

  /** A sheet whose table is absent leaves the database untouched. */
  lemma SyncSheetAbsent(tables: map<string, Table>, s: Sheet)
    requires SanitizeSpaces(s.name) !in tables
    ensures SyncSheet(tables, s) == tables
  {
  }

  /**
    When every table name is clean (as the build pass makes them), a sheet
    whose name holds `:` or `;` is looked up under a name no table has, and
    its rows are never synced.
  */
  lemma SyncSkipsColonNames(tables: map<string, Table>, s: Sheet)
    requires forall k :: k in tables ==> IsClean(k)
    requires ':' in s.name || ';' in s.name
    ensures SanitizeSpaces(s.name) !in tables
    ensures SyncSheet(tables, s) == tables
  {
    if SanitizeSpaces(s.name) in tables {
      var k := SanitizeSpaces(s.name);
      SanitizeKeepsClean(k);
      LookupNeverBuilt(s.name, k);
      assert false;
    }
  }

  /** A sheet whose rows are all in its table changes nothing. */
  lemma SyncSheetCovered(tables: map<string, Table>, s: Sheet)
    requires Covered(tables, s)
    ensures SyncSheet(tables, s) == tables
  {
    var name := SanitizeSpaces(s.name);
    if name in tables {
      SyncRowsPresent(tables[name], s.rows);
    }
  }

  /** Syncing one sheet keeps every other sheet covered. */
  lemma SyncSheetKeepsCovered(tables: map<string, Table>, s: Sheet, t: Sheet)
    requires Covered(tables, t)
    ensures Covered(SyncSheet(tables, s), t)
  {
    var name := SanitizeSpaces(t.name);
    var after := SyncSheet(tables, s);
    if name in after {
      forall k | 0 <= k < |t.rows|
        ensures t.rows[k] in after[name]
      {
        if name == SanitizeSpaces(s.name) {
          SyncRowsKeeps(tables[name], s.rows, t.rows[k]);
        }
      }
    }
  }

  /** After the sync pass every sheet whose table exists has all its rows in it. */
  lemma {:induction false} SyncAllCovers(tables: map<string, Table>, workbook: seq<Sheet>)
    ensures forall i :: 0 <= i < |workbook| ==> Covered(SyncAll(tables, workbook), workbook[i])
    decreases |workbook|
  {
    if workbook != [] {
      var n := |workbook| - 1;
      var front := workbook[..n];
      var before := SyncAll(tables, front);
      SyncAllCovers(tables, front);
      forall i | 0 <= i < |workbook|
        ensures Covered(SyncAll(tables, workbook), workbook[i])
      {
        if i < n {
          assert front[i] == workbook[i];
          SyncSheetKeepsCovered(before, workbook[n], workbook[i]);
        } else {
          var name := SanitizeSpaces(workbook[n].name);
          if name in before {
            SyncRowsCovers(before[name], workbook[n].rows);
          }
        }
      }
    }
  }

  /** A pass over sheets that each change nothing changes nothing. */
  lemma {:induction false} SyncAllUnchanged(tables: map<string, Table>, workbook: seq<Sheet>)
    requires forall i :: 0 <= i < |workbook| ==> SyncSheet(tables, workbook[i]) == tables
    ensures SyncAll(tables, workbook) == tables
    decreases |workbook|
  {
    if workbook != [] {
      var n := |workbook| - 1;
      assert forall i :: 0 <= i < n ==> workbook[..n][i] == workbook[i];
      SyncAllUnchanged(tables, workbook[..n]);
    }
  }

  /** Running the sync pass a second time on the same workbook changes nothing. */
  lemma SyncAllIdempotent(tables: map<string, Table>, workbook: seq<Sheet>)
    ensures SyncAll(SyncAll(tables, workbook), workbook) == SyncAll(tables, workbook)
  {
    var after := SyncAll(tables, workbook);
    SyncAllCovers(tables, workbook);
    forall i | 0 <= i < |workbook|
      ensures SyncSheet(after, workbook[i]) == after
    {
      SyncSheetCovered(after, workbook[i]);
    }
    SyncAllUnchanged(after, workbook);
  }

  /** Without `Unnamed` columns, the filtered rows are the sheet's rows. */
  lemma FilteredRowsAllNamed(s: Sheet)
    requires Rectangular(s)
    requires forall c :: 0 <= c < |s.columns| ==> !IsUnnamed(s.columns[c])
    ensures FilteredRows(s) == s.rows
  {
    KeptIndicesAllNamed(s.columns);
    forall i | 0 <= i < |s.rows|
      ensures FilteredRows(s)[i] == s.rows[i]
    {
      ProjectRange(s.rows[i]);
    }
  }

  /**
    On a first run, the sync pass that follows the build pass adds nothing,
    provided no sheet has an `Unnamed` column and no two sheets share a
    sanitised name.
  */
  lemma FirstRunSyncAddsNothing(workbook: seq<Sheet>)
    requires WellFormed(workbook)
    requires forall i, c :: 0 <= i < |workbook| && 0 <= c < |workbook[i].columns| ==> !IsUnnamed(workbook[i].columns[c])
    requires forall i, j :: 0 <= i < j < |workbook| ==> Sanitize(workbook[i].name) != Sanitize(workbook[j].name)
    ensures SyncAll(BuildAll(map[], workbook), workbook) == BuildAll(map[], workbook)
  {
    var built := BuildAll(map[], workbook);
    forall i | 0 <= i < |workbook|
      ensures SyncSheet(built, workbook[i]) == built
    {
      FirstRunCovered(workbook, i);
      SyncSheetCovered(built, workbook[i]);
    }
    SyncAllUnchanged(built, workbook);
  }

  /** On a first run, the built database already holds every row of every sheet it has a table for. */
  lemma FirstRunCovered(workbook: seq<Sheet>, m: nat)
    requires WellFormed(workbook)
    requires forall i, c :: 0 <= i < |workbook| && 0 <= c < |workbook[i].columns| ==> !IsUnnamed(workbook[i].columns[c])
    requires forall i, j :: 0 <= i < j < |workbook| ==> Sanitize(workbook[i].name) != Sanitize(workbook[j].name)
    requires m < |workbook|
    ensures Covered(BuildAll(map[], workbook), workbook[m])
  {
    var built := BuildAll(map[], workbook);
    var s := workbook[m];
    var name := SanitizeSpaces(s.name);
    if name in built {
      BuildKeys(map[], workbook);
      assert name in CreatedNames(workbook);
      BuildNamesClean(map[], workbook);
      CleanLookupIsBuildName(s.name);
      assert name == Sanitize(s.name);
      CreatedNamesExactly(workbook, name);
      var j :| 0 <= j < |workbook| && Writes(workbook[j], name);
      assert j == m;
      BuildTable(map[], workbook, m);
      assert built[name] == FilteredRows(s);
      FilteredRowsAllNamed(s);
    }
  }

  // ---------------------------------------------------------------------
  // The database file

  /**
    One iteration of the build loop (excel_database.py:20-69): a sheet that
    keeps a column and a row gets its `CREATE TABLE` and its table replaced
    by the filtered rows; any other sheet leaves everything as it was.
  */
  method BuildStep(tables: map<string, Table>, sheet: Sheet) returns (built: map<string, Table>, created: seq<string>)
    requires Rectangular(sheet)
    ensures built == BuildSheet(tables, sheet)
    ensures created == if FilteredEmpty(sheet) then [] else [CreateStatement(sheet)]
  {
    built, created := tables, [];
    var tableName := Sanitize(sheet.name);
    var filtered := KeptColumns(sheet.columns);
    if |filtered| != 0 && |sheet.rows| != 0 {
      var definitions := BuildColumnDefinitions(filtered);
      if |definitions| > 0 {
        assert definitions == seq(|filtered|, k requires 0 <= k < |filtered| => ColumnDefinition(filtered[k]));
        created := [CreateTableSql(tableName, definitions)];
      }
      built := tables[tableName := FilteredRows(sheet)];
    }
  }

  /**
    The row loop of excel_database.py:95-115 over the rows of table `name`:
    for each row, in order, the existence check is issued, and when no
    equal row is in the table (rows appended earlier in the loop included)
    the row is appended by a parameterised insert.
  */
  method SyncTable(name: string, columns: seq<string>, table: Table, rows: seq<Row>)
    returns (synced: Table, checks: seq<string>, inserts: seq<Statement>)
    requires forall k :: 0 <= k < |rows| ==> |rows[k]| == |columns|
    ensures synced == SyncRows(table, rows)
    ensures checks == ExistenceChecks(name, columns, rows)
    ensures inserts == Inserts(name, columns, synced[|table|..])
  {
    synced, checks, inserts := table, [], [];
    for i := 0 to |rows|
      invariant synced == SyncRows(table, rows[..i])
      invariant checks == ExistenceChecks(name, columns, rows[..i])
      invariant inserts == Inserts(name, columns, synced[|table|..])
    {
      var row := rows[i];
      SyncRowsStep(table, rows, i);
      ExistenceChecksStep(name, columns, rows, i);
      var condition := WhereCondition(columns, row);
      checks := checks + [SelectSql(name, condition)];
      var rowExists := row in synced;
      if !rowExists {
        var insertSql := InsertSql(name, columns, |row|);
        InsertsAppend(name, columns, table, synced, row);
        synced := synced + [row];
        inserts := inserts + [Statement(insertSql, row)];
      }
    }
    assert rows[..|rows|] == rows;
  }

  class Database {
    /** The tables of the database file, by name. */
    var tables: map<string, Table>

    /** A database file that did not exist yet: no tables. */
    constructor ()
      ensures tables == map[]
    {
      tables := map[];
    }

    /**
      `create_database_from_excel` (excel_database.py:19-69): for every sheet
      that is not empty after the `Unnamed` filter, issue its `CREATE TABLE`
      statement and replace the table's contents with the filtered rows.
    */
    method CreateFromWorkbook(workbook: seq<Sheet>) returns (executed: seq<string>)
      requires WellFormed(workbook)
      modifies this
      ensures tables == BuildAll(old(tables), workbook)
      ensures executed == CreateStatements(workbook)
    {
      executed := [];
      for i := 0 to |workbook|
        invariant tables == BuildAll(old(tables), workbook[..i])
        invariant executed == CreateStatements(workbook[..i])
      {
        assert workbook[..i + 1][..i] == workbook[..i];
        assert WellFormed(workbook[..i]);
        var created;
        tables, created := BuildStep(tables, workbook[i]);
        executed := executed + created;
      }
      assert workbook[..|workbook|] == workbook;
    }

    /**
      The sync of the rows of one sheet into the table `name`
      (excel_database.py:93-115): the table's rows become the synced rows.
    */
    method InsertRows(name: string, columns: seq<string>, rows: seq<Row>)
      returns (checks: seq<string>, inserts: seq<Statement>)
      requires name in tables
      requires forall k :: 0 <= k < |rows| ==> |rows[k]| == |columns|
      modifies this
      ensures tables == old(tables)[name := SyncRows(old(tables)[name], rows)]
      ensures checks == ExistenceChecks(name, columns, rows)
      ensures inserts == Inserts(name, columns, tables[name][|old(tables)[name]|..])
    {
      var synced;
      synced, checks, inserts := SyncTable(name, columns, tables[name], rows);
      tables := tables[name := synced];
    }

    /**
      `insert_data_from_excel` (excel_database.py:84-115): every sheet whose
      space-sanitised name is a table has its rows synced into that table;
      any other sheet is skipped.
    */
    method SyncFromWorkbook(workbook: seq<Sheet>)
      requires WellFormed(workbook)
      modifies this
      ensures tables == SyncAll(old(tables), workbook)
    {
      for i := 0 to |workbook|
        invariant tables == SyncAll(old(tables), workbook[..i])
      {
        var sheet := workbook[i];
        assert workbook[..i + 1][..i] == workbook[..i];
        var tableName := SanitizeSpaces(sheet.name);
        var tableExists := tableName in tables;
        if tableExists {
          var checks, inserts := InsertRows(tableName, ColumnNames(sheet.columns), sheet.rows);
        }
      }
      assert workbook[..|workbook|] == workbook;
    }

    /**
      The script's main block (excel_database.py:154-164): the build pass
      runs only when the database file does not exist yet, and the sync pass
      runs every time.
    */
    method Startup(fileExists: bool, workbook: seq<Sheet>)
      requires WellFormed(workbook)
      requires !fileExists ==> tables == map[]
      modifies this
      ensures fileExists ==> tables == SyncAll(old(tables), workbook)
      ensures !fileExists ==> tables == SyncAll(BuildAll(map[], workbook), workbook)
    {
      if !fileExists {
        var executed := CreateFromWorkbook(workbook);
      }
      SyncFromWorkbook(workbook);
    }
  }
}
