/**
  The SQL text the script assembles: the `CREATE TABLE` statement of the
  build step (excel_database.py:53), and the `SELECT` existence check and
  the parameterised `INSERT` of the sync step (excel_database.py:98, 101,
  110-113).
*/
module SqlText {
  import opened Text
  import opened Values

  /** `f"CREATE TABLE {table_name} ({', '.join(column_definitions)});"`. */
  function CreateTableSql(table: string, definitions: seq<string>): string
  {
    "CREATE TABLE " + table + " (" + Join(", ", definitions) + ");"
  }

  /** A column name between double quotes, as the sync step writes it. */
  function Quoted(name: string): string
  {
    "\"" + name + "\""
  }

  /** One equality test of the sync condition: `"col" = '<escaped value>'`. */
  function Clause(column: string, v: Value): string
  {
    Quoted(column) + " = '" + Render(Escape(v)) + "'"
  }

  /** The equality tests of the sync condition, one per column, in column order. */
  function Clauses(columns: seq<string>, row: Row): (r: seq<string>)
    requires |columns| == |row|
    ensures |r| == |columns|
    ensures forall i :: 0 <= i < |columns| ==> r[i] == Clause(columns[i], row[i])
  {
    seq(|columns|, i requires 0 <= i < |columns| => Clause(columns[i], row[i]))
  }

  /** The condition of excel_database.py:98: the equality tests joined with ` AND `. */
  function WhereCondition(columns: seq<string>, row: Row): string
    requires |columns| == |row|
  {
    Join(" AND ", Clauses(columns, row))
  }

  /** The existence check of excel_database.py:101. */
  function SelectSql(table: string, condition: string): string
  {
    "SELECT 1 FROM " + table + " WHERE " + condition + ";"
  }

  /** `', '.join(['?' for _ in row])` for a row of `n` values. */
  function Placeholders(n: nat): string
  {
    Join(", ", seq(n, _ => "?"))
  }

  /** `', '.join([f'"{col}"' for col in df.columns])`. */
  function ColumnList(columns: seq<string>): string
  {
    Join(", ", seq(|columns|, i requires 0 <= i < |columns| => Quoted(columns[i])))
  }

  /** The insert statement of excel_database.py:113 for a row of `n` values. */
  function InsertSql(table: string, columns: seq<string>, n: nat): string
  {
    "INSERT INTO " + table + " (" + ColumnList(columns) + ") VALUES (" + Placeholders(n) + ");"
  }

  /**
    The `CREATE TABLE` text opens with the table name and `(`, and closes
    with `);` right after the joined column definitions.
  */
  lemma CreateTableFrame(table: string, definitions: seq<string>)
    ensures var sql, head := CreateTableSql(table, definitions), "CREATE TABLE " + table + " (";
            StartsWith(sql, head) &&
            |sql| == |head| + |Join(", ", definitions)| + 2 &&
            sql[|head| + |Join(", ", definitions)|..] == ");"
  {
    FramedEnds("CREATE TABLE " + table + " (", Join(", ", definitions), ");");
  }

  /**
    Each column definition sits in the `CREATE TABLE` text at its place in
    the joined list; the last one ends where `);` begins.
  */
  lemma CreateTableDefinitionAt(table: string, definitions: seq<string>, k: nat)
    requires k < |definitions|
    ensures var sql, head := CreateTableSql(table, definitions), "CREATE TABLE " + table + " (";
            var o := |head| + JoinOffset(", ", definitions, k);
            o + |definitions[k]| <= |sql| &&
            sql[o..o + |definitions[k]|] == definitions[k] &&
            (k + 1 == |definitions| ==> o + |definitions[k]| == |head| + |Join(", ", definitions)|)
  {
    FramedPartAt("CREATE TABLE " + table + " (", ", ", definitions, ");", k);
    JoinPartAt(", ", definitions, k);
  }

  /** In the `CREATE TABLE` text, exactly `, ` separates each column definition from the next. */
  lemma CreateTableSeparator(table: string, definitions: seq<string>, k: nat)
    requires k + 1 < |definitions|
    ensures var sql, head := CreateTableSql(table, definitions), "CREATE TABLE " + table + " (";
            var o := |head| + JoinOffset(", ", definitions, k) + |definitions[k]|;
            var next := |head| + JoinOffset(", ", definitions, k + 1);
            o <= next <= |sql| && sql[o..next] == ", "
  {
    FramedSepAt("CREATE TABLE " + table + " (", ", ", definitions, ");", k);
  }

  /**
    The sync condition is the equality tests of the columns, in column
    order: the test of column `i` sits at
    `JoinOffset(" AND ", Clauses(columns, row), i)`, and the condition ends
    with the last test.
  */
  lemma WhereConditionClauses(columns: seq<string>, row: Row, i: nat)
    requires |columns| == |row|
    requires i < |columns|
    ensures var cond, o := WhereCondition(columns, row), JoinOffset(" AND ", Clauses(columns, row), i);
            var clause := Clause(columns[i], row[i]);
            o + |clause| <= |cond| &&
            cond[o..o + |clause|] == clause &&
            (i + 1 == |columns| ==> |cond| == o + |clause|)
  {
    JoinPartAt(" AND ", Clauses(columns, row), i);
  }

  /** In the sync condition, exactly ` AND ` separates each test from the next. */
  lemma WhereConditionSeparator(columns: seq<string>, row: Row, i: nat)
    requires |columns| == |row|
    requires i + 1 < |columns|
    ensures var cond, clauses := WhereCondition(columns, row), Clauses(columns, row);
            var o := JoinOffset(" AND ", clauses, i) + |Clause(columns[i], row[i])|;
            o <= JoinOffset(" AND ", clauses, i + 1) <= |cond| &&
            cond[o..JoinOffset(" AND ", clauses, i + 1)] == " AND "
  {
    JoinPartAt(" AND ", Clauses(columns, row), i);
    JoinSepAt(" AND ", Clauses(columns, row), i);
  }

  /**
    The equality test of a text cell compares the column with a well-formed
    literal whose body SQL reads back as exactly the cell's text, whatever
    quotes the text holds.
  */
  lemma TextClauseLiteral(column: string, s: string)
    ensures var body := EscapeQuotes(s);
            Clause(column, Str(s)) == Quoted(column) + " = '" + body + "'" &&
            QuotesDoubled(body) && UnescapeQuotes(body) == s
  {
    RenderedEscapeIsLiteral(Str(s));
  }

  /** Placeholders come in pairs with `, `: `n` of them take `3n - 2` characters. */
  lemma {:induction false} PlaceholdersShape(n: nat)
    ensures Count(Placeholders(n), '?') == n
    ensures |Placeholders(n)| == if n == 0 then 0 else 3 * n - 2
  {
    if n >= 2 {
      PlaceholdersShape(n - 1);
      assert seq(n, _ => "?")[1..] == seq(n - 1, _ => "?");
      assert Placeholders(n) == "?" + ", " + Placeholders(n - 1);
      CountConcat("?", ", ", '?');
      CountConcat("?" + ", ", Placeholders(n - 1), '?');
    } else if n == 1 {
      assert Placeholders(1) == "?";
    }
  }

  /**
    When neither the table name nor a column name contains `?`, the insert
    statement has exactly one `?` parameter per value of the row.
  */
  lemma InsertParameterCount(table: string, columns: seq<string>, n: nat)
    requires '?' !in table
    requires forall k :: 0 <= k < |columns| ==> '?' !in columns[k]
    ensures Count(InsertSql(table, columns, n), '?') == n
  {
    ColumnListUnmarked(columns);
    PlaceholdersShape(n);
    var p := Placeholders(n);
    var front := "INSERT INTO " + table + " (" + ColumnList(columns) + ") VALUES (";
    assert '?' !in front;
    CountConcat(front, p, '?');
    CountConcat(front + p, ");", '?');
  }

  /** The quoted column list holds no `?` when no column name does. */
  lemma ColumnListUnmarked(columns: seq<string>)
    requires forall k :: 0 <= k < |columns| ==> '?' !in columns[k]
    ensures Count(ColumnList(columns), '?') == 0
  {
    var quoted := seq(|columns|, i requires 0 <= i < |columns| => Quoted(columns[i]));
    forall k | 0 <= k < |quoted|
      ensures Count(quoted[k], '?') == 0
    {
      CountConcat("\"" + columns[k], "\"", '?');
      CountConcat("\"", columns[k], '?');
    }
    CountJoinNone(", ", quoted, '?');
  }
}
