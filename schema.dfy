/**
  Schema inference for one sheet (excel_database.py:25, 33-48): drop the
  columns pandas named `Unnamed…`, map each remaining dtype name to a SQL
  type, and write one `"<name> <type>"` column definition per column.
*/
module Schema {
  import opened Text
  import opened Identifiers

  /** A spreadsheet column as pandas reports it: its header and its dtype name. */
  datatype Column = Column(name: string, dtype: string)

  /**
    The `Unnamed` filter's test, `str.contains("^Unnamed")`: the regular
    expression is anchored, so it asks whether the header starts with
    `Unnamed` (pandas gives header-less columns names `Unnamed: <k>`).
  */
  predicate IsUnnamed(c: Column)
  {
    StartsWith(c.name, "Unnamed")
  }

  /**
    The positions of the columns the filter keeps: exactly the named ones,
    in increasing order.
  */
  function KeptIndices(columns: seq<Column>): (idx: seq<nat>)
    ensures forall k :: 0 <= k < |idx| ==> idx[k] < |columns| && !IsUnnamed(columns[idx[k]])
    ensures forall k, l :: 0 <= k < l < |idx| ==> idx[k] < idx[l]
    ensures forall i :: 0 <= i < |columns| && !IsUnnamed(columns[i]) ==> i in idx
  {
    if columns == [] then []
    else
      var n := |columns| - 1;
      KeptIndices(columns[..n]) + (if IsUnnamed(columns[n]) then [] else [n])
  }

  /** The entries of `s` at the positions `idx`, in that order (`df.loc[:, mask]`). */
  function Project<T>(s: seq<T>, idx: seq<nat>): (r: seq<T>)
    requires forall k :: 0 <= k < |idx| ==> idx[k] < |s|
    ensures |r| == |idx|
    ensures forall k :: 0 <= k < |idx| ==> r[k] == s[idx[k]]
  {
    seq(|idx|, k requires 0 <= k < |idx| => s[idx[k]])
  }

  /** The columns of `df_filtered` (excel_database.py:25). */
  function KeptColumns(columns: seq<Column>): seq<Column>
  {
    Project(columns, KeptIndices(columns))
  }

  /**
    The filter keeps a column exactly when its header does not start with
    `Unnamed`.
  */
  lemma KeptColumnsExactly(columns: seq<Column>, c: Column)
    ensures c in KeptColumns(columns) <==> c in columns && !IsUnnamed(c)
  {
    var idx := KeptIndices(columns);
    if c in columns && !IsUnnamed(c) {
      var i :| 0 <= i < |columns| && columns[i] == c;
      var k :| 0 <= k < |idx| && idx[k] == i;
      assert KeptColumns(columns)[k] == c;
    }
  }

  /** The indices `0, 1, …, n - 1`. */
  function Range(n: nat): (r: seq<nat>)
    ensures |r| == n
    ensures forall k :: 0 <= k < n ==> r[k] == k
  {
    seq(n, k => k)
  }

  /** Without `Unnamed` headers the filter keeps every column. */
  lemma {:induction false} KeptIndicesAllNamed(columns: seq<Column>)
    requires forall i :: 0 <= i < |columns| ==> !IsUnnamed(columns[i])
    ensures KeptIndices(columns) == Range(|columns|)
  {
    if columns != [] {
      var n := |columns| - 1;
      KeptIndicesAllNamed(columns[..n]);
      assert Range(n) + [n] == Range(n + 1);
    }
  }

  /** Keeping every position leaves a sequence as it is. */
  lemma ProjectRange<T>(s: seq<T>)
    ensures Project(s, Range(|s|)) == s
  {
  }

  /** The dtype names the script maps. */
  const PandasTypes: set<string> := {"object", "int64", "float64"}

  /** The SQL types it maps them to. */
  const SqlTypes: set<string> := {"TEXT", "INTEGER", "REAL"}

  /**
    The dtype map of excel_database.py:40-45: `object` is `TEXT`, `int64`
    is `INTEGER`, `float64` is `REAL`; any other dtype name (`bool`,
    `datetime64[ns]`, …) passes through as the column type.
  */
  function SqlType(dtype: string): (t: string)
    ensures dtype == "object" ==> t == "TEXT"
    ensures dtype == "int64" ==> t == "INTEGER"
    ensures dtype == "float64" ==> t == "REAL"
    ensures dtype in PandasTypes ==> t in SqlTypes
    ensures dtype !in PandasTypes ==> t == dtype
  {
    if dtype == "object" then "TEXT"
    else if dtype == "int64" then "INTEGER"
    else if dtype == "float64" then "REAL"
    else dtype
  }

  /** One entry of `column_definitions` (excel_database.py:48). */
  function ColumnDefinition(c: Column): string
  {
    Sanitize(c.name) + " " + SqlType(c.dtype)
  }

  /**
    Splits a text at its first space into what comes before and what comes
    after; a text without a space is all name.
  */
  function SplitAtSpace(s: string): (string, string)
  {
    if s == [] then ([], [])
    else if s[0] == ' ' then ([], s[1..])
    else
      var (name, rest) := SplitAtSpace(s[1..]);
      ([s[0]] + name, rest)
  }

  lemma {:induction false} SplitAtSpaceOf(name: string, rest: string)
    requires ' ' !in name
    ensures SplitAtSpace(name + " " + rest) == (name, rest)
  {
    if name == [] {
      assert name + " " + rest == [' '] + rest;
    } else {
      assert name[0] in name;
      assert ' ' !in name[1..] by {
        assert forall k :: 0 <= k < |name[1..]| ==> name[1..][k] == name[k + 1];
      }
      SplitAtSpaceOf(name[1..], rest);
      assert (name + " " + rest)[1..] == name[1..] + " " + rest;
      assert name == [name[0]] + name[1..];
    }
  }

  /**
    A column definition reads back, at its first space, as the sanitised
    name and the mapped type: sanitising leaves no space in the name, so the
    name is one token.
  */
  lemma ColumnDefinitionSplits(c: Column)
    ensures SplitAtSpace(ColumnDefinition(c)) == (Sanitize(c.name), SqlType(c.dtype))
  {
    SanitizeIsClean(c.name);
    assert ' ' !in Sanitize(c.name);
    SplitAtSpaceOf(Sanitize(c.name), SqlType(c.dtype));
  }

  /**
    The loop of excel_database.py:34-48: one definition per column, in
    column order, each the sanitised name, a space and the mapped type.
  */
  method BuildColumnDefinitions(columns: seq<Column>) returns (definitions: seq<string>)
    ensures |definitions| == |columns|
    ensures forall i :: 0 <= i < |columns| ==> definitions[i] == ColumnDefinition(columns[i])
  {
    definitions := [];
    for i := 0 to |columns|
      invariant |definitions| == i
      invariant forall j :: 0 <= j < i ==> definitions[j] == ColumnDefinition(columns[j])
    {
      var sanitized := Sanitize(columns[i].name);
      var colType := columns[i].dtype;
      if colType == "object" {
        colType := "TEXT";
      } else if colType == "int64" {
        colType := "INTEGER";
      } else if colType == "float64" {
        colType := "REAL";
      }
      definitions := definitions + [sanitized + " " + colType];
    }
  }
}
