/**
  The per-table part of the sync step (excel_database.py:95-115), with a
  table seen as the sequence of its rows: each source row, in order, is
  appended unless an equal row is already in the table, and rows appended
  earlier in the same run count as already there.
*/
module Sync {
  import opened Values

  /** The rows of one table, in insertion order. */
  type Table = seq<Row>

  /** No row occurs twice. */
  predicate NoDuplicates(t: Table)
  {
    forall i, j :: 0 <= i < j < |t| ==> t[i] != t[j]
  }

  /**
    The table after the rows have been synced into it, one after the other.
    The old table stays in front: rows are only ever appended.
  */
  function SyncRows(table: Table, rows: seq<Row>): (r: Table)
    ensures |table| <= |r| <= |table| + |rows|
    ensures r[..|table|] == table
    decreases |rows|
  {
    if rows == [] then table
    else
      var before := SyncRows(table, rows[..|rows| - 1]);
      var row := rows[|rows| - 1];
      if row in before then before else before + [row]
  }

  /** Syncing one more source row appends it exactly when it is absent. */
  lemma SyncRowsStep(table: Table, rows: seq<Row>, i: nat)
    requires i < |rows|
    ensures SyncRows(table, rows[..i + 1]) ==
            if rows[i] in SyncRows(table, rows[..i]) then SyncRows(table, rows[..i])
            else SyncRows(table, rows[..i]) + [rows[i]]
  {
    assert rows[..i + 1][..i] == rows[..i];
  }

  /** The synced table holds the old rows and the source rows, and nothing else. */
  lemma {:induction false} SyncRowsContents(table: Table, rows: seq<Row>, x: Row)
    ensures x in SyncRows(table, rows) <==> x in table || x in rows
    decreases |rows|
  {
    if rows != [] {
      var n := |rows| - 1;
      SyncRowsContents(table, rows[..n], x);
      assert rows == rows[..n] + [rows[n]];
    }
  }

  /** Afterwards every source row is in the table. */
  lemma SyncRowsCovers(table: Table, rows: seq<Row>)
    ensures forall k :: 0 <= k < |rows| ==> rows[k] in SyncRows(table, rows)
  {
    forall k | 0 <= k < |rows|
      ensures rows[k] in SyncRows(table, rows)
    {
      SyncRowsContents(table, rows, rows[k]);
    }
  }

  /**
    A row is appended only when no equal row was in the table at that
    moment, rows appended earlier in the run included, and every appended
    row is a source row.
  */
  lemma {:induction false} SyncRowsAppendsAbsent(table: Table, rows: seq<Row>)
    ensures forall k :: |table| <= k < |SyncRows(table, rows)| ==>
              SyncRows(table, rows)[k] !in SyncRows(table, rows)[..k]
    ensures forall k :: |table| <= k < |SyncRows(table, rows)| ==> SyncRows(table, rows)[k] in rows
    decreases |rows|
  {
    if rows != [] {
      var n := |rows| - 1;
      var before := SyncRows(table, rows[..n]);
      SyncRowsAppendsAbsent(table, rows[..n]);
      var r := SyncRows(table, rows);
      forall k | |table| <= k < |r|
        ensures r[k] !in r[..k] && r[k] in rows
      {
        assert rows == rows[..n] + [rows[n]];
        if k < |before| {
          assert r[..k] == before[..k];
          assert r[k] == before[k];
          assert before[k] in rows[..n];
        } else {
          assert r[..k] == before;
        }
      }
    }
  }

  /** Syncing never introduces a duplicate into a table that has none. */
  lemma SyncRowsKeepsNoDuplicates(table: Table, rows: seq<Row>)
    requires NoDuplicates(table)
    ensures NoDuplicates(SyncRows(table, rows))
  {
    var r := SyncRows(table, rows);
    SyncRowsAppendsAbsent(table, rows);
    forall i, j | 0 <= i < j < |r|
      ensures r[i] != r[j]
    {
      if j >= |table| {
        assert r[i] in r[..j];
      } else {
        assert r[i] == table[i] && r[j] == table[j];
      }
    }
  }

  /** Rows that are all present already leave the table unchanged. */
  lemma {:induction false} SyncRowsPresent(table: Table, rows: seq<Row>)
    requires forall k :: 0 <= k < |rows| ==> rows[k] in table
    ensures SyncRows(table, rows) == table
    decreases |rows|
  {
    if rows != [] {
      SyncRowsPresent(table, rows[..|rows| - 1]);
    }
  }

  /** Running the sync a second time on the same rows changes nothing. */
  lemma SyncRowsIdempotent(table: Table, rows: seq<Row>)
    ensures SyncRows(SyncRows(table, rows), rows) == SyncRows(table, rows)
  {
    SyncRowsCovers(table, rows);
    SyncRowsPresent(SyncRows(table, rows), rows);
  }

  /** Whatever was in the table before is still in it afterwards. */
  lemma SyncRowsKeeps(table: Table, rows: seq<Row>, x: Row)
    requires x in table
    ensures x in SyncRows(table, rows)
  {
    SyncRowsContents(table, rows, x);
  }
}
