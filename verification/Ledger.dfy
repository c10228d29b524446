/**
  The model oracle's ledger: row multisets under a small fixed set of operations.
  This module holds the values, the tables and what one operation does to them;
  `LedgerMachine` adds transactions, `LedgerStore` the object updated in place.
 */
module Ledger {
  import opened Common

  /** The machine integers rows may hold. */
  type I64 = x: int | -0x8000_0000_0000_0000 <= x < 0x8000_0000_0000_0000

  datatype Value = Null | Bool(b: bool) | Int(i: I64) | Text(t: string)

  type Row = seq<Value>

  datatype ColumnDef = ColumnDef(name: string, notNull: bool)

  /** A row multiset with its columns; `key` is the unique-key column, if any. */
  datatype TableState = TableState(cols: seq<ColumnDef>, key: Option<nat>, rows: multiset<Row>)

  type Tables = map<string, TableState>

  datatype Op =
    | CreateTable(table: string, cols: seq<ColumnDef>, key: Option<nat>)
    | DropTable(table: string)
    | Truncate(table: string)
    | InsertValues(table: string, newRows: seq<Row>)
    | UpdateByKey(table: string, keyValue: Value, sets: seq<(nat, Value)>)
    | DeleteByKey(table: string, keyValue: Value)

  /** What the engine is expected to do. */
  datatype Outcome = Ok(affected: nat) | Err(sqlstate: string)

  /** Harness-side misuse, never an engine expectation. */
  datatype Misuse = KeyOutOfRange | RowArity | Unkeyed | SetOutOfRange | OutsideTx | NoSavepoint | ReplayMisuse

  const DUP_TABLE := "42P07"
  const UNDEFINED_TABLE := "42P01"
  const UNIQUE_VIOLATION := "23505"
  const NOT_NULL_VIOLATION := "23502"

  /** The tables after an operation together with the verdict. */
  datatype Applied = Applied(tables: Tables, res: Result<Outcome, Misuse>)

  predicate Succeeded(res: Result<Outcome, Misuse>) {
    res.Success? && res.value.Ok?
  }

  // ---- rows against their table -------------------------------------------

  predicate NotNullHolds(cols: seq<ColumnDef>, row: Row)
    requires |row| == |cols|
  {
    forall i :: 0 <= i < |cols| && cols[i].notNull ==> row[i] != Null
  }

  predicate RowFits(cols: seq<ColumnDef>, row: Row) {
    |row| == |cols| && NotNullHolds(cols, row)
  }

  predicate HasKey(row: Row, k: nat, v: Value) {
    k < |row| && row[k] == v
  }

  ghost predicate KeyLive(rows: multiset<Row>, k: nat, v: Value) {
    exists row :: row in rows && HasKey(row, k, v)
  }

  /** The row a key addresses; on a keyed table there is at most one candidate. */
  ghost function FindByKey(rows: multiset<Row>, k: nat, v: Value): (r: Option<Row>)
    ensures r.Some? <==> KeyLive(rows, k, v)
    ensures r.Some? ==> r.value in rows && HasKey(r.value, k, v)
  {
    if KeyLive(rows, k, v) then
      var row :| row in rows && HasKey(row, k, v);
      Some(row)
    else None
  }

  /** At most one row, counted with multiplicity, per value of column `k`. */
  ghost predicate UniqueOn(rows: multiset<Row>, k: nat) {
    && (forall row :: row in rows ==> rows[row] == 1)
    && (forall r1, r2 :: r1 in rows && r2 in rows && k < |r1| && k < |r2| && r1[k] == r2[k] ==> r1 == r2)
  }

  ghost predicate ValidTable(t: TableState) {
    && (t.key.Some? ==> t.key.value < |t.cols| && UniqueOn(t.rows, t.key.value))
    && (forall row :: row in t.rows ==> RowFits(t.cols, row))
  }

  /** Arity, NOT NULL and key uniqueness, for every table. */
  ghost predicate ValidTables(tables: Tables) {
    forall name :: name in tables ==> ValidTable(tables[name])
  }

  // ---- INSERT --------------------------------------------------------------

  /** The first complaint of the row-by-row shape check. */
  function ShapeFault(cols: seq<ColumnDef>, newRows: seq<Row>): Option<Result<Outcome, Misuse>> {
    if newRows == [] then None
    else if |newRows[0]| != |cols| then Some(Failure(RowArity))
    else if !NotNullHolds(cols, newRows[0]) then Some(Success(Err(NOT_NULL_VIOLATION)))
    else ShapeFault(cols, newRows[1..])
  }

  /** Some new key repeats an earlier new key or a live one. */
  ghost predicate KeyClash(rows: multiset<Row>, k: nat, newRows: seq<Row>) {
    exists i :: 0 <= i < |newRows| && k < |newRows[i]| &&
      (KeyLive(rows, k, newRows[i][k]) || exists j :: 0 <= j < i && HasKey(newRows[j], k, newRows[i][k]))
  }

  ghost function ApplyInsert(tables: Tables, table: string, newRows: seq<Row>): Applied {
    if table !in tables then Applied(tables, Success(Err(UNDEFINED_TABLE)))
    else
      var t := tables[table];
      var fault := ShapeFault(t.cols, newRows);
      if fault.Some? then Applied(tables, fault.value)
      else if t.key.Some? && KeyClash(t.rows, t.key.value, newRows) then
        Applied(tables, Success(Err(UNIQUE_VIOLATION)))
      else
        Applied(tables[table := t.(rows := t.rows + multiset(newRows))], Success(Ok(|newRows|)))
  }

  // ---- UPDATE / DELETE -----------------------------------------------------

  /** Assign the columns in order, stopping at the first complaint. */
  function ApplySets(cols: seq<ColumnDef>, row: Row, sets: seq<(nat, Value)>): (r: Result<Row, Result<Outcome, Misuse>>)
    ensures r.Success? ==> |r.value| == |row|
    ensures r.Success? && RowFits(cols, row) ==> RowFits(cols, r.value)
    ensures r.Failure? ==> r.error == Failure(SetOutOfRange) || r.error == Success(Err(NOT_NULL_VIOLATION))
    decreases |sets|
  {
    if sets == [] then Success(row)
    else
      var (i, v) := sets[0];
      if i >= |row| then Failure(Failure(SetOutOfRange))
      else if i < |cols| && cols[i].notNull && v == Null then Failure(Success(Err(NOT_NULL_VIOLATION)))
      else ApplySets(cols, row[i := v], sets[1..])
  }

  ghost function ApplyUpdate(tables: Tables, table: string, keyValue: Value, sets: seq<(nat, Value)>): Applied {
    if table !in tables then Applied(tables, Success(Err(UNDEFINED_TABLE)))
    else
      var t := tables[table];
      if t.key.None? then Applied(tables, Failure(Unkeyed))
      else
        var k := t.key.value;
        var found := FindByKey(t.rows, k, keyValue);
        if found.None? then Applied(tables, Success(Ok(0)))
        else
          var set' := ApplySets(t.cols, found.value, sets);
          if set'.Failure? then Applied(tables, set'.error)
          else if set'.value[k] != keyValue && KeyLive(t.rows, k, set'.value[k]) then
            Applied(tables, Success(Err(UNIQUE_VIOLATION)))
          else
            var rows' := t.rows - multiset{found.value} + multiset{set'.value};
            Applied(tables[table := t.(rows := rows')], Success(Ok(1)))
  }

  ghost function ApplyDelete(tables: Tables, table: string, keyValue: Value): Applied {
    if table !in tables then Applied(tables, Success(Err(UNDEFINED_TABLE)))
    else
      var t := tables[table];
      if t.key.None? then Applied(tables, Failure(Unkeyed))
      else
        var found := FindByKey(t.rows, t.key.value, keyValue);
        if found.None? then Applied(tables, Success(Ok(0)))
        else Applied(tables[table := t.(rows := t.rows - multiset{found.value})], Success(Ok(1)))
  }

  /** One operation. */
  ghost function ApplyOp(tables: Tables, op: Op): Applied {
    match op
    case CreateTable(table, cols, key) =>
      if table in tables then Applied(tables, Success(Err(DUP_TABLE)))
      else if key.Some? && key.value >= |cols| then Applied(tables, Failure(KeyOutOfRange))
      else Applied(tables[table := TableState(cols, key, multiset{})], Success(Ok(0)))
    case DropTable(table) =>
      if table !in tables then Applied(tables, Success(Err(UNDEFINED_TABLE)))
      else Applied(tables - {table}, Success(Ok(0)))
    case Truncate(table) =>
      if table !in tables then Applied(tables, Success(Err(UNDEFINED_TABLE)))
      else Applied(tables[table := tables[table].(rows := multiset{})], Success(Ok(0)))
    case InsertValues(table, newRows) => ApplyInsert(tables, table, newRows)
    case UpdateByKey(table, keyValue, sets) => ApplyUpdate(tables, table, keyValue, sets)
    case DeleteByKey(table, keyValue) => ApplyDelete(tables, table, keyValue)
  }

  // ---- statement-level laws --------------------------------------------------

  /** Statement-level rollback: anything but success leaves every table alone. */
  lemma FailureChangesNothing(tables: Tables, op: Op)
    ensures !Succeeded(ApplyOp(tables, op).res) ==> ApplyOp(tables, op).tables == tables
  {
  }

  lemma ShapeFaultNone(cols: seq<ColumnDef>, newRows: seq<Row>)
    ensures ShapeFault(cols, newRows).None? <==> forall i :: 0 <= i < |newRows| ==> RowFits(cols, newRows[i])
    ensures ShapeFault(cols, newRows).Some? ==> !Succeeded(ShapeFault(cols, newRows).value)
  {
    if newRows != [] {
      ShapeFaultNone(cols, newRows[1..]);
      assert forall i :: 0 <= i < |newRows[1..]| ==> newRows[1..][i] == newRows[i + 1];
      assert forall i :: 0 < i < |newRows| ==> newRows[i] == newRows[1..][i - 1];
    }
  }

  /** The whole family of conditions under which a row list may enter a table. */
  ghost predicate Insertable(t: TableState, newRows: seq<Row>) {
    && (forall i :: 0 <= i < |newRows| ==> RowFits(t.cols, newRows[i]))
    && (t.key.Some? ==>
          && (forall i :: 0 <= i < |newRows| ==> !(t.key.value < |newRows[i]| && KeyLive(t.rows, t.key.value, newRows[i][t.key.value])))
          && (forall i, j :: 0 <= j < i < |newRows| && t.key.value < |newRows[i]| ==> !HasKey(newRows[j], t.key.value, newRows[i][t.key.value])))
  }

  /** INSERT is all or nothing: it succeeds exactly on insertable row lists, and then adds exactly them. */
  lemma InsertAllOrNothing(tables: Tables, table: string, newRows: seq<Row>)
    ensures
      var a := ApplyOp(tables, InsertValues(table, newRows));
      && (Succeeded(a.res) <==> table in tables && Insertable(tables[table], newRows))
      && (Succeeded(a.res) ==>
            && a.res.value.affected == |newRows|
            && a.tables == tables[table := tables[table].(rows := tables[table].rows + multiset(newRows))])
  {
    if table in tables {
      ShapeFaultNone(tables[table].cols, newRows);
    }
  }

  // ---- the table invariant survives every operation --------------------------

  lemma MultisetOfSeq(newRows: seq<Row>, row: Row)
    ensures row in multiset(newRows) <==> exists i :: 0 <= i < |newRows| && newRows[i] == row
  {
    assert row in multiset(newRows) <==> row in newRows;
  }

  lemma DistinctCountsOne(s: seq<Row>, row: Row)
    requires forall i, j :: 0 <= j < i < |s| ==> s[i] != s[j]
    requires row in s
    ensures multiset(s)[row] == 1
  {
    var n := |s| - 1;
    assert s == s[..n] + [s[n]];
    assert multiset(s) == multiset(s[..n]) + multiset{s[n]};
    if row in s[..n] {
      DistinctCountsOne(s[..n], row);
      assert row != s[n];
    } else {
      assert multiset(s[..n])[row] == 0;
    }
  }

  lemma InsertKeepsTable(t: TableState, newRows: seq<Row>)
    requires ValidTable(t)
    requires Insertable(t, newRows)
    ensures ValidTable(t.(rows := t.rows + multiset(newRows)))
  {
    var rows' := t.rows + multiset(newRows);
    forall row | row in rows'
      ensures RowFits(t.cols, row)
    {
      if row !in t.rows { MultisetOfSeq(newRows, row); }
    }
    if t.key.Some? {
      var k := t.key.value;
      assert forall i, j :: 0 <= j < i < |newRows| ==> newRows[i] != newRows[j] by {
        forall i, j | 0 <= j < i < |newRows|
          ensures newRows[i] != newRows[j]
        {
          assert RowFits(t.cols, newRows[i]);
          assert !HasKey(newRows[j], k, newRows[i][k]);
        }
      }
      forall row | row in rows'
        ensures rows'[row] == 1
      {
        if row in newRows {
          DistinctCountsOne(newRows, row);
          var i :| 0 <= i < |newRows| && newRows[i] == row;
          assert RowFits(t.cols, row) && HasKey(row, k, newRows[i][k]);
          assert row !in t.rows;
        } else {
          assert multiset(newRows)[row] == 0;
        }
      }
      forall r1, r2 | r1 in rows' && r2 in rows' && k < |r1| && k < |r2| && r1[k] == r2[k]
        ensures r1 == r2
      {
        InsertedKeysApart(t, newRows, r1, r2);
      }
    }
  }

  /** Two rows of the grown table with one key are the same row. */
  lemma InsertedKeysApart(t: TableState, newRows: seq<Row>, r1: Row, r2: Row)
    requires ValidTable(t) && t.key.Some?
    requires Insertable(t, newRows)
    requires r1 in t.rows + multiset(newRows) && r2 in t.rows + multiset(newRows)
    requires t.key.value < |r1| && t.key.value < |r2| && r1[t.key.value] == r2[t.key.value]
    ensures r1 == r2
  {
    var k := t.key.value;
    MultisetOfSeq(newRows, r1);
    MultisetOfSeq(newRows, r2);
    assert HasKey(r1, k, r2[k]) && HasKey(r2, k, r1[k]);
    if r1 in t.rows && r2 in t.rows {
    } else if r1 in t.rows {
      var i :| 0 <= i < |newRows| && newRows[i] == r2;
      assert KeyLive(t.rows, k, newRows[i][k]);
    } else if r2 in t.rows {
      var i :| 0 <= i < |newRows| && newRows[i] == r1;
      assert KeyLive(t.rows, k, newRows[i][k]);
    } else {
      var i :| 0 <= i < |newRows| && newRows[i] == r1;
      var j :| 0 <= j < |newRows| && newRows[j] == r2;
      assert !(j < i) && !(i < j);
    }
  }

  lemma ReplaceKeepsTable(t: TableState, old': Row, new': Row)
    requires ValidTable(t) && t.key.Some?
    requires old' in t.rows && RowFits(t.cols, new')
    requires new'[t.key.value] == old'[t.key.value] || !KeyLive(t.rows, t.key.value, new'[t.key.value])
    ensures ValidTable(t.(rows := t.rows - multiset{old'} + multiset{new'}))
  {
    var k := t.key.value;
    var rest := t.rows - multiset{old'};
    var rows' := rest + multiset{new'};
    assert old' !in rest;
    forall row | row in rest
      ensures row in t.rows && row[k] != new'[k]
    {
      assert row in t.rows && row != old';
      assert HasKey(row, k, row[k]);
      assert row[k] != old'[k];
    }
  }

  lemma UpdateKeepsTables(tables: Tables, table: string, keyValue: Value, sets: seq<(nat, Value)>)
    requires ValidTables(tables)
    ensures ValidTables(ApplyUpdate(tables, table, keyValue, sets).tables)
  {
    var a := ApplyUpdate(tables, table, keyValue, sets);
    if a.tables != tables {
      var t := tables[table];
      assert ValidTable(t);
      var old' := FindByKey(t.rows, t.key.value, keyValue).value;
      ReplaceKeepsTable(t, old', ApplySets(t.cols, old', sets).value);
      assert ValidTable(a.tables[table]);
    }
  }

  /** Every operation keeps arity, NOT NULL and key uniqueness. */
  lemma OpKeepsTables(tables: Tables, op: Op)
    requires ValidTables(tables)
    ensures ValidTables(ApplyOp(tables, op).tables)
  {
    match op
    case CreateTable(table, cols, key) =>
    case DropTable(table) =>
    case Truncate(table) => TruncateKeepsTables(tables, table);
    case InsertValues(table, newRows) =>
      InsertAllOrNothing(tables, table, newRows);
      if table in tables && Insertable(tables[table], newRows) {
        InsertKeepsTable(tables[table], newRows);
      }
    case UpdateByKey(table, keyValue, sets) =>
      UpdateKeepsTables(tables, table, keyValue, sets);
    case DeleteByKey(table, keyValue) => DeleteKeepsTables(tables, table, keyValue);
  }

  lemma TruncateKeepsTables(tables: Tables, table: string)
    requires ValidTables(tables)
    ensures ValidTables(ApplyOp(tables, Truncate(table)).tables)
  {
    if table in tables { assert ValidTable(tables[table]); }
  }

  lemma DeleteKeepsTables(tables: Tables, table: string, keyValue: Value)
    requires ValidTables(tables)
    ensures ValidTables(ApplyOp(tables, DeleteByKey(table, keyValue)).tables)
  {
    if table in tables { assert ValidTable(tables[table]); }
  }

  // ---- what UPDATE and DELETE do, said without the search ---------------------

  /** The value a column ends with: the last assignment to it wins, otherwise it keeps its value. */
  function LastSet(sets: seq<(nat, Value)>, i: nat, was: Value): Value {
    if sets == [] then was
    else if sets[|sets| - 1].0 == i then sets[|sets| - 1].1
    else LastSet(sets[..|sets| - 1], i, was)
  }

  lemma {:induction false} LastSetUnfoldFront(sets: seq<(nat, Value)>, i: nat, was: Value)
    requires sets != []
    ensures LastSet(sets, i, was) == LastSet(sets[1..], i, if sets[0].0 == i then sets[0].1 else was)
  {
    if |sets| > 1 {
      var n := |sets| - 1;
      assert sets[1..][..n - 1] == sets[..n][1..];
      LastSetUnfoldFront(sets[..n], i, was);
    }
  }

  /** The assignment list is admissible exactly when all its entries are, and then the last one per column wins. */
  lemma {:induction false} ApplySetsMeaning(cols: seq<ColumnDef>, row: Row, sets: seq<(nat, Value)>)
    requires |row| == |cols|
    ensures
      var r := ApplySets(cols, row, sets);
      && (r.Success? <==> forall j :: 0 <= j < |sets| ==> sets[j].0 < |cols| && !(cols[sets[j].0].notNull && sets[j].1 == Null))
      && (r.Success? ==> forall i :: 0 <= i < |cols| ==> r.value[i] == LastSet(sets, i, row[i]))
    decreases |sets|
  {
    if sets != [] {
      var (i, v) := sets[0];
      if i < |row| && !(cols[i].notNull && v == Null) {
        ApplySetsMeaning(cols, row[i := v], sets[1..]);
        assert forall j :: 0 <= j < |sets[1..]| ==> sets[1..][j] == sets[j + 1];
        assert forall j :: 0 < j < |sets| ==> sets[j] == sets[1..][j - 1];
        forall c | 0 <= c < |cols|
          ensures LastSet(sets, c, row[c]) == LastSet(sets[1..], c, row[i := v][c])
        {
          LastSetUnfoldFront(sets, c, row[c]);
        }
      }
    }
  }

  /** On a valid keyed table the key picks its row without regard to search order. */
  lemma FindByKeyIsUnique(t: TableState, v: Value, row: Row)
    requires ValidTable(t) && t.key.Some?
    requires row in t.rows && HasKey(row, t.key.value, v)
    ensures FindByKey(t.rows, t.key.value, v) == Some(row)
  {
    assert KeyLive(t.rows, t.key.value, v);
  }

  /** DELETE by key removes the one row with that key and nothing else, and reports whether it did. */
  lemma DeleteMeaning(tables: Tables, table: string, v: Value)
    requires ValidTables(tables)
    requires table in tables && tables[table].key.Some?
    ensures
      var t := tables[table];
      var k := t.key.value;
      var a := ApplyOp(tables, DeleteByKey(table, v));
      && Succeeded(a.res)
      && a.tables.Keys == tables.Keys
      && a.res.value.affected == (if KeyLive(t.rows, k, v) then 1 else 0)
      && (forall row: Row :: a.tables[table].rows[row] == if HasKey(row, k, v) then 0 else t.rows[row])
      && (forall name :: name in tables && name != table ==> a.tables[name] == tables[name])
  {
    var t := tables[table];
    var k := t.key.value;
    var a := ApplyOp(tables, DeleteByKey(table, v));
    forall row: Row
      ensures a.tables[table].rows[row] == if HasKey(row, k, v) then 0 else t.rows[row]
    {
      if HasKey(row, k, v) && row in t.rows {
        FindByKeyIsUnique(t, v, row);
      }
    }
  }

  /** UPDATE by key on a live row: it succeeds exactly when the assignments are admissible and the new key is not
      another row's; then that one row is replaced by itself with the last assignment per column. */
  lemma UpdateMeaning(tables: Tables, table: string, v: Value, sets: seq<(nat, Value)>, row: Row)
    requires ValidTables(tables)
    requires table in tables && tables[table].key.Some?
    requires row in tables[table].rows && HasKey(row, tables[table].key.value, v)
    ensures
      var t := tables[table];
      var k := t.key.value;
      var row' := seq(|row|, i requires 0 <= i < |row| => LastSet(sets, i, row[i]));
      var a := ApplyOp(tables, UpdateByKey(table, v, sets));
      && (Succeeded(a.res) <==>
            && (forall j :: 0 <= j < |sets| ==> sets[j].0 < |t.cols| && !(t.cols[sets[j].0].notNull && sets[j].1 == Null))
            && (row'[k] == v || !KeyLive(t.rows, k, row'[k])))
      && (Succeeded(a.res) ==>
            && a.res.value.affected == 1
            && a.tables == tables[table := t.(rows := t.rows - multiset{row} + multiset{row'})])
  {
    var t := tables[table];
    FindByKeyIsUnique(t, v, row);
    ApplySetsMeaning(t.cols, row, sets);
    var r := ApplySets(t.cols, row, sets);
    var row' := seq(|row|, i requires 0 <= i < |row| => LastSet(sets, i, row[i]));
    if r.Success? {
      assert r.value == row';
    }
  }

  // ---- every statement's outcome, with the codes spelled out -------------------------------------------------

  /** CREATE succeeds exactly if the name is free and the key in range, and then adds one empty table of that shape. */
  lemma CreateMeaning(tables: Tables, table: string, cols: seq<ColumnDef>, key: Option<nat>)
    ensures
      var a := ApplyOp(tables, CreateTable(table, cols, key));
      && (Succeeded(a.res) <==> table !in tables && (key.Some? ==> key.value < |cols|))
      && (table in tables ==> a.res == Success(Err("42P07")))
      && (table !in tables && !Succeeded(a.res) ==> a.res == Failure(KeyOutOfRange))
      && (Succeeded(a.res) ==>
            && a.res.value.affected == 0
            && a.tables.Keys == tables.Keys + {table}
            && a.tables[table].cols == cols && a.tables[table].key == key && a.tables[table].rows == multiset{}
            && forall name :: name in tables ==> a.tables[name] == tables[name])
  {
  }

  /** DROP succeeds exactly if the table is there, and then that table is gone and no other. */
  lemma DropMeaning(tables: Tables, table: string)
    ensures
      var a := ApplyOp(tables, DropTable(table));
      && (Succeeded(a.res) <==> table in tables)
      && (table !in tables ==> a.res == Success(Err("42P01")))
      && a.tables.Keys == tables.Keys - {table}
      && (Succeeded(a.res) ==> a.res.value.affected == 0)
      && (forall name :: name in tables && name != table ==> a.tables[name] == tables[name])
  {
  }

  /** TRUNCATE succeeds exactly if the table is there, and then empties it and keeps its shape. */
  lemma TruncateMeaning(tables: Tables, table: string)
    ensures
      var a := ApplyOp(tables, Truncate(table));
      && (Succeeded(a.res) <==> table in tables)
      && (table !in tables ==> a.res == Success(Err("42P01")))
      && a.tables.Keys == tables.Keys
      && (Succeeded(a.res) ==>
            && a.res.value.affected == 0 && a.tables[table].rows == multiset{}
            && a.tables[table].cols == tables[table].cols && a.tables[table].key == tables[table].key)
      && (forall name :: name in tables && name != table ==> a.tables[name] == tables[name])
  {
  }

  /** A dropped table can be created anew, with nothing of the old one left. */
  lemma DropThenCreate(tables: Tables, table: string, cols: seq<ColumnDef>, key: Option<nat>)
    requires table in tables && (key.Some? ==> key.value < |cols|)
    ensures
      var a := ApplyOp(ApplyOp(tables, DropTable(table)).tables, CreateTable(table, cols, key));
      a.res == Success(Ok(0)) && a.tables == tables[table := TableState(cols, key, multiset{})]
  {
    var dropped := ApplyOp(tables, DropTable(table)).tables;
    DropMeaning(tables, table);
    CreateMeaning(dropped, table, cols, key);
    var a := ApplyOp(dropped, CreateTable(table, cols, key));
    assert a.tables.Keys == tables.Keys;
  }

  lemma {:induction false} ShapeFaultFirst(cols: seq<ColumnDef>, newRows: seq<Row>, i: nat)
    requires i < |newRows| && !RowFits(cols, newRows[i]) && forall j :: 0 <= j < i ==> RowFits(cols, newRows[j])
    ensures ShapeFault(cols, newRows) == Some(if |newRows[i]| != |cols| then Failure(RowArity) else Success(Err("23502")))
    decreases i
  {
    if i > 0 {
      assert RowFits(cols, newRows[0]);
      ShapeFaultFirst(cols, newRows[1..], i - 1);
    }
  }

  /** The first row that does not fit decides: a misuse if its arity is wrong, a NOT NULL violation otherwise. */
  lemma InsertFirstFault(tables: Tables, table: string, newRows: seq<Row>, i: nat)
    requires table in tables && i < |newRows|
    requires !RowFits(tables[table].cols, newRows[i]) && forall j :: 0 <= j < i ==> RowFits(tables[table].cols, newRows[j])
    ensures ApplyOp(tables, InsertValues(table, newRows)).res
         == if |newRows[i]| != |tables[table].cols| then Failure(RowArity) else Success(Err("23502"))
  {
    ShapeFaultFirst(tables[table].cols, newRows, i);
  }

  /** With all rows fitting, an INSERT is refused exactly as a unique violation, and only over a missing table as undefined. */
  lemma InsertOutcome(tables: Tables, table: string, newRows: seq<Row>)
    ensures
      var a := ApplyOp(tables, InsertValues(table, newRows));
      && (table !in tables <==> a.res == Success(Err("42P01")))
      && (table in tables && (forall i :: 0 <= i < |newRows| ==> RowFits(tables[table].cols, newRows[i])) ==>
            a.res == if Insertable(tables[table], newRows) then Success(Ok(|newRows|)) else Success(Err("23505")))
  {
    assert "42P01"[0] != "23505"[0] && "42P01"[0] != "23502"[0];
    if table in tables {
      ShapeFaultNone(tables[table].cols, newRows);
      ShapeFaultKinds(tables[table].cols, newRows);
    }
  }

  /** INSERT of one row, spelled out: arity first, then NOT NULL, then the key, else the row is added. */
  lemma OneRowInsert(tables: Tables, table: string, row: Row)
    requires table in tables
    ensures
      var t, a := tables[table], ApplyOp(tables, InsertValues(table, [row]));
      if |row| != |t.cols| then a == Applied(tables, Failure(RowArity))
      else if exists i: nat :: i < |t.cols| && t.cols[i].notNull && row[i].Null? then a == Applied(tables, Success(Err("23502")))
      else if t.key.Some? && exists r: Row :: r in t.rows && t.key.value < |row| && t.key.value < |r| && r[t.key.value] == row[t.key.value]
        then a == Applied(tables, Success(Err("23505")))
      else a == Applied(tables[table := t.(rows := t.rows + multiset{row})], Success(Ok(1)))
  {
    var t := tables[table];
    assert [row][0] == row && [row][1..] == [];
    assert ShapeFault(t.cols, []).None?;
    if |row| == |t.cols| {
      assert NotNullHolds(t.cols, row) <==> !exists i: nat :: i < |t.cols| && t.cols[i].notNull && row[i].Null?;
    }
    if t.key.Some? && t.key.value < |row| {
      assert KeyClash(t.rows, t.key.value, [row]) <==> KeyLive(t.rows, t.key.value, row[t.key.value]);
    }
    assert multiset([row]) == multiset{row};
  }

  lemma ShapeFaultKinds(cols: seq<ColumnDef>, newRows: seq<Row>)
    ensures ShapeFault(cols, newRows).Some? ==>
              ShapeFault(cols, newRows).value == Failure(RowArity) || ShapeFault(cols, newRows).value == Success(Err("23502"))
  {
  }

  lemma {:induction false} SetFaultFirst(cols: seq<ColumnDef>, row: Row, sets: seq<(nat, Value)>, i: nat)
    requires |row| == |cols| && i < |sets| && !Admissible(cols, sets[i]) && forall j :: 0 <= j < i ==> Admissible(cols, sets[j])
    ensures ApplySets(cols, row, sets)
         == Failure(if sets[i].0 >= |cols| then Failure(SetOutOfRange) else Success(Err("23502")))
    decreases i
  {
    if i > 0 {
      assert Admissible(cols, sets[0]);
      SetFaultFirst(cols, row[sets[0].0 := sets[0].1], sets[1..], i - 1);
    }
  }

  predicate Admissible(cols: seq<ColumnDef>, set': (nat, Value)) {
    set'.0 < |cols| && !(cols[set'.0].notNull && set'.1 == Null)
  }

  /** UPDATE and DELETE over a missing table, an unkeyed one, and a key that is not live. */
  lemma KeyedOutcome(tables: Tables, table: string, v: Value, sets: seq<(nat, Value)>)
    ensures
      var u, d := ApplyOp(tables, UpdateByKey(table, v, sets)), ApplyOp(tables, DeleteByKey(table, v));
      && (table !in tables ==> u.res == d.res == Success(Err("42P01")))
      && (table in tables && tables[table].key.None? ==> u.res == d.res == Failure(Unkeyed))
      && (table in tables && tables[table].key.Some? && !KeyLive(tables[table].rows, tables[table].key.value, v) ==>
            u == d == Applied(tables, Success(Ok(0))))
  {
  }

  /** UPDATE of a live row: the first inadmissible assignment decides, and after that a key some other row has. */
  lemma UpdateOutcome(tables: Tables, table: string, v: Value, sets: seq<(nat, Value)>, row: Row)
    requires ValidTables(tables)
    requires table in tables && tables[table].key.Some?
    requires row in tables[table].rows && HasKey(row, tables[table].key.value, v)
    ensures
      var cols, k := tables[table].cols, tables[table].key.value;
      var res := ApplyOp(tables, UpdateByKey(table, v, sets)).res;
      && (forall i :: 0 <= i < |sets| && !Admissible(cols, sets[i]) && (forall j :: 0 <= j < i ==> Admissible(cols, sets[j])) ==>
            res == if sets[i].0 >= |cols| then Failure(SetOutOfRange) else Success(Err("23502")))
      && ((forall j :: 0 <= j < |sets| ==> Admissible(cols, sets[j])) ==>
            var key' := LastSet(sets, k, v);
            res == if key' != v && KeyLive(tables[table].rows, k, key') then Success(Err("23505")) else Success(Ok(1)))
  {
    var t := tables[table];
    FindByKeyIsUnique(t, v, row);
    ApplySetsMeaning(t.cols, row, sets);
    forall i | 0 <= i < |sets| && !Admissible(t.cols, sets[i]) && (forall j :: 0 <= j < i ==> Admissible(t.cols, sets[j]))
      ensures ApplyOp(tables, UpdateByKey(table, v, sets)).res
           == if sets[i].0 >= |t.cols| then Failure(SetOutOfRange) else Success(Err("23502"))
    {
      SetFaultFirst(t.cols, row, sets, i);
    }
  }

  /** `affected` counts exactly the rows an INSERT adds and a DELETE removes; an UPDATE moves no cardinality. */
  lemma AffectedIsCardinalityChange(tables: Tables, op: Op)
    requires ValidTables(tables)
    requires op.InsertValues? || op.DeleteByKey? || op.UpdateByKey?
    requires Succeeded(ApplyOp(tables, op).res)
    ensures op.table in tables && op.table in ApplyOp(tables, op).tables
    ensures
      var before, after := |tables[op.table].rows|, |ApplyOp(tables, op).tables[op.table].rows|;
      var n := ApplyOp(tables, op).res.value.affected;
      match op
      case InsertValues(_, _) => after == before + n
      case DeleteByKey(_, _) => after == before - n && n <= 1
      case _ => after == before && n <= 1
  {
    match op
    case InsertValues(table, newRows) => InsertAllOrNothing(tables, table, newRows);
    case DeleteByKey(table, keyValue) =>
    case UpdateByKey(table, keyValue, sets) =>
  }
}
