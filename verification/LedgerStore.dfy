/** The ledger object: tables and transaction context updated in place, each method proved against `LedgerMachine.Step`. */
module LedgerStore {
  import opened Common
  import opened Strings
  import opened Ledger
  import opened RowOrder
  import opened LedgerMachine

  /** Search the rows one by one; the order does not matter, because at most one has the key. */
  method SearchKey(t: TableState, k: nat, v: Value) returns (r: Option<Row>)
    requires ValidTable(t) && t.key == Some(k)
    ensures r == FindByKey(t.rows, k, v)
  {
    hide ValidTable, FindByKey;
    var rest := t.rows;
    while rest != multiset{}
      invariant rest <= t.rows
      invariant forall row :: row in t.rows && HasKey(row, k, v) ==> row in rest
      decreases |rest|
    {
      var row :| row in rest;
      if HasKey(row, k, v) {
        FindByKeyIsUnique(t, v, row);
        return Some(row);
      }
      rest := rest - multiset{row};
    }
    assert !KeyLive(t.rows, k, v);
    r := None;
  }

  /** Validate every row of the statement before touching the table. */
  method CheckShape(cols: seq<ColumnDef>, newRows: seq<Row>) returns (fault: Option<Result<Outcome, Misuse>>)
    ensures fault == ShapeFault(cols, newRows)
  {
    for n := 0 to |newRows|
      invariant ShapeFault(cols, newRows) == ShapeFault(cols, newRows[n..])
    {
      var row := newRows[n];
      assert newRows[n..][0] == row && newRows[n..][1..] == newRows[n + 1..];
      if |row| != |cols| {
        return Some(Failure(RowArity));
      }
      for i := 0 to |cols|
        invariant forall j :: 0 <= j < i && cols[j].notNull ==> row[j] != Null
      {
        if cols[i].notNull && row[i] == Null {
          return Some(Success(Err(NOT_NULL_VIOLATION)));
        }
      }
    }
    return None;
  }

  /** Does some new row repeat an earlier new key or a live one? */
  method CheckKeys(t: TableState, k: nat, newRows: seq<Row>) returns (clash: bool)
    requires ValidTable(t) && t.key == Some(k)
    requires forall i :: 0 <= i < |newRows| ==> k < |newRows[i]|
    ensures clash <==> KeyClash(t.rows, k, newRows)
  {
    hide ValidTable, FindByKey, KeyLive;
    var seen: seq<Value> := [];
    for n := 0 to |newRows|
      invariant |seen| == n
      invariant forall i :: 0 <= i < n ==> seen[i] == newRows[i][k]
      invariant forall i :: 0 <= i < n ==> !KeyLive(t.rows, k, newRows[i][k])
      invariant forall i, j :: 0 <= j < i < n ==> !HasKey(newRows[j], k, newRows[i][k])
    {
      var kv := newRows[n][k];
      var found := SearchKey(t, k, kv);
      if kv in seen || found.Some? {
        if kv in seen {
          var j :| 0 <= j < n && seen[j] == kv;
          assert HasKey(newRows[j], k, newRows[n][k]);
        }
        return true;
      }
      seen := seen + [kv];
    }
    return false;
  }

  /** The row with the statement's assignments made one by one. */
  method AssignColumns(cols: seq<ColumnDef>, row: Row, sets: seq<(nat, Value)>)
    returns (r: Result<Row, Result<Outcome, Misuse>>)
    requires |row| == |cols|
    ensures r == ApplySets(cols, row, sets)
  {
    var current := row;
    for n := 0 to |sets|
      invariant |current| == |cols|
      invariant ApplySets(cols, row, sets) == ApplySets(cols, current, sets[n..])
    {
      var (i, v) := sets[n];
      assert sets[n..][0] == sets[n] && sets[n..][1..] == sets[n + 1..];
      if i >= |current| {
        return Failure(Failure(SetOutOfRange));
      }
      if cols[i].notNull && v == Null {
        return Failure(Success(Err(NOT_NULL_VIOLATION)));
      }
      current := current[i := v];
    }
    return Success(current);
  }

  /** Position of the newest savepoint of this name, or -1. */
  method NewestMark(savepoints: seq<(string, nat)>, name: string) returns (i: int)
    ensures i == LastNamed(savepoints, name)
  {
    i := |savepoints| - 1;
    while i >= 0 && savepoints[i].0 != name
      invariant -1 <= i < |savepoints|
      invariant forall j :: i < j < |savepoints| ==> savepoints[j].0 != name
    {
      i := i - 1;
    }
  }

  class LedgerObject {
    var tables: Tables
    var tx: Option<TxState>

    ghost function View(): State
      reads this
    {
      State(tables, tx)
    }

    /** The marks of the open transaction point into its log, oldest first, and the tables keep their constraints. */
    ghost predicate Valid()
      reads this
    {
      && ValidState(View())
      && (tx.Some? ==>
            && (forall i :: 0 <= i < |tx.value.savepoints| ==> tx.value.savepoints[i].1 <= |tx.value.oplog|)
            && (forall i, j :: 0 <= i < j < |tx.value.savepoints| ==> tx.value.savepoints[i].1 <= tx.value.savepoints[j].1))
    }

    constructor ()
      ensures Valid() && View() == INITIAL
    {
      tables := map[];
      tx := None;
    }

    constructor Clone(other: LedgerObject)
      requires other.Valid()
      ensures Valid() && View() == other.View()
    {
      tables, tx := other.tables, other.tx;
    }

    method BeginTx()
      requires Valid()
      modifies this
      ensures Valid() && View() == Step(old(View()), Begin).0
    {
      tx := Some(TxState(tables, [], []));
    }

    method CommitTx()
      requires Valid()
      modifies this
      ensures Valid() && View() == Step(old(View()), Commit).0
    {
      tx := None;
    }

    method RollbackTx()
      requires Valid()
      modifies this
      ensures Valid() && View() == Step(old(View()), Rollback).0
    {
      if tx.Some? {
        tables := tx.value.snapshot;
        tx := None;
      }
    }

    method MarkSavepoint(name: string)
      requires Valid()
      modifies this
      ensures Valid() && View() == Step(old(View()), Savepoint(name)).0
    {
      if tx.Some? {
        tx := Some(tx.value.(savepoints := tx.value.savepoints + [(name, |tx.value.oplog|)]));
      }
    }

    method InsertInto(table: string, newRows: seq<Row>) returns (r: Result<Outcome, Misuse>)
      requires ValidTables(tables)
      modifies this`tables
      ensures tables == ApplyInsert(old(tables), table, newRows).tables
      ensures r == ApplyInsert(old(tables), table, newRows).res
    {
      if table !in tables {
        return Success(Err(UNDEFINED_TABLE));
      }
      var t := tables[table];
      assert ValidTable(t);
      var fault := CheckShape(t.cols, newRows);
      if fault.Some? {
        return fault.value;
      }
      ShapeFaultNone(t.cols, newRows);
      if t.key.Some? {
        assert forall i :: 0 <= i < |newRows| ==> RowFits(t.cols, newRows[i]);
        var clash := CheckKeys(t, t.key.value, newRows);
        if clash {
          return Success(Err(UNIQUE_VIOLATION));
        }
      }
      var rows := t.rows;
      for n := 0 to |newRows|
        invariant rows == t.rows + multiset(newRows[..n])
      {
        assert newRows[..n + 1] == newRows[..n] + [newRows[n]];
        rows := rows + multiset{newRows[n]};
      }
      assert newRows[..|newRows|] == newRows;
      tables := tables[table := t.(rows := rows)];
      return Success(Ok(|newRows|));
    }

    method UpdateRow(table: string, keyValue: Value, sets: seq<(nat, Value)>) returns (r: Result<Outcome, Misuse>)
      requires ValidTables(tables)
      modifies this`tables
      ensures tables == ApplyUpdate(old(tables), table, keyValue, sets).tables
      ensures r == ApplyUpdate(old(tables), table, keyValue, sets).res
    {
      if table !in tables {
        return Success(Err(UNDEFINED_TABLE));
      }
      var t := tables[table];
      assert ValidTable(t);
      if t.key.None? {
        return Failure(Unkeyed);
      }
      var k := t.key.value;
      var found := SearchKey(t, k, keyValue);
      if found.None? {
        return Success(Ok(0));
      }
      var changed := AssignColumns(t.cols, found.value, sets);
      if changed.Failure? {
        return changed.error;
      }
      var row := changed.value;
      if row[k] != keyValue {
        var other := SearchKey(t, k, row[k]);
        if other.Some? {
          return Success(Err(UNIQUE_VIOLATION));
        }
      }
      tables := tables[table := t.(rows := t.rows - multiset{found.value} + multiset{row})];
      return Success(Ok(1));
    }

    method DeleteRow(table: string, keyValue: Value) returns (r: Result<Outcome, Misuse>)
      requires ValidTables(tables)
      modifies this`tables
      ensures tables == ApplyDelete(old(tables), table, keyValue).tables
      ensures r == ApplyDelete(old(tables), table, keyValue).res
    {
      if table !in tables {
        return Success(Err(UNDEFINED_TABLE));
      }
      var t := tables[table];
      assert ValidTable(t);
      if t.key.None? {
        return Failure(Unkeyed);
      }
      var found := SearchKey(t, t.key.value, keyValue);
      if found.None? {
        return Success(Ok(0));
      }
      tables := tables[table := t.(rows := t.rows - multiset{found.value})];
      return Success(Ok(1));
    }

    /** Apply one operation to the working tables. */
    method ApplyTo(op: Op) returns (r: Result<Outcome, Misuse>)
      requires ValidTables(tables)
      modifies this`tables
      ensures ValidTables(tables)
      ensures tables == ApplyOp(old(tables), op).tables
      ensures r == ApplyOp(old(tables), op).res
    {
      OpKeepsTables(tables, op);
      match op
      case CreateTable(table, cols, key) =>
        if table in tables {
          return Success(Err(DUP_TABLE));
        }
        if key.Some? && key.value >= |cols| {
          return Failure(KeyOutOfRange);
        }
        tables := tables[table := TableState(cols, key, multiset{})];
        return Success(Ok(0));
      case DropTable(table) =>
        if table !in tables {
          return Success(Err(UNDEFINED_TABLE));
        }
        tables := tables - {table};
        return Success(Ok(0));
      case Truncate(table) =>
        if table !in tables {
          return Success(Err(UNDEFINED_TABLE));
        }
        tables := tables[table := tables[table].(rows := multiset{})];
        return Success(Ok(0));
      case InsertValues(table, newRows) =>
        r := InsertInto(table, newRows);
      case UpdateByKey(table, keyValue, sets) =>
        r := UpdateRow(table, keyValue, sets);
      case DeleteByKey(table, keyValue) =>
        r := DeleteRow(table, keyValue);
    }

    /** Apply an operation; a successful one inside a transaction enters the op-log. */
    method ApplyStatement(op: Op) returns (r: Result<Outcome, Misuse>)
      requires Valid()
      modifies this
      ensures Valid()
      ensures (View(), Verdict(r)) == Step(old(View()), Apply(op))
    {
      r := ApplyTo(op);
      if r.Success? && r.value.Ok? && tx.Some? {
        tx := Some(tx.value.(oplog := tx.value.oplog + [op]));
      }
    }

    /** Replay a log over the current tables, stopping at the first misuse. */
    method ReplayLog(ops: seq<Op>) returns (r: Result<(), Misuse>)
      requires ValidTables(tables)
      modifies this`tables
      ensures ValidTables(tables)
      ensures tables == Replay(old(tables), ops).tables
      ensures r.Success? <==> Replay(old(tables), ops).res.Success?
      ensures r.Failure? ==> r.error == ReplayMisuse
    {
      for n := 0 to |ops|
        invariant ValidTables(tables)
        invariant Replay(old(tables), ops) == Replay(tables, ops[n..])
      {
        assert ops[n..][0] == ops[n] && ops[n..][1..] == ops[n + 1..];
        var out := ApplyTo(ops[n]);
        if out.Failure? {
          return Failure(ReplayMisuse);
        }
      }
      return Success(());
    }

    /** Truncate the op-log to the newest mark of this name and rebuild the tables by replaying what is left. */
    method RollbackToSavepoint(name: string) returns (r: Result<(), Misuse>)
      requires Valid()
      modifies this
      ensures Valid()
      ensures View() == Step(old(View()), RollbackTo(name)).0
      ensures (if r.Success? then Done else Refused(r.error)) == Step(old(View()), RollbackTo(name)).1
    {
      if tx.None? {
        return Failure(OutsideTx);
      }
      var i := NewestMark(tx.value.savepoints, name);
      if i < 0 {
        return Failure(NoSavepoint);
      }
      var kept := tx.value.oplog[..tx.value.savepoints[i].1];
      tables := tx.value.snapshot;
      tx := Some(tx.value.(oplog := kept, savepoints := tx.value.savepoints[..i + 1]));
      r := ReplayLog(kept);
    }

    /** The crash view: a copy of the ledger, rolled back if a transaction is open, listed table by table. */
    method CrashView() returns (listing: seq<Listed>)
      requires Valid()
      ensures IsListing(CrashCommitted(View()), listing)
    {
      var l := new LedgerObject.Clone(this);
      l.RollbackTx();
      listing := ListTables(l.tables);
    }
  }

  // ---- listings -----------------------------------------------------------------------------------------

  datatype Listed = Listed(name: string, cols: seq<string>, rows: seq<Row>)

  function ColumnNames(cols: seq<ColumnDef>): seq<string> { seq(|cols|, i requires 0 <= i < |cols| => cols[i].name) }

  function NamesOf(listing: seq<Listed>): (r: seq<string>)
    ensures |r| == |listing| && forall i :: 0 <= i < |r| ==> r[i] == listing[i].name
  {
    seq(|listing|, i requires 0 <= i < |listing| => listing[i].name)
  }

  /** Every table once, in order of the names, with its column names and its rows in order. */
  ghost predicate IsListing(tables: Tables, listing: seq<Listed>) {
    && Ascending(NamesOf(listing))
    && (forall name :: name in tables <==> name in NamesOf(listing))
    && forall i :: 0 <= i < |listing| ==> Lists(tables, listing[i])
  }

  ghost predicate Lists(tables: Tables, e: Listed) {
    && e.name in tables && e.cols == ColumnNames(tables[e.name].cols)
    && SortedRows(e.rows) && multiset(e.rows) == tables[e.name].rows
  }

  /** The rows of a multiset in order, each as often as it occurs. */
  method ExpandRows(rows: multiset<Row>) returns (out: seq<Row>)
    ensures SortedRows(out) && multiset(out) == rows
  {
    hide SortedRows;
    NoRows();
    out := [];
    var rest := rows;
    while rest != multiset{}
      invariant SortedRows(out) && multiset(out) + rest == rows
      decreases |rest|
    {
      var row :| row in rest;
      out := InsertRow(row, out);
      rest := rest - multiset{row};
    }
  }

  lemma NoRows()
    ensures SortedRows([])
  {
  }

  method OrderNames(tables: Tables) returns (names: seq<string>)
    ensures Ascending(names) && forall name :: name in names <==> name in tables
  {
    names := [];
    var rest := tables.Keys;
    while rest != {}
      invariant Ascending(names) && rest <= tables.Keys
      invariant forall name :: name in tables <==> name in names || name in rest
      decreases |rest|
    {
      var name :| name in rest;
      names := Insert(name, names);
      rest := rest - {name};
    }
  }

  method ListTables(tables: Tables) returns (listing: seq<Listed>)
    ensures IsListing(tables, listing)
  {
    var names := OrderNames(tables);
    hide Ascending, SortedRows;
    listing := [];
    for i := 0 to |names|
      invariant |listing| == i && NamesOf(listing) == names[..i]
      invariant forall j :: 0 <= j < i ==> Lists(tables, listing[j])
    {
      assert names[i] in names;
      var t := tables[names[i]];
      var rows := ExpandRows(t.rows);
      listing := listing + [Listed(names[i], ColumnNames(t.cols), rows)];
    }
    assert NamesOf(listing) == names;
  }

  /** A database has one listing. */
  lemma ListingUnique(tables: Tables, a: seq<Listed>, b: seq<Listed>)
    requires IsListing(tables, a) && IsListing(tables, b)
    ensures a == b
  {
    AscendingUnique(NamesOf(a), NamesOf(b));
    forall i | 0 <= i < |a|
      ensures a[i] == b[i]
    {
      assert NamesOf(a)[i] == NamesOf(b)[i];
      assert Lists(tables, a[i]) && Lists(tables, b[i]);
      SortedUnique(a[i].rows, b[i].rows);
    }
  }
}
