/** Three-valued predicates and how a perfect engine answers the probes built on them. */
module Probe {
  import opened Common
  import opened Strings
  import opened Ledger
  import opened RowOrder

  datatype CmpOp = Lt | Le | Eq | Ge | Gt | Ne

  datatype Pred =
    | ColModEq(col: nat, m: I64, r: I64)
    | ColCmp(col: nat, op: CmpOp, lit: Value)
    | ColIsNull(col: nat)
    | Not(p: Pred)
    | And(a: Pred, b: Pred)
    | Or(a: Pred, b: Pred)

  /** Moduli are positive; the generator makes no others. */
  predicate Moduli(pred: Pred) {
    match pred
    case ColModEq(_, m, _) => m > 0
    case ColCmp(_, _, _) => true
    case ColIsNull(_) => true
    case Not(p) => Moduli(p)
    case And(a, b) => Moduli(a) && Moduli(b)
    case Or(a, b) => Moduli(a) && Moduli(b)
  }

  function Get(row: Row, col: nat): Option<Value> {
    if col < |row| then Some(row[col]) else None
  }

  /** The sign of a comparison, where the two values compare at all. */
  function Compare(v: Value, lit: Value): Option<int> {
    match (v, lit)
    case (Int(a), Int(b)) => Some(if a < b then -1 else if a == b then 0 else 1)
    case (Text(a), Text(b)) => Some(if Less(a, b) then -1 else if a == b then 0 else 1)
    case _ => None
  }

  predicate Fits(op: CmpOp, sign: int) {
    match op
    case Lt => sign < 0
    case Le => sign <= 0
    case Eq => sign == 0
    case Ge => sign >= 0
    case Gt => sign > 0
    case Ne => sign != 0
  }

  /** Kleene's three-valued logic; None is unknown. */
  function Eval3(pred: Pred, row: Row): Option<bool>
    requires Moduli(pred)
  {
    match pred
    case ColModEq(col, m, r) =>
      (match Get(row, col)
       case Some(Int(v)) => Some(v % m == r)
       case _ => None)
    case ColCmp(col, op, lit) =>
      (match Get(row, col)
       case None => None
       case Some(v) =>
         match Compare(v, lit)
         case None => None
         case Some(sign) => Some(Fits(op, sign)))
    case ColIsNull(col) => Some(Get(row, col) == None || Get(row, col) == Some(Null))
    case Not(p) =>
      (match Eval3(p, row)
       case None => None
       case Some(x) => Some(!x))
    case And(a, b) =>
      var (x, y) := (Eval3(a, row), Eval3(b, row));
      if x == Some(false) || y == Some(false) then Some(false)
      else if x == Some(true) && y == Some(true) then Some(true)
      else None
    case Or(a, b) =>
      var (x, y) := (Eval3(a, row), Eval3(b, row));
      if x == Some(true) || y == Some(true) then Some(true)
      else if x == Some(false) && y == Some(false) then Some(false)
      else None
  }

  // ---- what the three-valued verdict means -----------------------------------------------------------------

  /** False below unknown below true. */
  function RankOf(v: Option<bool>): int {
    match v
    case Some(false) => 0
    case None => 1
    case Some(true) => 2
  }

  function Least(x: int, y: int): int { if x <= y then x else y }

  function Greatest(x: int, y: int): int { if x >= y then x else y }

  /** Kleene's tables: AND is the lesser, OR the greater, NOT the mirror image. */
  lemma KleeneTables(a: Pred, b: Pred, row: Row)
    requires Moduli(a) && Moduli(b)
    ensures RankOf(Eval3(And(a, b), row)) == Least(RankOf(Eval3(a, row)), RankOf(Eval3(b, row)))
    ensures RankOf(Eval3(Or(a, b), row)) == Greatest(RankOf(Eval3(a, row)), RankOf(Eval3(b, row)))
    ensures RankOf(Eval3(Not(a), row)) == 2 - RankOf(Eval3(a, row))
  {
  }

  /** False decides a conjunction and true a disjunction, whatever the other side is, unknown included. */
  lemma Dominance(a: Pred, b: Pred, row: Row)
    requires Moduli(a) && Moduli(b)
    ensures Eval3(And(a, b), row) == Some(false) <==> Eval3(a, row) == Some(false) || Eval3(b, row) == Some(false)
    ensures Eval3(Or(a, b), row) == Some(true) <==> Eval3(a, row) == Some(true) || Eval3(b, row) == Some(true)
  {
    KleeneTables(a, b, row);
  }

  lemma RankInjective(u: Option<bool>, v: Option<bool>)
    requires RankOf(u) == RankOf(v)
    ensures u == v
  {
  }

  lemma DeMorgan(a: Pred, b: Pred, row: Row)
    requires Moduli(a) && Moduli(b)
    ensures Eval3(Not(And(a, b)), row) == Eval3(Or(Not(a), Not(b)), row)
    ensures Eval3(Not(Or(a, b)), row) == Eval3(And(Not(a), Not(b)), row)
    ensures Eval3(Not(Not(a)), row) == Eval3(a, row)
  {
    KleeneTables(a, b, row);
    KleeneTables(And(a, b), Or(a, b), row);
    KleeneTables(Or(a, b), And(a, b), row);
    KleeneTables(b, a, row);
    KleeneTables(Not(a), Not(b), row);
    hide Eval3;
    RankInjective(Eval3(Not(And(a, b)), row), Eval3(Or(Not(a), Not(b)), row));
    RankInjective(Eval3(Not(Or(a, b)), row), Eval3(And(Not(a), Not(b)), row));
    RankInjective(Eval3(Not(Not(a)), row), Eval3(a, row));
  }

  /** A comparison of integers is that comparison. */
  lemma IntComparison(row: Row, col: nat, a: I64, b: I64)
    requires col < |row| && row[col] == Int(a)
    ensures Eval3(ColCmp(col, Lt, Int(b)), row) == Some(a < b) && Eval3(ColCmp(col, Le, Int(b)), row) == Some(a <= b)
    ensures Eval3(ColCmp(col, Eq, Int(b)), row) == Some(a == b) && Eval3(ColCmp(col, Ne, Int(b)), row) == Some(a != b)
    ensures Eval3(ColCmp(col, Ge, Int(b)), row) == Some(a >= b) && Eval3(ColCmp(col, Gt, Int(b)), row) == Some(a > b)
  {
  }

  /** A comparison of texts goes by the lexical order. */
  lemma TextComparison(row: Row, col: nat, a: string, b: string)
    requires col < |row| && row[col] == Text(a)
    ensures Eval3(ColCmp(col, Lt, Text(b)), row) == Some(Less(a, b)) && Eval3(ColCmp(col, Ge, Text(b)), row) == Some(!Less(a, b))
    ensures Eval3(ColCmp(col, Gt, Text(b)), row) == Some(Less(b, a)) && Eval3(ColCmp(col, Le, Text(b)), row) == Some(!Less(b, a))
    ensures Eval3(ColCmp(col, Eq, Text(b)), row) == Some(a == b) && Eval3(ColCmp(col, Ne, Text(b)), row) == Some(a != b)
  {
    LessTotal(a, b);
    if Less(a, b) && Less(b, a) { LessTransitive(a, b, a); }
    LessIrreflexive(a);
  }

  /** A missing or null operand, and operands of different kinds, leave a comparison unknown; nothing else does. */
  lemma ComparisonUnknownIff(row: Row, col: nat, op: CmpOp, lit: Value)
    ensures Eval3(ColCmp(col, op, lit), row) == None <==>
              col >= |row| || !((row[col].Int? && lit.Int?) || (row[col].Text? && lit.Text?))
  {
  }

  /** A null test is never unknown, and is true exactly of a null or missing column. */
  lemma NullTest(row: Row, col: nat)
    ensures Eval3(ColIsNull(col), row) == Some(col >= |row| || row[col] == Null)
  {
  }

  /** A remainder test is unknown exactly off the integers; on them it asks whether the column is r more than a multiple. */
  lemma RemainderTest(row: Row, col: nat, m: I64, r: I64)
    requires m > 0
    ensures Eval3(ColModEq(col, m, r), row) == None <==> !IntAt(row, col)
    ensures IntAt(row, col) && 0 <= r < m ==>
              (Eval3(ColModEq(col, m, r), row) == Some(true) <==> exists q: int :: row[col].i == q * m + r)
  {
    if IntAt(row, col) && 0 <= r < m {
      var v: int := row[col].i;
      assert v == (v / m) * m + v % m;
      if q: int :| v == q * m + r { SameRemainder(v, q, m, r); }
    }
  }

  lemma SameRemainder(v: int, q: int, m: int, r: int)
    requires 0 <= r < m && v == q * m + r
    ensures v % m == r
  {
    var d := v / m - q;
    assert (v / m) * m == d * m + q * m;
    SmallMultiple(d, m);
  }

  lemma SmallMultiple(d: int, m: int)
    requires m > 0
    ensures -m < d * m < m <==> d == 0
  {
    assert d >= 1 ==> d * m >= m;
    assert d <= -1 ==> d * m <= -m;
  }

  /** The predicate reads only integer columns the row has, and compares them with integers only. */
  predicate AllInts(pred: Pred, row: Row) {
    match pred
    case ColModEq(col, _, _) => IntAt(row, col)
    case ColCmp(col, _, lit) => IntAt(row, col) && lit.Int?
    case ColIsNull(col) => IntAt(row, col)
    case Not(p) => AllInts(p, row)
    case And(a, b) => AllInts(a, row) && AllInts(b, row)
    case Or(a, b) => AllInts(a, row) && AllInts(b, row)
  }

  /** Plain two-valued logic over integers. */
  predicate Holds(pred: Pred, row: Row)
    requires Moduli(pred) && AllInts(pred, row)
  {
    match pred
    case ColModEq(col, m, r) => row[col].i % m == r
    case ColCmp(col, op, lit) =>
      var (a, b) := (row[col].i, lit.i);
      (match op
       case Lt => a < b
       case Le => !(b < a)
       case Eq => a == b
       case Ge => !(a < b)
       case Gt => b < a
       case Ne => !(a == b))
    case ColIsNull(_) => false
    case Not(p) => !Holds(p, row)
    case And(a, b) => Holds(a, row) && Holds(b, row)
    case Or(a, b) => Holds(a, row) || Holds(b, row)
  }

  /** Where no null comes in, the three-valued verdict is the two-valued one. */
  lemma {:induction false} TwoValued(pred: Pred, row: Row)
    requires Moduli(pred) && AllInts(pred, row)
    ensures Eval3(pred, row) == Some(Holds(pred, row))
    decreases pred
  {
    match pred
    case ColModEq(_, _, _) =>
    case ColCmp(_, _, _) =>
    case ColIsNull(_) =>
    case Not(p) => TwoValued(p, row);
    case And(a, b) => TwoValued(a, row); TwoValued(b, row);
    case Or(a, b) => TwoValued(a, row); TwoValued(b, row);
  }

  datatype TriSel = IsTrue | IsFalse | IsNull

  predicate InPartition(pred: Pred, row: Row, sel: TriSel)
    requires Moduli(pred)
  {
    match sel
    case IsTrue => Eval3(pred, row) == Some(true)
    case IsFalse => Eval3(pred, row) == Some(false)
    case IsNull => Eval3(pred, row) == None
  }

  /** The arms are the predicate, its negation and its null test. */
  lemma ArmsMean(pred: Pred, row: Row)
    requires Moduli(pred)
    ensures InPartition(pred, row, IsTrue) <==> RankOf(Eval3(pred, row)) == 2
    ensures InPartition(pred, row, IsFalse) <==> RankOf(Eval3(Not(pred), row)) == 2
    ensures InPartition(pred, row, IsNull) <==> RankOf(Eval3(pred, row)) == 1
  {
  }

  /** Every row falls in exactly one of the three partitions. */
  lemma PartitionsExact(pred: Pred, row: Row)
    requires Moduli(pred)
    ensures InPartition(pred, row, IsTrue) || InPartition(pred, row, IsFalse) || InPartition(pred, row, IsNull)
    ensures !(InPartition(pred, row, IsTrue) && InPartition(pred, row, IsFalse))
    ensures !(InPartition(pred, row, IsTrue) && InPartition(pred, row, IsNull))
    ensures !(InPartition(pred, row, IsFalse) && InPartition(pred, row, IsNull))
  {
  }

  type Filter = Option<(Pred, TriSel)>

  predicate GoodFilter(f: Filter) { f.Some? ==> Moduli(f.value.0) }

  predicate Selected(f: Filter, row: Row)
    requires GoodFilter(f)
  {
    f.Some? ==> InPartition(f.value.0, row, f.value.1)
  }

  // ---- what the answers mean ----------------------------------------------------------------------------

  function Where(rows: seq<Row>, f: Filter): seq<Row>
    requires GoodFilter(f)
  {
    if rows == [] then []
    else (if Selected(f, rows[0]) then [rows[0]] else []) + Where(rows[1..], f)
  }

  predicate IntAt(row: Row, col: nat) { col < |row| && row[col].Int? }

  function SumCol(rows: seq<Row>, col: nat): int {
    if rows == [] then 0 else (if IntAt(rows[0], col) then rows[0][col].i else 0) + SumCol(rows[1..], col)
  }

  predicate AnyInt(rows: seq<Row>, col: nat) {
    exists i :: 0 <= i < |rows| && IntAt(rows[i], col)
  }

  /** Two's complement wrap-around to 64 bits. */
  function Wrap(x: int): I64 {
    (x + 0x8000_0000_0000_0000) % 0x1_0000_0000_0000_0000 - 0x8000_0000_0000_0000
  }

  predicate Better(max: bool, a: int, b: int) { if max then a >= b else a <= b }

  /** The extreme of the integers in a column, none if there are none. */
  ghost predicate IsExtreme(rows: seq<Row>, col: nat, max: bool, e: Option<I64>) {
    && (e.None? <==> !AnyInt(rows, col))
    && (e.Some? ==> exists i :: 0 <= i < |rows| && IntAt(rows[i], col) && rows[i][col].i == e.value)
    && (e.Some? ==> forall i :: 0 <= i < |rows| && IntAt(rows[i], col) ==> Better(max, e.value, rows[i][col].i))
  }

  function Verdict(v: Option<bool>): Value {
    match v
    case Some(true) => Text("t")
    case Some(false) => Text("f")
    case None => Null
  }

  // ---- the answers, as the engine double computes them -----------------------------------------------------------

  method SelectWhere(rows: seq<Row>, f: Filter) returns (out: seq<Row>)
    requires GoodFilter(f)
    ensures out == Where(rows, f)
  {
    hide Selected, GoodFilter;
    out := [];
    for i := 0 to |rows|
      invariant out == Where(rows[..i], f)
    {
      assert rows[..i + 1] == rows[..i] + [rows[i]];
      WhereSnoc(rows[..i], rows[i], f);
      if Selected(f, rows[i]) {
        out := out + [rows[i]];
      }
    }
    assert rows[..|rows|] == rows;
  }

  lemma {:induction false} WhereSnoc(rows: seq<Row>, row: Row, f: Filter)
    requires GoodFilter(f)
    ensures Where(rows + [row], f) == Where(rows, f) + if Selected(f, row) then [row] else []
    decreases |rows|
  {
    hide Selected, GoodFilter;
    if rows == [] {
      assert rows + [row] == [row] && [row][1..] == [];
    } else {
      assert (rows + [row])[1..] == rows[1..] + [row];
      WhereSnoc(rows[1..], row, f);
    }
  }

  /** The number of selected rows. */
  method CountWhere(rows: seq<Row>, f: Filter) returns (n: nat)
    requires GoodFilter(f)
    ensures n == |Where(rows, f)|
  {
    hide Selected;
    n := 0;
    for i := 0 to |rows|
      invariant n == |Where(rows[..i], f)|
    {
      assert rows[..i + 1] == rows[..i] + [rows[i]];
      WhereSnoc(rows[..i], rows[i], f);
      if Selected(f, rows[i]) {
        n := n + 1;
      }
    }
    assert rows[..|rows|] == rows;
  }

  method AddUp(rows: seq<Row>, col: nat) returns (any: bool, sum: I64)
    ensures any == AnyInt(rows, col) && sum == Wrap(SumCol(rows, col))
  {
    hide Wrap;
    any, sum := false, 0;
    WrapSmall(0);
    for i := 0 to |rows|
      invariant any == AnyInt(rows[..i], col)
      invariant sum == Wrap(SumCol(rows[..i], col))
    {
      assert rows[..i + 1] == rows[..i] + [rows[i]];
      SumSnoc(rows[..i], rows[i], col);
      if IntAt(rows[i], col) {
        WrapAdd(SumCol(rows[..i], col), rows[i][col].i);
        any, sum := true, Wrap(sum + rows[i][col].i);
      }
    }
    assert rows[..|rows|] == rows;
  }

  lemma {:induction false} SumSnoc(rows: seq<Row>, row: Row, col: nat)
    ensures SumCol(rows + [row], col) == SumCol(rows, col) + if IntAt(row, col) then row[col].i else 0
    ensures AnyInt(rows + [row], col) <==> AnyInt(rows, col) || IntAt(row, col)
    decreases |rows|
  {
    var all := rows + [row];
    assert all[|rows|] == row;
    assert forall i :: 0 <= i < |rows| ==> all[i] == rows[i];
    if AnyInt(rows, col) {
      var i :| 0 <= i < |rows| && IntAt(rows[i], col);
      assert IntAt(all[i], col);
    }
    if rows == [] {
      assert all == [row] && [row][1..] == [];
    } else {
      assert all[1..] == rows[1..] + [row];
      SumSnoc(rows[1..], row, col);
    }
  }

  /** The sum of a column's integers, null when there are none. */
  method SumColumn(rows: seq<Row>, col: nat, f: Filter) returns (v: Value)
    requires GoodFilter(f)
    ensures var sel := Where(rows, f); v == if AnyInt(sel, col) then Int(Wrap(SumCol(sel, col))) else Null
  {
    var sel := SelectWhere(rows, f);
    var any, sum := AddUp(sel, col);
    v := if any then Int(sum) else Null;
  }

  lemma WrapAdd(x: int, y: int)
    ensures Wrap(Wrap(x) + y) == Wrap(x + y)
  {
    var q := (x + 0x8000_0000_0000_0000) / 0x1_0000_0000_0000_0000;
    assert Wrap(x) == x - q * 0x1_0000_0000_0000_0000;
  }

  lemma WrapSmall(x: I64)
    ensures Wrap(x) == x
  {
  }

  /** The largest integer of a column, or the smallest: it is there, and no other is above it, or below it. */
  lemma LargestAndSmallest(rows: seq<Row>, col: nat, e: I64)
    ensures IsExtreme(rows, col, true, Some(e)) <==>
              && (exists i :: 0 <= i < |rows| && IntAt(rows[i], col) && rows[i][col].i == e)
              && forall i :: 0 <= i < |rows| && IntAt(rows[i], col) ==> rows[i][col].i <= e
    ensures IsExtreme(rows, col, false, Some(e)) <==>
              && (exists i :: 0 <= i < |rows| && IntAt(rows[i], col) && rows[i][col].i == e)
              && forall i :: 0 <= i < |rows| && IntAt(rows[i], col) ==> e <= rows[i][col].i
  {
  }

  method ExtremeIn(rows: seq<Row>, col: nat, max: bool) returns (e: Option<I64>)
    ensures IsExtreme(rows, col, max, e)
  {
    hide IsExtreme;
    e := None;
    ExtremeOfNone(col, max);
    for i := 0 to |rows|
      invariant IsExtreme(rows[..i], col, max, e)
    {
      ghost var before := e;
      if IntAt(rows[i], col) {
        var v := rows[i][col].i;
        e := match e case None => Some(v) case Some(x) => Some(if Better(max, x, v) then x else v);
      }
      ExtremeSnoc(rows[..i], rows[i], col, max, before, e);
      assert rows[..i + 1] == rows[..i] + [rows[i]];
    }
    assert rows[..|rows|] == rows;
  }

  lemma ExtremeOfNone(col: nat, max: bool)
    ensures IsExtreme([], col, max, None)
  {
  }

  /** The least or greatest integer of a column. */
  method ExtremeColumn(rows: seq<Row>, col: nat, f: Filter, max: bool) returns (e: Option<I64>)
    requires GoodFilter(f)
    ensures IsExtreme(Where(rows, f), col, max, e)
  {
    var sel := SelectWhere(rows, f);
    e := ExtremeIn(sel, col, max);
  }

  lemma ExtremeSnoc(rows: seq<Row>, row: Row, col: nat, max: bool, e: Option<I64>, e': Option<I64>)
    requires IsExtreme(rows, col, max, e)
    requires !IntAt(row, col) ==> e' == e
    requires IntAt(row, col) ==> e' == (if e.Some? && Better(max, e.value, row[col].i) then e else Some(row[col].i))
    ensures IsExtreme(rows + [row], col, max, e')
  {
    var all := rows + [row];
    assert all[|rows|] == row;
    assert forall i :: 0 <= i < |rows| ==> all[i] == rows[i];
    if e.Some? && e' == e {
      var i :| 0 <= i < |rows| && IntAt(rows[i], col) && rows[i][col].i == e.value;
      assert IntAt(all[i], col);
    }
    if AnyInt(rows, col) {
      var i :| 0 <= i < |rows| && IntAt(rows[i], col);
      assert IntAt(all[i], col);
    }
  }

  /** The predicate's verdict on every row, as the wire spells booleans. */
  method ProjectPred(rows: seq<Row>, pred: Pred) returns (out: seq<Row>)
    requires Moduli(pred)
    ensures |out| == |rows| && forall i :: 0 <= i < |rows| ==> out[i] == [Verdict(Eval3(pred, rows[i]))]
  {
    out := [];
    for i := 0 to |rows|
      invariant |out| == i && forall j :: 0 <= j < i ==> out[j] == [Verdict(Eval3(pred, rows[j]))]
    {
      out := out + [[Verdict(Eval3(pred, rows[i]))]];
    }
  }

  /** One column of every row that has it. */
  function Column(rows: seq<Row>, col: nat): seq<Row> {
    if rows == [] then [] else (if col < |rows[0]| then [[rows[0][col]]] else []) + Column(rows[1..], col)
  }

  method SelectColumn(rows: seq<Row>, col: nat) returns (out: seq<Row>)
    requires forall r :: r in rows ==> col < |r|
    ensures out == Column(rows, col)
  {
    out := [];
    for i := 0 to |rows|
      invariant out + Column(rows[i..], col) == Column(rows, col)
    {
      assert rows[i] in rows;
      assert rows[i..][0] == rows[i] && rows[i..][1..] == rows[i + 1..];
      out := out + [[rows[i][col]]];
    }
    assert rows[|rows|..] == [];
  }

  /** The wire spells true as t, false as f, and unknown as null. */
  lemma VerdictSpelled(v: Option<bool>)
    ensures Verdict(v) == if RankOf(v) == 2 then Text("t") else if RankOf(v) == 0 then Text("f") else Null
  {
  }

  method DistinctIn(rows: seq<Row>, col: nat) returns (out: seq<Row>)
    requires forall r :: r in rows ==> col < |r|
    ensures RowSet(out) == Distinct(rows, col) && SortedRows(out)
  {
    hide SortedRows, InsertRow;
    out := [];
    NothingSorted();
    for i := 0 to |rows|
      invariant RowSet(out) == Distinct(rows[..i], col) && SortedRows(out)
    {
      assert rows[i] in rows;
      assert rows[..i + 1] == rows[..i] + [rows[i]];
      DistinctSnoc(rows[..i], rows[i], col);
      var v := [rows[i][col]];
      if v in out {
        assert v in RowSet(out);
      } else {
        InsertedSet(v, out);
        out := InsertRow(v, out);
      }
    }
    assert rows[..|rows|] == rows;
  }

  lemma NothingSorted()
    ensures SortedRows([])
  {
  }

  /** The distinct values of a column, one row each, in order. */
  method DistinctColumn(rows: seq<Row>, col: nat, f: Filter) returns (out: seq<Row>)
    requires GoodFilter(f) && forall r :: r in rows ==> col < |r|
    ensures RowSet(out) == Distinct(Where(rows, f), col) && SortedRows(out)
  {
    WhereKeeps(rows, f);
    var sel := SelectWhere(rows, f);
    out := DistinctIn(sel, col);
  }

  lemma DistinctSnoc(rows: seq<Row>, row: Row, col: nat)
    requires col < |row|
    ensures Distinct(rows + [row], col) == Distinct(rows, col) + {[row[col]]}
  {
    var all := rows + [row];
    assert row in all;
    assert forall r :: r in all <==> r in rows || r == row;
  }

  lemma InsertedSet(v: Row, rows: seq<Row>)
    requires SortedRows(rows)
    ensures RowSet(InsertRow(v, rows)) == RowSet(rows) + {v}
  {
    var grown := InsertRow(v, rows);
    assert forall x :: x in grown <==> x in multiset(grown);
    assert forall x :: x in rows <==> x in multiset(rows);
  }

  function RowSet(rows: seq<Row>): set<Row> { set r | r in rows }

  /** Column values as one-column rows; a row too short has none. */
  function Distinct(rows: seq<Row>, col: nat): set<Row> {
    set r | r in rows && col < |r| :: [r[col]]
  }

  lemma {:induction false} WhereKeeps(rows: seq<Row>, f: Filter)
    requires GoodFilter(f)
    ensures forall r :: r in Where(rows, f) <==> r in rows && Selected(f, r)
  {
    if rows != [] {
      WhereKeeps(rows[1..], f);
      assert rows == [rows[0]] + rows[1..];
    }
  }

  /** A selection counts each selected row as often as the rows do. */
  lemma {:induction false} WhereCounts(rows: seq<Row>, f: Filter, r: Row)
    requires GoodFilter(f)
    ensures multiset(Where(rows, f))[r] == if Selected(f, r) then multiset(rows)[r] else 0
  {
    if rows != [] {
      WhereCounts(rows[1..], f, r);
      assert rows == [rows[0]] + rows[1..];
      assert multiset(rows) == multiset{rows[0]} + multiset(rows[1..]);
      assert multiset(Where(rows, f)) == multiset(if Selected(f, rows[0]) then [rows[0]] else []) + multiset(Where(rows[1..], f));
    }
  }

  lemma WhereSame(a: seq<Row>, b: seq<Row>, f: Filter)
    requires GoodFilter(f) && multiset(a) == multiset(b)
    ensures multiset(Where(a, f)) == multiset(Where(b, f))
  {
    forall r
      ensures multiset(Where(a, f))[r] == multiset(Where(b, f))[r]
    {
      WhereCounts(a, f, r);
      WhereCounts(b, f, r);
    }
  }

  lemma {:induction false} WhereAll(rows: seq<Row>)
    ensures Where(rows, None) == rows
  {
    if rows != [] {
      WhereAll(rows[1..]);
      assert rows == [rows[0]] + rows[1..];
    }
  }

  // ---- probes --------------------------------------------------------------------------------------------

  datatype StmtResult = Rows(rows: seq<Row>) | Command(affected: nat) | Error(sqlstate: string)

  datatype ProbeSpec =
    | RowsWhere(f: Filter)
    | DistinctCol(col: nat, f: Filter)
    | CountOf(f: Filter)
    | SumOf(col: nat, f: Filter)
    | ExtremeOf(col: nat, f: Filter, max: bool)
    | PredProjection(pred: Pred)
    | ColumnAll(col: nat, doubled: bool)

  predicate GoodSpec(spec: ProbeSpec) {
    match spec
    case PredProjection(pred) => Moduli(pred)
    case ColumnAll(_, _) => true
    case _ => GoodFilter(spec.f)
  }

  function Scalar(v: Value): StmtResult { Rows([[v]]) }

  function IntOrNull(e: Option<I64>): Value { if e.Some? then Int(e.value) else Null }

  /** A correct answer, with the rows in some order. */
  ghost predicate AnswersIn(order: seq<Row>, spec: ProbeSpec, res: StmtResult)
    requires GoodSpec(spec)
  {
    match spec
    case RowsWhere(f) => res == Rows(Where(order, f))
    case DistinctCol(col, f) => res.Rows? && RowSet(res.rows) == Distinct(Where(order, f), col)
    case CountOf(f) => res == Scalar(Int(Wrap(|Where(order, f)|)))
    case SumOf(col, f) =>
      var sel := Where(order, f);
      res == Scalar(if AnyInt(sel, col) then Int(Wrap(SumCol(sel, col))) else Null)
    case ExtremeOf(col, f, max) => exists e :: IsExtreme(Where(order, f), col, max, e) && res == Scalar(IntOrNull(e))
    case PredProjection(pred) =>
      && res.Rows? && |res.rows| == |order|
      && forall i :: 0 <= i < |order| ==> res.rows[i] == [Verdict(Eval3(pred, order[i]))]
    case ColumnAll(col, doubled) =>
      var once := multiset(Column(order, col));
      res.Rows? && multiset(res.rows) == if doubled then once + once else once
  }

  ghost predicate Answers(rows: multiset<Row>, spec: ProbeSpec, res: StmtResult)
    requires GoodSpec(spec)
  {
    exists order: seq<Row> :: multiset(order) == rows && AnswersIn(order, spec, res)
  }

  /** The engine double answers a probe from the ledger's rows, in whatever order it lists them. */
  method AnswerProbe(tables: Tables, table: string, order: seq<Row>, spec: ProbeSpec) returns (res: StmtResult)
    requires GoodSpec(spec)
    requires table in tables ==> multiset(order) == tables[table].rows
    requires table in tables && (spec.DistinctCol? || spec.ColumnAll?) ==> forall r :: r in order ==> spec.col < |r|
    ensures table !in tables ==> res == Error(UNDEFINED_TABLE)
    ensures table in tables ==> Answers(tables[table].rows, spec, res)
  {
    if table !in tables {
      return Error(UNDEFINED_TABLE);
    }
    match spec {
      case RowsWhere(f) =>
        var out := SelectWhere(order, f);
        res := Rows(out);
      case DistinctCol(col, f) =>
        var out := DistinctColumn(order, col, f);
        res := Rows(out);
      case CountOf(f) =>
        var n := CountWhere(order, f);
        res := Scalar(Int(Wrap(n)));
      case SumOf(col, f) =>
        var v := SumColumn(order, col, f);
        res := Scalar(v);
      case ExtremeOf(col, f, max) =>
        var e := ExtremeColumn(order, col, f, max);
        res := Scalar(IntOrNull(e));
      case PredProjection(pred) =>
        var out := ProjectPred(order, pred);
        res := Rows(out);
      case ColumnAll(col, doubled) =>
        var out := SelectColumn(order, col);
        res := Rows(if doubled then out + out else out);
    }
    assert AnswersIn(order, spec, res);
  }
}
