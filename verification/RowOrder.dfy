/** The order rows are sorted by, and what sorting decides. */
module RowOrder {
  import opened Strings
  import opened Ledger

  function Rank(v: Value): nat {
    match v
    case Null => 0
    case Bool(_) => 1
    case Int(_) => 2
    case Text(_) => 3
  }

  /** Kinds in declaration order, then by content. */
  predicate ValueLess(a: Value, b: Value) {
    match (a, b)
    case (Bool(x), Bool(y)) => !x && y
    case (Int(x), Int(y)) => x < y
    case (Text(x), Text(y)) => Less(x, y)
    case _ => Rank(a) < Rank(b)
  }

  /** Column by column; a proper prefix first. */
  predicate RowLess(a: Row, b: Row) {
    b != [] && (a == [] || ValueLess(a[0], b[0]) || (a[0] == b[0] && RowLess(a[1..], b[1..])))
  }

  /** Null before booleans before integers before texts; false before true; integers and texts by their own order; a row
      before its extensions. */
  lemma OrderByValue(p: bool, i: I64, j: I64, t: string, u: string, row: Row, v: Value)
    ensures ValueLess(Null, Bool(p)) && ValueLess(Bool(p), Int(i)) && ValueLess(Int(i), Text(t))
    ensures ValueLess(Bool(false), Bool(true)) && (ValueLess(Int(i), Int(j)) <==> i < j)
    ensures ValueLess(Text(t), Text(u)) <==> Less(t, u)
    ensures RowLess([], [v] + row)
  {
  }

  lemma ValueTotal(a: Value, b: Value)
    ensures a == b || ValueLess(a, b) || ValueLess(b, a)
  {
    if a.Text? && b.Text? { LessTotal(a.t, b.t); }
  }

  lemma ValueTransitive(a: Value, b: Value, c: Value)
    requires ValueLess(a, b) && ValueLess(b, c)
    ensures ValueLess(a, c)
  {
    if a.Text? && b.Text? && c.Text? { LessTransitive(a.t, b.t, c.t); }
  }

  lemma ValueIrreflexive(a: Value)
    ensures !ValueLess(a, a)
  {
    if a.Text? { LessIrreflexive(a.t); }
  }

  lemma {:induction false} RowTotal(a: Row, b: Row)
    ensures a == b || RowLess(a, b) || RowLess(b, a)
    decreases |a|
  {
    if a != [] && b != [] {
      ValueTotal(a[0], b[0]);
      RowTotal(a[1..], b[1..]);
      if a[0] == b[0] && a[1..] == b[1..] { assert a == [a[0]] + a[1..] && b == [b[0]] + b[1..]; }
    }
  }

  lemma {:induction false} RowTransitive(a: Row, b: Row, c: Row)
    requires RowLess(a, b) && RowLess(b, c)
    ensures RowLess(a, c)
    decreases |a|
  {
    if a != [] {
      if ValueLess(a[0], b[0]) && ValueLess(b[0], c[0]) { ValueTransitive(a[0], b[0], c[0]); }
      if a[0] == b[0] && b[0] == c[0] && RowLess(a[1..], b[1..]) && RowLess(b[1..], c[1..]) {
        RowTransitive(a[1..], b[1..], c[1..]);
      }
    }
  }

  lemma {:induction false} RowIrreflexive(a: Row)
    ensures !RowLess(a, a)
  {
    if a != [] {
      ValueIrreflexive(a[0]);
      RowIrreflexive(a[1..]);
    }
  }

  predicate RowLe(a: Row, b: Row) { !RowLess(b, a) }

  lemma RowLeTransitive(a: Row, b: Row, c: Row)
    requires RowLe(a, b) && RowLe(b, c)
    ensures RowLe(a, c)
  {
    if RowLess(c, a) {
      RowTotal(b, c);
      RowTotal(a, b);
      if b != c && a != b {
        RowTransitive(a, b, c);
        RowTransitive(a, c, a);
        RowIrreflexive(a);
      }
    }
  }

  predicate SortedRows(s: seq<Row>) {
    forall i, j :: 0 <= i < j < |s| ==> RowLe(s[i], s[j])
  }

  function InsertRow(r: Row, s: seq<Row>): (t: seq<Row>)
    requires SortedRows(s)
    ensures multiset(t) == multiset(s) + multiset{r}
    ensures SortedRows(t)
  {
    if s == [] then [r]
    else if RowLess(s[0], r) then
      var rest := InsertRow(r, s[1..]);
      assert s == [s[0]] + s[1..];
      InsertKeepsSorted(s, rest, r);
      [s[0]] + rest
    else
      FrontKeepsSorted(s, r);
      [r] + s
  }

  lemma InsertKeepsSorted(s: seq<Row>, rest: seq<Row>, r: Row)
    requires s != [] && SortedRows(s) && RowLess(s[0], r)
    requires SortedRows(rest) && multiset(rest) == multiset(s[1..]) + multiset{r}
    ensures SortedRows([s[0]] + rest)
  {
    forall x | x in rest
      ensures RowLe(s[0], x)
    {
      assert x in multiset(rest);
      if x == r {
        if RowLess(r, s[0]) {
          RowTransitive(s[0], r, s[0]);
          RowIrreflexive(s[0]);
        }
      } else {
        assert x in s[1..];
        var k :| 0 <= k < |s[1..]| && s[1..][k] == x;
        assert s[k + 1] == x;
      }
    }
  }

  lemma FrontKeepsSorted(s: seq<Row>, r: Row)
    requires s != [] && SortedRows(s) && !RowLess(s[0], r)
    ensures SortedRows([r] + s)
  {
    forall j | 0 <= j < |s|
      ensures RowLe(r, s[j])
    {
      if j > 0 { RowLeTransitive(r, s[0], s[j]); }
    }
  }

  function Sort(rows: seq<Row>): (t: seq<Row>)
    ensures SortedRows(t) && multiset(t) == multiset(rows)
  {
    if rows == [] then []
    else
      assert rows == [rows[0]] + rows[1..];
      InsertRow(rows[0], Sort(rows[1..]))
  }

  lemma SameHead(a: seq<Row>, b: seq<Row>)
    requires SortedRows(a) && SortedRows(b) && multiset(a) == multiset(b) && a != [] && b != []
    ensures a[0] == b[0]
  {
    assert a[0] in multiset(b) && b[0] in multiset(a);
    FirstIsLeast(a, b[0]);
    FirstIsLeast(b, a[0]);
    RowTotal(a[0], b[0]);
  }

  lemma TailMultiset(a: seq<Row>)
    requires a != []
    ensures multiset(a[1..]) == multiset(a) - multiset{a[0]}
  {
    assert a == [a[0]] + a[1..];
  }

  lemma {:induction false} SortedUnique(a: seq<Row>, b: seq<Row>)
    requires SortedRows(a) && SortedRows(b) && multiset(a) == multiset(b)
    ensures a == b
    decreases |a|
  {
    assert |a| == |multiset(a)| && |b| == |multiset(b)|;
    if a != [] {
      SameHead(a, b);
      TailMultiset(a);
      TailMultiset(b);
      SortedUnique(a[1..], b[1..]);
      assert a == [a[0]] + a[1..] && b == [b[0]] + b[1..];
    }
  }

  lemma FirstIsLeast(s: seq<Row>, r: Row)
    requires s != [] && SortedRows(s) && r in multiset(s)
    ensures RowLe(s[0], r)
  {
    var k :| 0 <= k < |s| && s[k] == r;
    if k == 0 { RowIrreflexive(r); }
  }

  /** Comparing sorted rows compares the rows as multisets. */
  lemma SortDecides(a: seq<Row>, b: seq<Row>)
    ensures Sort(a) == Sort(b) <==> multiset(a) == multiset(b)
  {
    if multiset(a) == multiset(b) { SortedUnique(Sort(a), Sort(b)); }
  }
}
