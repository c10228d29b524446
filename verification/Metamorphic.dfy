/** No false alarms: a perfect engine's answers, in whatever row order, pass every check that asks about them. */
module Metamorphic {
  import opened Common
  import opened Ledger
  import opened RowOrder
  import opened Probe
  import opened Check

  /** A slot holds a correct answer to a probe over a table's rows. */
  ghost predicate Answered(rows: multiset<Row>, spec: ProbeSpec, stack: Stack, slot: nat)
    requires GoodSpec(spec)
  {
    slot in stack && Answers(rows, spec, stack[slot])
  }

  function Arm(pred: Pred, sel: TriSel): Filter { Some((pred, sel)) }

  // ---- the three arms put together are the table --------------------------------------------------------

  lemma ArmsReassemble(a: seq<Row>, b: seq<Row>, c: seq<Row>, w: seq<Row>, pred: Pred)
    requires Moduli(pred) && multiset(a) == multiset(b) == multiset(c) == multiset(w)
    ensures multiset(Where(a, Arm(pred, IsTrue)) + (Where(b, Arm(pred, IsFalse)) + Where(c, Arm(pred, IsNull)))) == multiset(w)
  {
    var t, f, n := Where(a, Arm(pred, IsTrue)), Where(b, Arm(pred, IsFalse)), Where(c, Arm(pred, IsNull));
    assert multiset(t + (f + n)) == multiset(t) + multiset(f) + multiset(n);
    forall r
      ensures multiset(t)[r] + multiset(f)[r] + multiset(n)[r] == multiset(w)[r]
    {
      WhereCounts(a, Arm(pred, IsTrue), r);
      WhereCounts(b, Arm(pred, IsFalse), r);
      WhereCounts(c, Arm(pred, IsNull), r);
      PartitionsExact(pred, r);
    }
  }

  lemma UnionOfThree(stack: Stack, t: nat, f: nat, n: nat)
    requires HasRows(stack, t) && HasRows(stack, f) && HasRows(stack, n)
    ensures AllRows(stack, [t, f, n])
    ensures Union(stack, [t, f, n]) == stack[t].rows + (stack[f].rows + stack[n].rows)
  {
    assert [t, f, n][1..] == [f, n] && [f, n][1..] == [n] && [n][1..] == [];
    assert Union(stack, [n]) == stack[n].rows + Union(stack, []);
    assert Union(stack, [f, n]) == stack[f].rows + Union(stack, [n]);
  }

  lemma RowsSlot(rows: multiset<Row>, f: Filter, stack: Stack, slot: nat) returns (order: seq<Row>)
    requires GoodFilter(f) && Answered(rows, RowsWhere(f), stack, slot)
    ensures multiset(order) == rows && HasRows(stack, slot) && stack[slot].rows == Where(order, f)
  {
    order :| multiset(order) == rows && AnswersIn(order, RowsWhere(f), stack[slot]);
  }

  lemma NoneErrored(stack: Stack, slots: seq<nat>)
    requires forall i :: 0 <= i < |slots| ==> HasRows(stack, slots[i])
    ensures !Errored(stack, slots)
  {
  }

  lemma FourHaveRows(stack: Stack, t: nat, f: nat, n: nat, whole: nat)
    requires HasRows(stack, t) && HasRows(stack, f) && HasRows(stack, n) && HasRows(stack, whole)
    ensures AllRows(stack, [t, f, n]) && !Errored(stack, [t, f, n] + [whole])
  {
    NoneErrored(stack, [t, f, n] + [whole]);
  }

  /** Partition union. */
  lemma PartitionUnionPasses(rows: multiset<Row>, pred: Pred, stack: Stack, t: nat, f: nat, n: nat, whole: nat)
    requires Moduli(pred)
    requires Answered(rows, RowsWhere(Arm(pred, IsTrue)), stack, t)
    requires Answered(rows, RowsWhere(Arm(pred, IsFalse)), stack, f)
    requires Answered(rows, RowsWhere(Arm(pred, IsNull)), stack, n)
    requires Answered(rows, RowsWhere(None), stack, whole)
    ensures SlotLaw(PartitionUnionEq([t, f, n], whole), stack)
    ensures !Errored(stack, MetamorphicSlots(PartitionUnionEq([t, f, n], whole)))
  {
    hide Answered, Where, Union, Moduli, Errored, HasRows;
    var a := RowsSlot(rows, Arm(pred, IsTrue), stack, t);
    var b := RowsSlot(rows, Arm(pred, IsFalse), stack, f);
    var c := RowsSlot(rows, Arm(pred, IsNull), stack, n);
    var w := RowsSlot(rows, None, stack, whole);
    WhereAll(w);
    ArmsReassemble(a, b, c, w, pred);
    FourHaveRows(stack, t, f, n, whole);
    UnionOfThree(stack, t, f, n);
  }

  // ---- distinct values ------------------------------------------------------------------------------------

  lemma DistinctOfParts(x: seq<Row>, y: seq<Row>, z: seq<Row>, w: seq<Row>, col: nat)
    requires forall r :: r in w <==> r in x || r in y || r in z
    ensures Distinct(x, col) + Distinct(y, col) + Distinct(z, col) == Distinct(w, col)
  {
  }

  lemma DistinctReassemble(a: seq<Row>, b: seq<Row>, c: seq<Row>, w: seq<Row>, pred: Pred, col: nat)
    requires Moduli(pred) && multiset(a) == multiset(b) == multiset(c) == multiset(w)
    ensures Distinct(Where(a, Arm(pred, IsTrue)), col) + Distinct(Where(b, Arm(pred, IsFalse)), col)
          + Distinct(Where(c, Arm(pred, IsNull)), col) == Distinct(Where(w, None), col)
  {
    hide Where, Distinct, Moduli, InPartition;
    var x, y, z := Where(a, Arm(pred, IsTrue)), Where(b, Arm(pred, IsFalse)), Where(c, Arm(pred, IsNull));
    WhereKeeps(a, Arm(pred, IsTrue));
    WhereKeeps(b, Arm(pred, IsFalse));
    WhereKeeps(c, Arm(pred, IsNull));
    WhereAll(w);
    SameMembers(a, w);
    SameMembers(b, w);
    SameMembers(c, w);
    forall r
      ensures r in w <==> r in x || r in y || r in z
    {
      PartitionsExact(pred, r);
    }
    DistinctOfParts(x, y, z, w, col);
  }

  lemma SameMembers(a: seq<Row>, b: seq<Row>)
    requires multiset(a) == multiset(b)
    ensures forall r :: r in a <==> r in b
  {
    assert forall r :: r in a <==> r in multiset(a);
    assert forall r :: r in b <==> r in multiset(b);
  }

  lemma RowSetOfUnion(stack: Stack, t: nat, f: nat, n: nat)
    requires HasRows(stack, t) && HasRows(stack, f) && HasRows(stack, n)
    ensures AllRows(stack, [t, f, n])
    ensures RowSet(Union(stack, [t, f, n])) == RowSet(stack[t].rows) + RowSet(stack[f].rows) + RowSet(stack[n].rows)
  {
    UnionOfThree(stack, t, f, n);
  }

  lemma DistinctUnionPasses(rows: multiset<Row>, pred: Pred, col: nat, stack: Stack, t: nat, f: nat, n: nat, whole: nat)
    requires Moduli(pred)
    requires Answered(rows, DistinctCol(col, Arm(pred, IsTrue)), stack, t)
    requires Answered(rows, DistinctCol(col, Arm(pred, IsFalse)), stack, f)
    requires Answered(rows, DistinctCol(col, Arm(pred, IsNull)), stack, n)
    requires Answered(rows, DistinctCol(col, None), stack, whole)
    ensures SlotLaw(DistinctUnionEq([t, f, n], whole), stack)
    ensures !Errored(stack, MetamorphicSlots(DistinctUnionEq([t, f, n], whole)))
  {
    var a: seq<Row> :| multiset(a) == rows && AnswersIn(a, DistinctCol(col, Arm(pred, IsTrue)), stack[t]);
    var b: seq<Row> :| multiset(b) == rows && AnswersIn(b, DistinctCol(col, Arm(pred, IsFalse)), stack[f]);
    var c: seq<Row> :| multiset(c) == rows && AnswersIn(c, DistinctCol(col, Arm(pred, IsNull)), stack[n]);
    var w: seq<Row> :| multiset(w) == rows && AnswersIn(w, DistinctCol(col, None), stack[whole]);
    DistinctReassemble(a, b, c, w, pred, col);
    RowSetOfUnion(stack, t, f, n);
  }

  // ---- sums -------------------------------------------------------------------------------------------------

  function IntIn(row: Row, col: nat): int { if IntAt(row, col) then row[col].i else 0 }

  lemma {:induction false} SumConcat(a: seq<Row>, b: seq<Row>, col: nat)
    ensures SumCol(a + b, col) == SumCol(a, col) + SumCol(b, col)
    decreases |a|
  {
    if a == [] {
      assert a + b == b;
    } else {
      assert (a + b)[1..] == a[1..] + b;
      SumConcat(a[1..], b, col);
    }
  }

  lemma SumRemove(b: seq<Row>, k: nat, col: nat)
    requires k < |b|
    ensures SumCol(b, col) == IntIn(b[k], col) + SumCol(b[..k] + b[k + 1..], col)
  {
    assert b == b[..k] + ([b[k]] + b[k + 1..]);
    SumConcat(b[..k], [b[k]] + b[k + 1..], col);
    SumConcat(b[..k], b[k + 1..], col);
    assert ([b[k]] + b[k + 1..])[1..] == b[k + 1..];
  }

  lemma RemoveOne(b: seq<Row>, k: nat)
    requires k < |b|
    ensures multiset(b[..k] + b[k + 1..]) == multiset(b) - multiset{b[k]}
  {
    assert b == b[..k] + [b[k]] + b[k + 1..];
  }

  /** A sum does not depend on the order of the rows. */
  lemma {:induction false} SumSame(a: seq<Row>, b: seq<Row>, col: nat)
    requires multiset(a) == multiset(b)
    ensures SumCol(a, col) == SumCol(b, col)
    decreases |a|
  {
    assert |a| == |multiset(a)| && |b| == |multiset(b)|;
    if a != [] {
      assert a[0] in multiset(b);
      var k :| 0 <= k < |b| && b[k] == a[0];
      TailMultiset(a);
      RemoveOne(b, k);
      SumRemove(b, k, col);
      SumSame(a[1..], b[..k] + b[k + 1..], col);
    }
  }

  lemma ArmsSum(a: seq<Row>, b: seq<Row>, c: seq<Row>, w: seq<Row>, pred: Pred, col: nat)
    requires Moduli(pred) && multiset(a) == multiset(b) == multiset(c) == multiset(w)
    ensures SumCol(Where(a, Arm(pred, IsTrue)), col) + SumCol(Where(b, Arm(pred, IsFalse)), col)
          + SumCol(Where(c, Arm(pred, IsNull)), col) == SumCol(Where(w, None), col)
  {
    var t, f, n := Where(a, Arm(pred, IsTrue)), Where(b, Arm(pred, IsFalse)), Where(c, Arm(pred, IsNull));
    ArmsReassemble(a, b, c, w, pred);
    WhereAll(w);
    SumSame(t + (f + n), w, col);
    SumConcat(t, f + n, col);
    SumConcat(f, n, col);
  }

  lemma {:induction false} NoIntsSumZero(rows: seq<Row>, col: nat)
    requires !AnyInt(rows, col)
    ensures SumCol(rows, col) == 0
  {
    if rows != [] {
      assert !IntAt(rows[0], col);
      assert forall i :: 0 <= i < |rows[1..]| ==> rows[1..][i] == rows[i + 1];
      NoIntsSumZero(rows[1..], col);
    }
  }

  /** The number a sum slot stands for. */
  lemma SumSlot(order: seq<Row>, col: nat, f: Filter, stack: Stack, slot: nat)
    requires GoodFilter(f) && slot in stack && AnswersIn(order, SumOf(col, f), stack[slot])
    ensures HasNumber(stack, slot) && NumberAt(stack, slot) == Wrap(SumCol(Where(order, f), col))
  {
    if !AnyInt(Where(order, f), col) { NoIntsSumZero(Where(order, f), col); }
  }

  lemma TotalOfThree(stack: Stack, t: nat, f: nat, n: nat)
    requires HasNumber(stack, t) && HasNumber(stack, f) && HasNumber(stack, n)
    ensures AllNumbers(stack, [t, f, n])
    ensures Total(stack, [t, f, n]) == NumberAt(stack, t) + NumberAt(stack, f) + NumberAt(stack, n)
  {
    assert [t, f, n][1..] == [f, n] && [f, n][1..] == [n] && [n][1..] == [];
    assert Total(stack, [n]) == NumberAt(stack, n) + Total(stack, []);
    assert Total(stack, [f, n]) == NumberAt(stack, f) + Total(stack, [n]);
  }

  /** Wrapping after every addition or only once at the end is the same. */
  lemma WrapThree(x: int, y: int, z: int)
    ensures Wrap(Wrap(x) + Wrap(y) + Wrap(z)) == Wrap(x + y + z)
  {
    WrapAdd(x, Wrap(y) + Wrap(z));
    WrapAdd(y, x + Wrap(z));
    WrapAdd(z, x + y);
  }

  lemma ScalarSumPasses(rows: multiset<Row>, pred: Pred, col: nat, stack: Stack, t: nat, f: nat, n: nat, whole: nat)
    requires Moduli(pred)
    requires Answered(rows, SumOf(col, Arm(pred, IsTrue)), stack, t)
    requires Answered(rows, SumOf(col, Arm(pred, IsFalse)), stack, f)
    requires Answered(rows, SumOf(col, Arm(pred, IsNull)), stack, n)
    requires Answered(rows, SumOf(col, None), stack, whole)
    ensures SlotLaw(ScalarSumEq([t, f, n], whole), stack)
    ensures !Errored(stack, MetamorphicSlots(ScalarSumEq([t, f, n], whole)))
  {
    hide AnswersIn, SumCol, Where, Wrap;
    var a: seq<Row> :| multiset(a) == rows && AnswersIn(a, SumOf(col, Arm(pred, IsTrue)), stack[t]);
    var b: seq<Row> :| multiset(b) == rows && AnswersIn(b, SumOf(col, Arm(pred, IsFalse)), stack[f]);
    var c: seq<Row> :| multiset(c) == rows && AnswersIn(c, SumOf(col, Arm(pred, IsNull)), stack[n]);
    var w: seq<Row> :| multiset(w) == rows && AnswersIn(w, SumOf(col, None), stack[whole]);
    SumSlot(a, col, Arm(pred, IsTrue), stack, t);
    SumSlot(b, col, Arm(pred, IsFalse), stack, f);
    SumSlot(c, col, Arm(pred, IsNull), stack, n);
    SumSlot(w, col, None, stack, whole);
    TotalOfThree(stack, t, f, n);
    ArmsSum(a, b, c, w, pred, col);
    WrapThree(SumCol(Where(a, Arm(pred, IsTrue)), col), SumCol(Where(b, Arm(pred, IsFalse)), col),
              SumCol(Where(c, Arm(pred, IsNull)), col));
  }

  /** The selected rows of the arms are as many as the rows. */
  lemma ArmsCount(a: seq<Row>, b: seq<Row>, c: seq<Row>, w: seq<Row>, pred: Pred)
    requires Moduli(pred) && multiset(a) == multiset(b) == multiset(c) == multiset(w)
    ensures |Where(a, Arm(pred, IsTrue))| + |Where(b, Arm(pred, IsFalse))| + |Where(c, Arm(pred, IsNull))| == |Where(w, None)|
  {
    ArmsReassemble(a, b, c, w, pred);
    WhereAll(w);
    hide Where;
    var all := Where(a, Arm(pred, IsTrue)) + (Where(b, Arm(pred, IsFalse)) + Where(c, Arm(pred, IsNull)));
    assert |all| == |multiset(all)| && |w| == |multiset(w)|;
  }

  lemma CountSlot(rows: multiset<Row>, f: Filter, stack: Stack, slot: nat) returns (order: seq<Row>)
    requires GoodFilter(f) && Answered(rows, CountOf(f), stack, slot)
    ensures multiset(order) == rows && HasNumber(stack, slot) && NumberAt(stack, slot) == Wrap(|Where(order, f)|)
  {
    hide Where, Wrap;
    order :| multiset(order) == rows && AnswersIn(order, CountOf(f), stack[slot]);
  }

  /** Counts of the arms add up to the count of the whole, wrapped or not. */
  lemma CountSumPasses(rows: multiset<Row>, pred: Pred, stack: Stack, t: nat, f: nat, n: nat, whole: nat)
    requires Moduli(pred)
    requires Answered(rows, CountOf(Arm(pred, IsTrue)), stack, t)
    requires Answered(rows, CountOf(Arm(pred, IsFalse)), stack, f)
    requires Answered(rows, CountOf(Arm(pred, IsNull)), stack, n)
    requires Answered(rows, CountOf(None), stack, whole)
    ensures SlotLaw(ScalarSumEq([t, f, n], whole), stack)
    ensures !Errored(stack, MetamorphicSlots(ScalarSumEq([t, f, n], whole)))
  {
    hide Answered, Where, Wrap, Moduli;
    var a := CountSlot(rows, Arm(pred, IsTrue), stack, t);
    var b := CountSlot(rows, Arm(pred, IsFalse), stack, f);
    var c := CountSlot(rows, Arm(pred, IsNull), stack, n);
    var w := CountSlot(rows, None, stack, whole);
    TotalOfThree(stack, t, f, n);
    ArmsCount(a, b, c, w, pred);
    WrapThree(|Where(a, Arm(pred, IsTrue))|, |Where(b, Arm(pred, IsFalse))|, |Where(c, Arm(pred, IsNull))|);
  }

  // ---- extremes ---------------------------------------------------------------------------------------------

  /** The extreme in terms of which rows there are, not where. */
  ghost predicate ExtremeAmong(has: iset<Row>, col: nat, max: bool, e: Option<I64>) {
    && (e.None? <==> forall r: Row :: r in has ==> !IntAt(r, col))
    && (e.Some? ==> exists r: Row :: r in has && IntAt(r, col) && r[col].i == e.value)
    && (e.Some? ==> forall r: Row :: r in has && IntAt(r, col) ==> Better(max, e.value, r[col].i))
  }

  lemma ExtremeByMembers(rows: seq<Row>, col: nat, max: bool, e: Option<I64>, has: iset<Row>)
    requires IsExtreme(rows, col, max, e)
    requires forall r: Row :: r in has <==> r in rows
    ensures ExtremeAmong(has, col, max, e)
  {
    forall r: Row | r in has && IntAt(r, col)
      ensures AnyInt(rows, col) && (e.Some? ==> Better(max, e.value, r[col].i))
    {
      var i :| 0 <= i < |rows| && rows[i] == r;
      assert IntAt(rows[i], col);
    }
    if e.Some? {
      var i :| 0 <= i < |rows| && IntAt(rows[i], col) && rows[i][col].i == e.value;
      assert rows[i] in has;
    }
  }

  /** The extreme of the extremes of the arms is the extreme of the whole. */
  lemma ExtremesCombine(t: iset<Row>, f: iset<Row>, n: iset<Row>, w: iset<Row>, col: nat, max: bool,
                        et: Option<I64>, ef: Option<I64>, en: Option<I64>, ew: Option<I64>)
    requires w == t + f + n
    requires ExtremeAmong(t, col, max, et) && ExtremeAmong(f, col, max, ef) && ExtremeAmong(n, col, max, en)
    requires ExtremeAmong(w, col, max, ew)
    ensures ew.None? <==> et.None? && ef.None? && en.None?
    ensures ew.Some? ==> (ew == et || ew == ef || ew == en)
    ensures ew.Some? ==> (et.Some? ==> Better(max, ew.value, et.value))
    ensures ew.Some? ==> (ef.Some? ==> Better(max, ew.value, ef.value))
    ensures ew.Some? ==> (en.Some? ==> Better(max, ew.value, en.value))
  {
    if ew.Some? {
      var r: Row :| r in w && IntAt(r, col) && r[col].i == ew.value;
      assert r in t || r in f || r in n;
    }
    if et.Some? { var r: Row :| r in t && IntAt(r, col) && r[col].i == et.value; assert r in w; }
    if ef.Some? { var r: Row :| r in f && IntAt(r, col) && r[col].i == ef.value; assert r in w; }
    if en.Some? { var r: Row :| r in n && IntAt(r, col) && r[col].i == en.value; assert r in w; }
  }

  ghost function Chosen(rows: multiset<Row>, f: Filter): iset<Row>
    requires GoodFilter(f)
  {
    iset r | r in rows && Selected(f, r)
  }

  lemma ChosenReassemble(rows: multiset<Row>, pred: Pred)
    requires Moduli(pred)
    ensures Chosen(rows, None)
         == Chosen(rows, Arm(pred, IsTrue)) + Chosen(rows, Arm(pred, IsFalse)) + Chosen(rows, Arm(pred, IsNull))
  {
    forall r
      ensures r in Chosen(rows, None) <==>
                r in Chosen(rows, Arm(pred, IsTrue)) + Chosen(rows, Arm(pred, IsFalse)) + Chosen(rows, Arm(pred, IsNull))
    {
      PartitionsExact(pred, r);
    }
  }

  lemma ExtremeSlot(rows: multiset<Row>, col: nat, f: Filter, max: bool, stack: Stack, slot: nat) returns (e: Option<I64>)
    requires GoodFilter(f) && Answered(rows, ExtremeOf(col, f, max), stack, slot)
    ensures ExtremeAmong(Chosen(rows, f), col, max, e) && HasNumber(stack, slot) && ScalarAt(stack, slot) == IntOrNull(e)
  {
    var a: seq<Row> :| multiset(a) == rows && AnswersIn(a, ExtremeOf(col, f, max), stack[slot]);
    e :| IsExtreme(Where(a, f), col, max, e) && stack[slot] == Scalar(IntOrNull(e));
    WhereKeeps(a, f);
    assert forall r :: r in a <==> r in multiset(a);
    ExtremeByMembers(Where(a, f), col, max, e, Chosen(rows, f));
  }

  lemma ScalarExtremePasses(rows: multiset<Row>, pred: Pred, col: nat, max: bool, stack: Stack, t: nat, f: nat, n: nat, whole: nat)
    requires Moduli(pred)
    requires Answered(rows, ExtremeOf(col, Arm(pred, IsTrue), max), stack, t)
    requires Answered(rows, ExtremeOf(col, Arm(pred, IsFalse), max), stack, f)
    requires Answered(rows, ExtremeOf(col, Arm(pred, IsNull), max), stack, n)
    requires Answered(rows, ExtremeOf(col, None, max), stack, whole)
    ensures SlotLaw(ScalarExtremeEq([t, f, n], whole, max), stack)
    ensures !Errored(stack, MetamorphicSlots(ScalarExtremeEq([t, f, n], whole, max)))
  {
    hide Answered, ExtremeAmong, ExtremeOfSlots, HasScalar, HasNumber, InPartition, Errored;
    var et := ExtremeSlot(rows, col, Arm(pred, IsTrue), max, stack, t);
    var ef := ExtremeSlot(rows, col, Arm(pred, IsFalse), max, stack, f);
    var en := ExtremeSlot(rows, col, Arm(pred, IsNull), max, stack, n);
    var ew := ExtremeSlot(rows, col, None, max, stack, whole);
    ChosenReassemble(rows, pred);
    ExtremesCombine(Chosen(rows, Arm(pred, IsTrue)), Chosen(rows, Arm(pred, IsFalse)), Chosen(rows, Arm(pred, IsNull)),
                    Chosen(rows, None), col, max, et, ef, en, ew);
    ThreeSlots(stack, t, f, n, max, et, ef, en, ew);
    NumbersAreRows(stack, t, f, n, whole);
  }

  lemma NumbersAreRows(stack: Stack, t: nat, f: nat, n: nat, whole: nat)
    requires HasNumber(stack, t) && HasNumber(stack, f) && HasNumber(stack, n) && HasNumber(stack, whole)
    ensures !Errored(stack, [t, f, n] + [whole])
  {
    FourHaveRows(stack, t, f, n, whole);
  }

  lemma ThreeSlots(stack: Stack, t: nat, f: nat, n: nat, max: bool, et: Option<I64>, ef: Option<I64>, en: Option<I64>, ew: Option<I64>)
    requires HasNumber(stack, t) && ScalarAt(stack, t) == IntOrNull(et)
    requires HasNumber(stack, f) && ScalarAt(stack, f) == IntOrNull(ef)
    requires HasNumber(stack, n) && ScalarAt(stack, n) == IntOrNull(en)
    requires ew.None? <==> et.None? && ef.None? && en.None?
    requires ew.Some? ==> (ew == et || ew == ef || ew == en)
    requires ew.Some? ==> (et.Some? ==> Better(max, ew.value, et.value)) && (ef.Some? ==> Better(max, ew.value, ef.value))
                          && (en.Some? ==> Better(max, ew.value, en.value))
    ensures AllNumbers(stack, [t, f, n]) && ExtremeOfSlots(stack, [t, f, n], max, IntOrNull(ew))
  {
    var slots := [t, f, n];
    assert slots[0] == t && slots[1] == f && slots[2] == n;
  }

  // ---- NoREC ------------------------------------------------------------------------------------------------

  /** A verdict counts exactly when the row is in the true arm. */
  lemma VerdictCounts(pred: Pred, row: Row)
    requires Moduli(pred)
    ensures IsTrueValue(Verdict(Eval3(pred, row))) <==> Selected(Arm(pred, IsTrue), row)
  {
    hide Eval3, Moduli;
    assert "t" != "f" && "f" != "true" && "t" != "true";
  }

  lemma {:induction false} ProjectionCountsTrue(order: seq<Row>, pred: Pred, out: seq<Row>)
    requires Moduli(pred) && |out| == |order|
    requires forall i :: 0 <= i < |order| ==> out[i] == [Verdict(Eval3(pred, order[i]))]
    ensures (forall r :: r in out ==> |r| == 1) && CountTrue(out) == |Where(order, Arm(pred, IsTrue))|
    decreases |order|
  {
    hide Eval3, Moduli, Verdict, IsTrueValue, Selected;
    if order != [] {
      assert forall i :: 0 <= i < |order[1..]| ==> out[1..][i] == [Verdict(Eval3(pred, order[1..][i]))];
      ProjectionCountsTrue(order[1..], pred, out[1..]);
      assert out == [out[0]] + out[1..];
      VerdictCounts(pred, order[0]);
    }
  }

  lemma NorecPasses(rows: multiset<Row>, pred: Pred, stack: Stack, optimized: nat, unoptimized: nat)
    requires Moduli(pred)
    requires Answered(rows, RowsWhere(Arm(pred, IsTrue)), stack, optimized)
    requires Answered(rows, PredProjection(pred), stack, unoptimized)
    ensures SlotLaw(NorecRowCountEq(optimized, unoptimized), stack)
    ensures !Errored(stack, MetamorphicSlots(NorecRowCountEq(optimized, unoptimized)))
  {
    hide Answered, Where, Moduli, CountTrue, Errored;
    var a := RowsSlot(rows, Arm(pred, IsTrue), stack, optimized);
    var b := ProjectionSlot(rows, pred, stack, unoptimized);
    SameCount(a, b, pred);
    assert !Errored(stack, [optimized, unoptimized]) by { NoneErrored(stack, [optimized, unoptimized]); }
  }

  lemma ProjectionSlot(rows: multiset<Row>, pred: Pred, stack: Stack, slot: nat) returns (order: seq<Row>)
    requires Moduli(pred) && Answered(rows, PredProjection(pred), stack, slot)
    ensures multiset(order) == rows && HasRows(stack, slot)
    ensures forall r :: r in stack[slot].rows ==> |r| == 1
    ensures CountTrue(stack[slot].rows) == |Where(order, Arm(pred, IsTrue))|
  {
    order :| multiset(order) == rows && AnswersIn(order, PredProjection(pred), stack[slot]);
    ProjectionCountsTrue(order, pred, stack[slot].rows);
  }

  lemma SameCount(a: seq<Row>, b: seq<Row>, pred: Pred)
    requires Moduli(pred) && multiset(a) == multiset(b)
    ensures |Where(a, Arm(pred, IsTrue))| == |Where(b, Arm(pred, IsTrue))|
  {
    var x, y := Where(a, Arm(pred, IsTrue)), Where(b, Arm(pred, IsTrue));
    WhereSame(a, b, Arm(pred, IsTrue));
    assert |x| == |multiset(x)| && |y| == |multiset(y)|;
  }

  // ---- the same question twice --------------------------------------------------------------------------------

  lemma {:induction false} ColumnConcat(a: seq<Row>, b: seq<Row>, col: nat)
    ensures Column(a + b, col) == Column(a, col) + Column(b, col)
    decreases |a|
  {
    if a == [] {
      assert a + b == b;
    } else {
      assert (a + b)[1..] == a[1..] + b;
      ColumnConcat(a[1..], b, col);
    }
  }

  function One(row: Row, col: nat): multiset<Row> { if col < |row| then multiset{[row[col]]} else multiset{} }

  lemma ColumnRemove(b: seq<Row>, k: nat, col: nat)
    requires k < |b|
    ensures multiset(Column(b, col)) == One(b[k], col) + multiset(Column(b[..k] + b[k + 1..], col))
  {
    assert b == b[..k] + ([b[k]] + b[k + 1..]);
    ColumnConcat(b[..k], [b[k]] + b[k + 1..], col);
    ColumnConcat(b[..k], b[k + 1..], col);
    assert ([b[k]] + b[k + 1..])[1..] == b[k + 1..];
  }

  /** The values of a column do not depend on the order of the rows. */
  lemma {:induction false} ColumnSame(a: seq<Row>, b: seq<Row>, col: nat)
    requires multiset(a) == multiset(b)
    ensures multiset(Column(a, col)) == multiset(Column(b, col))
    decreases |a|
  {
    assert |a| == |multiset(a)| && |b| == |multiset(b)|;
    if a != [] {
      assert a[0] in multiset(b);
      var k :| 0 <= k < |b| && b[k] == a[0];
      TailMultiset(a);
      RemoveOne(b, k);
      ColumnRemove(a, 0, col);
      assert a[..0] + a[1..] == a[1..];
      ColumnRemove(b, k, col);
      ColumnSame(a[1..], b[..k] + b[k + 1..], col);
    }
  }

  lemma ColumnSlot(rows: multiset<Row>, col: nat, doubled: bool, stack: Stack, slot: nat) returns (order: seq<Row>)
    requires Answered(rows, ColumnAll(col, doubled), stack, slot)
    ensures multiset(order) == rows && HasRows(stack, slot)
    ensures var once := multiset(Column(order, col)); multiset(stack[slot].rows) == if doubled then once + once else once
  {
    order :| multiset(order) == rows && AnswersIn(order, ColumnAll(col, doubled), stack[slot]);
  }

  lemma DoublingPasses(rows: multiset<Row>, col: nat, stack: Stack, single: nat, doubled: nat)
    requires Answered(rows, ColumnAll(col, false), stack, single)
    requires Answered(rows, ColumnAll(col, true), stack, doubled)
    ensures SlotLaw(UnionDoubling(single, doubled), stack)
  {
    hide Answered, Column;
    var a := ColumnSlot(rows, col, false, stack, single);
    var b := ColumnSlot(rows, col, true, stack, doubled);
    ColumnSame(a, b, col);
  }

  lemma MultisetPasses(rows: multiset<Row>, f: Filter, stack: Stack, a: nat, b: nat)
    requires GoodFilter(f) && Answered(rows, RowsWhere(f), stack, a) && Answered(rows, RowsWhere(f), stack, b)
    ensures SlotLaw(MultisetEq(a, b), stack)
  {
    hide Answered, Where;
    var x := RowsSlot(rows, f, stack, a);
    var y := RowsSlot(rows, f, stack, b);
    WhereSame(x, y, f);
  }

  lemma CountScalar(rows: multiset<Row>, f: Filter, stack: Stack, slot: nat) returns (order: seq<Row>)
    requires GoodFilter(f) && Answered(rows, CountOf(f), stack, slot)
    ensures multiset(order) == rows && HasScalar(stack, slot) && ScalarAt(stack, slot) == Int(Wrap(|Where(order, f)|))
  {
    hide Where, Wrap;
    order :| multiset(order) == rows && AnswersIn(order, CountOf(f), stack[slot]);
  }

  lemma CountPairPasses(rows: multiset<Row>, f: Filter, stack: Stack, a: nat, b: nat)
    requires GoodFilter(f) && Answered(rows, CountOf(f), stack, a) && Answered(rows, CountOf(f), stack, b)
    ensures SlotLaw(ScalarPairEq(a, b), stack)
  {
    hide Answered, Where, Wrap, HasScalar;
    var x := CountScalar(rows, f, stack, a);
    var y := CountScalar(rows, f, stack, b);
    WhereSame(x, y, f);
    SameSize(Where(x, f), Where(y, f));
  }

  lemma SameSize(a: seq<Row>, b: seq<Row>)
    requires multiset(a) == multiset(b)
    ensures |a| == |b|
  {
    assert |a| == |multiset(a)| && |b| == |multiset(b)|;
  }

  // ---- the same question to the ledger ----------------------------------------------------------------------------

  lemma LedgerTablePasses(tables: Tables, table: string, stack: Stack, slot: nat)
    requires table in tables && Answered(tables[table].rows, RowsWhere(None), stack, slot)
    ensures PlainLaw(LedgerTable(table, slot), stack, tables)
  {
    hide Answered, Where;
    var x := RowsSlot(tables[table].rows, None, stack, slot);
    WhereAll(x);
  }

  lemma LedgerCountPasses(tables: Tables, table: string, stack: Stack, slot: nat)
    requires table in tables && Answered(tables[table].rows, CountOf(None), stack, slot)
    ensures PlainLaw(CountMatchesLedger(table, slot), stack, tables)
  {
    hide Answered, Where, Wrap;
    var x := CountScalar(tables[table].rows, None, stack, slot);
    WhereAll(x);
    assert |x| == |multiset(x)|;
  }

  // ---- the oracle against the engine double -----------------------------------------------------------------

  /** What a partition check asks of the three arms and of the whole. */
  datatype Question = AllRowsOf | HowMany | DistinctValues(col: nat) | SumOfValues(col: nat) | ExtremeValue(col: nat, max: bool)

  function SpecOf(q: Question, f: Filter): ProbeSpec {
    match q
    case AllRowsOf => RowsWhere(f)
    case DistinctValues(col) => DistinctCol(col, f)
    case HowMany => CountOf(f)
    case SumOfValues(col) => SumOf(col, f)
    case ExtremeValue(col, max) => ExtremeOf(col, f, max)
  }

  function CheckOf(q: Question, parts: seq<nat>, whole: nat): Check {
    match q
    case AllRowsOf => PartitionUnionEq(parts, whole)
    case DistinctValues(_) => DistinctUnionEq(parts, whole)
    case HowMany => ScalarSumEq(parts, whole)
    case SumOfValues(_) => ScalarSumEq(parts, whole)
    case ExtremeValue(_, max) => ScalarExtremeEq(parts, whole, max)
  }

  lemma PartitionPasses(rows: multiset<Row>, pred: Pred, q: Question, stack: Stack, t: nat, f: nat, n: nat, whole: nat)
    requires Moduli(pred)
    requires Answered(rows, SpecOf(q, Arm(pred, IsTrue)), stack, t)
    requires Answered(rows, SpecOf(q, Arm(pred, IsFalse)), stack, f)
    requires Answered(rows, SpecOf(q, Arm(pred, IsNull)), stack, n)
    requires Answered(rows, SpecOf(q, None), stack, whole)
    ensures var check := CheckOf(q, [t, f, n], whole); SlotLaw(check, stack) && !Errored(stack, MetamorphicSlots(check))
  {
    hide Answered, SlotLaw, Errored, MetamorphicSlots;
    match q
    case AllRowsOf => PartitionUnionPasses(rows, pred, stack, t, f, n, whole);
    case DistinctValues(col) => DistinctUnionPasses(rows, pred, col, stack, t, f, n, whole);
    case HowMany => CountSumPasses(rows, pred, stack, t, f, n, whole);
    case SumOfValues(col) => ScalarSumPasses(rows, pred, col, stack, t, f, n, whole);
    case ExtremeValue(col, max) => ScalarExtremePasses(rows, pred, col, max, stack, t, f, n, whole);
  }

  /** Probe the arms and the whole of a ledger table and check them against each other: no false alarm. */
  method CheckPartitions(tables: Tables, table: string, order: seq<Row>, pred: Pred, q: Question) returns (out: CheckOutcome)
    requires table in tables && multiset(order) == tables[table].rows && Moduli(pred)
    requires q.DistinctValues? ==> forall r :: r in order ==> q.col < |r|
    ensures out == Pass
  {
    hide Answers, SlotLaw, Errored, MetamorphicSlots;
    var t := AnswerProbe(tables, table, order, SpecOf(q, Arm(pred, IsTrue)));
    var f := AnswerProbe(tables, table, order, SpecOf(q, Arm(pred, IsFalse)));
    var n := AnswerProbe(tables, table, order, SpecOf(q, Arm(pred, IsNull)));
    var whole := AnswerProbe(tables, table, order, SpecOf(q, None));
    var stack: Stack := map[0 := t, 1 := f, 2 := n, 3 := whole];
    PartitionPasses(tables[table].rows, pred, q, stack, 0, 1, 2, 3);
    out := EvalCheck(CheckOf(q, [0, 1, 2], 3), stack, tables, {});
  }

  /** Filter rows in the statement, or count the verdicts outside it: no false alarm. */
  method CheckNorec(tables: Tables, table: string, order: seq<Row>, pred: Pred) returns (out: CheckOutcome)
    requires table in tables && multiset(order) == tables[table].rows && Moduli(pred)
    ensures out == Pass
  {
    hide Answers, SlotLaw, Errored, MetamorphicSlots;
    var optimized := AnswerProbe(tables, table, order, RowsWhere(Arm(pred, IsTrue)));
    var unoptimized := AnswerProbe(tables, table, order, PredProjection(pred));
    var stack: Stack := map[0 := optimized, 1 := unoptimized];
    NorecPasses(tables[table].rows, pred, stack, 0, 1);
    out := EvalCheck(NorecRowCountEq(0, 1), stack, tables, {});
  }

  // ---- checks over what has been asked --------------------------------------------------------------------------

  /** The probe whose answer a slot holds, with its table. */
  type Asked = map<nat, (string, ProbeSpec)>

  ghost predicate AskedFor(asked: Asked, slot: nat, table: string, spec: ProbeSpec) {
    slot in asked && asked[slot] == (table, spec)
  }

  /** How a check may be put to the answers. */
  datatype Pose =
    | Partition(pred: Pred, q: Question)
    | Norec(pred: Pred)
    | SameRows(f: Filter)
    | SameCounts(f: Filter)
    | Twice(col: nat)
    | AgainstLedger

  ghost predicate PosedBy(check: Check, asked: Asked, table: string, pose: Pose) {
    match pose
    case Partition(pred, q) =>
      && Moduli(pred) && (check.PartitionUnionEq? || check.DistinctUnionEq? || check.ScalarSumEq? || check.ScalarExtremeEq?)
      && |check.parts| == 3 && check == CheckOf(q, check.parts, check.whole)
      && AskedFor(asked, check.parts[0], table, SpecOf(q, Arm(pred, IsTrue)))
      && AskedFor(asked, check.parts[1], table, SpecOf(q, Arm(pred, IsFalse)))
      && AskedFor(asked, check.parts[2], table, SpecOf(q, Arm(pred, IsNull)))
      && AskedFor(asked, check.whole, table, SpecOf(q, None))
    case Norec(pred) =>
      && Moduli(pred) && check.NorecRowCountEq? && AskedFor(asked, check.optimized, table, RowsWhere(Arm(pred, IsTrue)))
      && AskedFor(asked, check.unoptimized, table, PredProjection(pred))
    case SameRows(f) =>
      GoodFilter(f) && check.MultisetEq? && AskedFor(asked, check.a, table, RowsWhere(f)) && AskedFor(asked, check.b, table, RowsWhere(f))
    case SameCounts(f) =>
      GoodFilter(f) && check.ScalarPairEq? && AskedFor(asked, check.a, table, CountOf(f)) && AskedFor(asked, check.b, table, CountOf(f))
    case Twice(col) =>
      && check.UnionDoubling? && AskedFor(asked, check.single, table, ColumnAll(col, false))
      && AskedFor(asked, check.doubled, table, ColumnAll(col, true))
    case AgainstLedger =>
      || (check.LedgerTable? && check.table == table && AskedFor(asked, check.slot, table, RowsWhere(None)))
      || (check.CountMatchesLedger? && check.table == table && AskedFor(asked, check.slot, table, CountOf(None)))
  }

  /** Every slot asked about an existing table holds a correct answer over its present rows. */
  ghost predicate AllAnswered(tables: Tables, asked: Asked, stack: Stack) {
    forall slot :: slot in asked && asked[slot].0 in tables && GoodSpec(asked[slot].1) ==>
      Answered(tables[asked[slot].0].rows, asked[slot].1, stack, slot)
  }

  lemma NothingWatched(check: Check, stack: Stack)
    requires !Watched(check)
    ensures !Errored(stack, MetamorphicSlots(check))
  {
  }

  /** A slot law is the whole law of a check that reads several slots. */
  lemma SlotsOnly(check: Check, stack: Stack, tables: Tables)
    requires |ReadSlots(check)| > 1 && SlotLaw(check, stack)
    ensures Law(check, stack, tables)
  {
    hide SlotLaw;
  }

  lemma LedgerOnly(check: Check, stack: Stack, tables: Tables)
    requires (check.LedgerTable? || check.CountMatchesLedger?) && PlainLaw(check, stack, tables)
    ensures Law(check, stack, tables)
  {
    hide PlainLaw;
  }

  lemma PartitionPosed(tables: Tables, asked: Asked, stack: Stack, check: Check, table: string, pred: Pred, q: Question)
    requires AllAnswered(tables, asked, stack) && table in tables && PosedBy(check, asked, table, Partition(pred, q))
    ensures Law(check, stack, tables) && !Errored(stack, MetamorphicSlots(check))
  {
    hide Answered, SlotLaw, Law, Errored, Moduli;
    assert check.parts == [check.parts[0], check.parts[1], check.parts[2]];
    PartitionPasses(tables[table].rows, pred, q, stack, check.parts[0], check.parts[1], check.parts[2], check.whole);
    SlotsOnly(check, stack, tables);
  }

  lemma LedgerPosed(tables: Tables, asked: Asked, stack: Stack, check: Check, table: string)
    requires AllAnswered(tables, asked, stack) && table in tables && PosedBy(check, asked, table, AgainstLedger)
    ensures Law(check, stack, tables)
  {
    hide Answered, Law, SlotLaw;
    if check.LedgerTable? { LedgerTablePasses(tables, table, stack, check.slot); }
    else { LedgerCountPasses(tables, table, stack, check.slot); }
    LedgerOnly(check, stack, tables);
  }

  lemma PairPosed(tables: Tables, asked: Asked, stack: Stack, check: Check, table: string, pose: Pose)
    requires AllAnswered(tables, asked, stack) && table in tables && PosedBy(check, asked, table, pose)
    requires !pose.Partition? && !pose.AgainstLedger?
    ensures Law(check, stack, tables) && (Watched(check) ==> !Errored(stack, MetamorphicSlots(check)))
  {
    hide Answered, SlotLaw, Law, Errored, Moduli;
    var rows := tables[table].rows;
    match pose {
      case Norec(pred) => NorecPasses(rows, pred, stack, check.optimized, check.unoptimized);
      case SameRows(f) => MultisetPasses(rows, f, stack, check.a, check.b);
      case SameCounts(f) => CountPairPasses(rows, f, stack, check.a, check.b);
      case Twice(col) => DoublingPasses(rows, col, stack, check.single, check.doubled);
    }
    SlotsOnly(check, stack, tables);
  }

  /** Against correct answers every check that is put to them passes. */
  lemma PosedPasses(tables: Tables, asked: Asked, stack: Stack, check: Check, table: string, pose: Pose)
    requires AllAnswered(tables, asked, stack) && table in tables && PosedBy(check, asked, table, pose)
    ensures Law(check, stack, tables) && !Errored(stack, MetamorphicSlots(check)) && forall hooks :: !NoHook(check, hooks)
  {
    assert !check.HookPresent? && !check.HookBaseline?;
    hide AllAnswered, Law, Errored, MetamorphicSlots, Moduli;
    if !Watched(check) { NothingWatched(check, stack); }
    match pose
    case Partition(pred, q) => PartitionPosed(tables, asked, stack, check, table, pred, q);
    case AgainstLedger => LedgerPosed(tables, asked, stack, check, table);
    case _ => PairPosed(tables, asked, stack, check, table, pose);
  }
}
