/** What a check sees: one answer replaced by another, everything else as it was. */
module Detection {
  import opened Common
  import opened Ledger
  import opened Probe
  import opened Check
  import M = Metamorphic

  /** The single value of a result. */
  function ScalarOf(r: StmtResult): Option<Value> {
    if r.Rows? && |r.rows| == 1 && |r.rows[0]| == 1 then Some(r.rows[0][0]) else None
  }

  /** The number a result stands for, a null counting as zero. */
  function NumberOf(r: StmtResult): Option<I64> {
    match ScalarOf(r)
    case Some(Int(i)) => Some(i)
    case Some(Null) => Some(0)
    case _ => None
  }

  predicate Numeric(v: Option<Value>) { v.Some? && (v.value.Int? || v.value.Null?) }

  /** The part of an answer a check looks at is the same in both. */
  ghost predicate Alike(check: Check, slot: nat, was: StmtResult, r: StmtResult) {
    match check
    case PartitionUnionEq(_, _) => r.Rows? && was.Rows? && multiset(r.rows) == multiset(was.rows)
    case MultisetEq(_, _) => r.Rows? && was.Rows? && multiset(r.rows) == multiset(was.rows)
    case UnionDoubling(_, _) => r.Rows? && was.Rows? && multiset(r.rows) == multiset(was.rows)
    case LedgerTable(_, _) => r.Rows? && was.Rows? && multiset(r.rows) == multiset(was.rows)
    case DistinctUnionEq(_, _) => r.Rows? && was.Rows? && RowSet(r.rows) == RowSet(was.rows)
    case ScalarSumEq(_, _) => NumberOf(r).Some? && NumberOf(r) == NumberOf(was)
    case CountMatchesLedger(_, _) => NumberOf(r).Some? && NumberOf(r) == NumberOf(was)
    case ScalarExtremeEq(_, _, _) => Numeric(ScalarOf(r)) && ScalarOf(r) == ScalarOf(was)
    case ScalarPairEq(_, _) => ScalarOf(r).Some? && ScalarOf(r) == ScalarOf(was)
    case HookBaseline(_, _, _) => ScalarOf(r).Some? && ScalarOf(r) == ScalarOf(was)
    case ScalarEq(_, _) => ScalarOf(r).Some? && ScalarOf(r) == ScalarOf(was)
    case NorecRowCountEq(optimized, _) =>
      if slot == optimized then r.Rows? && was.Rows? && |r.rows| == |was.rows|
      else
        && r.Rows? && (forall row :: row in r.rows ==> |row| == 1)
        && was.Rows? && (forall row :: row in was.rows ==> |row| == 1)
        && CountTrue(r.rows) == CountTrue(was.rows)
    case RowCountEq(_, _) => r.Rows? && was.Rows? && |r.rows| == |was.rows|
    case CardLe(_, count) => r.Rows? && |r.rows| <= count
    case SqlStateClass(_, _) => r.Error? && was.Error? && Class(r.sqlstate) == Class(was.sqlstate)
    case StmtOk(_) => !r.Error?
    case RowsEq(_, _) => r == was
    case CmdCountEq(_, _) => r == was
    case HookPresent(_) => true
  }

  /** The slot is the k-th one read, and no other is the same. */
  predicate OnlyAt(slots: seq<nat>, k: nat, slot: nat) {
    k < |slots| && forall i :: 0 <= i < |slots| ==> (slots[i] == slot <==> i == k)
  }

  /** The slot is read once, and not as one of several whose values may cover each other. */
  ghost predicate Exposed(check: Check, slot: nat) {
    && (exists k: nat :: OnlyAt(ReadSlots(check), k, slot))
    && (check.DistinctUnionEq? || check.ScalarExtremeEq? ==> slot == check.whole)
  }

  // ---- rows --------------------------------------------------------------------------------------------------------

  lemma AllRowsConcat(stack: Stack, a: seq<nat>, b: seq<nat>)
    ensures AllRows(stack, a + b) <==> AllRows(stack, a) && AllRows(stack, b)
  {
    hide HasRows;
    assert forall i :: 0 <= i < |a| ==> (a + b)[i] == a[i];
    assert forall i :: 0 <= i < |b| ==> (a + b)[|a| + i] == b[i];
  }

  lemma {:induction false} UnionConcat(stack: Stack, a: seq<nat>, b: seq<nat>)
    ensures AllRows(stack, a + b) <==> AllRows(stack, a) && AllRows(stack, b)
    ensures AllRows(stack, a + b) ==> Union(stack, a + b) == Union(stack, a) + Union(stack, b)
    decreases |a|
  {
    hide HasRows;
    AllRowsConcat(stack, a, b);
    if a == [] {
      assert a + b == b;
    } else if AllRows(stack, a + b) {
      assert (a + b)[1..] == a[1..] + b;
      UnionConcat(stack, a[1..], b);
    }
  }

  lemma {:induction false} UnionSame(stack: Stack, slots: seq<nat>, slot: nat, r: StmtResult)
    requires slot !in slots
    ensures AllRows(stack[slot := r], slots) <==> AllRows(stack, slots)
    ensures AllRows(stack, slots) ==> Union(stack[slot := r], slots) == Union(stack, slots)
    decreases |slots|
  {
    if slots != [] { UnionSame(stack, slots[1..], slot, r); }
  }

  lemma UnionAround(stack: Stack, before: seq<nat>, slot: nat, after: seq<nat>)
    ensures AllRows(stack, before + [slot] + after)
       <==> AllRows(stack, before) && HasRows(stack, slot) && AllRows(stack, after)
    ensures AllRows(stack, before + [slot] + after) ==>
              Union(stack, before + [slot] + after) == Union(stack, before) + stack[slot].rows + Union(stack, after)
  {
    UnionConcat(stack, before, [slot]);
    UnionConcat(stack, before + [slot], after);
    assert [slot][0] == slot && [slot][1..] == [];
    if HasRows(stack, slot) { assert AllRows(stack, [slot]) && Union(stack, [slot]) == stack[slot].rows; }
  }

  /** What the union gains and loses. */
  lemma UnionChanged(stack: Stack, slots: seq<nat>, k: nat, slot: nat, r: StmtResult)
    requires OnlyAt(slots, k, slot) && AllRows(stack, slots)
    ensures AllRows(stack[slot := r], slots) <==> r.Rows?
    ensures HasRows(stack, slot)
    ensures r.Rows? ==> var now, was := multiset(Union(stack[slot := r], slots)), multiset(Union(stack, slots));
                        now + multiset(stack[slot].rows) == was + multiset(r.rows)
  {
    var other := stack[slot := r];
    var before, after := slots[..k], slots[k + 1..];
    assert slots == before + [slot] + after;
    assert slot !in before && slot !in after;
    hide AllRows, Union;
    UnionAround(stack, before, slot, after);
    UnionAround(other, before, slot, after);
    UnionSame(stack, before, slot, r);
    UnionSame(stack, after, slot, r);
  }

  lemma Cancel<T>(a: multiset<T>, b: multiset<T>, c: multiset<T>, d: multiset<T>)
    requires a + b == c + d
    ensures a == c <==> b == d
  {
    if a == c { assert b == (a + b) - a && d == (c + d) - c; }
    if b == d { assert a == (a + b) - b && c == (c + d) - d; }
  }

  lemma PartitionSees(check: Check, stack: Stack, k: nat, slot: nat, r: StmtResult)
    requires check.PartitionUnionEq? && slot in stack && SlotLaw(check, stack) && OnlyAt(ReadSlots(check), k, slot)
    ensures SlotLaw(check, stack[slot := r]) <==> Alike(check, slot, stack[slot], r)
  {
    var parts, whole := check.parts, check.whole;
    var slots := parts + [whole];
    assert slots[|parts|] == whole && forall i :: 0 <= i < |parts| ==> slots[i] == parts[i];
    hide AllRows, Union;
    if k == |parts| {
      assert slot !in parts;
      UnionSame(stack, parts, slot, r);
    } else {
      UnionChanged(stack, parts, k, slot, r);
      if r.Rows? {
        var now, was := multiset(Union(stack[slot := r], parts)), multiset(Union(stack, parts));
        Cancel(now, multiset(stack[slot].rows), was, multiset(r.rows));
      }
    }
  }

  lemma DistinctSees(check: Check, stack: Stack, slot: nat, r: StmtResult)
    requires check.DistinctUnionEq? && slot == check.whole && slot !in check.parts
    requires slot in stack && SlotLaw(check, stack)
    ensures SlotLaw(check, stack[slot := r]) <==> Alike(check, slot, stack[slot], r)
  {
    hide AllRows, Union, RowSet;
    UnionSame(stack, check.parts, slot, r);
  }

  // ---- numbers -----------------------------------------------------------------------------------------------------

  lemma NumberSame(stack: Stack, slot: nat)
    ensures HasNumber(stack, slot) <==> slot in stack && NumberOf(stack[slot]).Some?
    ensures HasNumber(stack, slot) ==> NumberOf(stack[slot]) == Some(NumberAt(stack, slot))
  {
  }

  lemma {:induction false} TotalConcat(stack: Stack, a: seq<nat>, b: seq<nat>)
    ensures AllNumbers(stack, a + b) <==> AllNumbers(stack, a) && AllNumbers(stack, b)
    ensures AllNumbers(stack, a + b) ==> Total(stack, a + b) == Total(stack, a) + Total(stack, b)
    decreases |a|
  {
    hide HasNumber, NumberAt;
    assert forall i :: 0 <= i < |a| ==> (a + b)[i] == a[i];
    assert forall i :: 0 <= i < |b| ==> (a + b)[|a| + i] == b[i];
    if a == [] {
      assert a + b == b;
    } else {
      assert (a + b)[1..] == a[1..] + b;
      TotalConcat(stack, a[1..], b);
    }
  }

  lemma {:induction false} TotalSame(stack: Stack, slots: seq<nat>, slot: nat, r: StmtResult)
    requires slot !in slots
    ensures AllNumbers(stack[slot := r], slots) <==> AllNumbers(stack, slots)
    ensures AllNumbers(stack, slots) ==> Total(stack[slot := r], slots) == Total(stack, slots)
    decreases |slots|
  {
    if slots != [] { TotalSame(stack, slots[1..], slot, r); }
  }

  lemma TotalAround(stack: Stack, before: seq<nat>, slot: nat, after: seq<nat>)
    ensures AllNumbers(stack, before + [slot] + after)
       <==> AllNumbers(stack, before) && HasNumber(stack, slot) && AllNumbers(stack, after)
    ensures var all := before + [slot] + after;
            AllNumbers(stack, all) ==>
              Total(stack, all) == Total(stack, before) + NumberAt(stack, slot) + Total(stack, after)
  {
    hide HasNumber, NumberAt;
    TotalConcat(stack, before, [slot]);
    TotalConcat(stack, before + [slot], after);
    assert [slot][0] == slot && [slot][1..] == [];
    if HasNumber(stack, slot) { assert AllNumbers(stack, [slot]) && Total(stack, [slot]) == NumberAt(stack, slot); }
  }

  lemma TotalChanged(stack: Stack, slots: seq<nat>, k: nat, slot: nat, r: StmtResult)
    requires OnlyAt(slots, k, slot) && AllNumbers(stack, slots)
    ensures var other := stack[slot := r];
            && HasNumber(stack, slot) && (AllNumbers(other, slots) <==> HasNumber(other, slot))
            && (HasNumber(other, slot) ==>
                  Total(other, slots) - NumberAt(other, slot) == Total(stack, slots) - NumberAt(stack, slot))
  {
    var other := stack[slot := r];
    var before, after := slots[..k], slots[k + 1..];
    assert slots == before + [slot] + after;
    assert slot !in before && slot !in after;
    hide AllNumbers, Total, HasNumber, NumberAt;
    TotalAround(stack, before, slot, after);
    TotalAround(other, before, slot, after);
    TotalSame(stack, before, slot, r);
    TotalSame(stack, after, slot, r);
  }

  /** Numbers of 64 bits that differ, differ after wrapping too. */
  lemma WrapApart(x: int, i: I64, j: I64)
    ensures Wrap(x + i) == Wrap(x + j) <==> i == j
  {
    var m := 0x1_0000_0000_0000_0000;
    var p, q := (x + i + 0x8000_0000_0000_0000) / m, (x + j + 0x8000_0000_0000_0000) / m;
    assert Wrap(x + i) == x + i - p * m && Wrap(x + j) == x + j - q * m;
    if Wrap(x + i) == Wrap(x + j) {
      assert i - j == (p - q) * m;
    }
  }

  lemma SumSees(check: Check, stack: Stack, k: nat, slot: nat, r: StmtResult)
    requires check.ScalarSumEq? && slot in stack && SlotLaw(check, stack) && OnlyAt(ReadSlots(check), k, slot)
    ensures SlotLaw(check, stack[slot := r]) <==> Alike(check, slot, stack[slot], r)
  {
    var parts, whole := check.parts, check.whole;
    var slots, other := parts + [whole], stack[slot := r];
    assert slots[|parts|] == whole && forall i :: 0 <= i < |parts| ==> slots[i] == parts[i];
    NumberSame(stack, slot);
    NumberSame(other, slot);
    hide AllNumbers, Total, Wrap, NumberOf;
    if k == |parts| {
      assert slot !in parts;
      TotalSame(stack, parts, slot, r);
    } else {
      TotalChanged(stack, parts, k, slot, r);
      if HasNumber(other, slot) {
        WrapApart(Total(stack, parts) - NumberAt(stack, slot), NumberAt(other, slot), NumberAt(stack, slot));
      }
    }
  }

  lemma {:induction false} NumbersSame(stack: Stack, slots: seq<nat>, slot: nat, r: StmtResult, max: bool, v: Value)
    requires slot !in slots && AllNumbers(stack, slots)
    ensures AllNumbers(stack[slot := r], slots)
    ensures ExtremeOfSlots(stack[slot := r], slots, max, v) <==> ExtremeOfSlots(stack, slots, max, v)
  {
    var other := stack[slot := r];
    assert forall i :: 0 <= i < |slots| ==> HasNumber(other, slots[i]);
    assert forall i :: 0 <= i < |slots| ==> ScalarAt(other, slots[i]) == ScalarAt(stack, slots[i]);
  }

  lemma ExtremeSees(check: Check, stack: Stack, slot: nat, r: StmtResult)
    requires check.ScalarExtremeEq? && slot == check.whole && slot !in check.parts
    requires slot in stack && SlotLaw(check, stack)
    ensures SlotLaw(check, stack[slot := r]) <==> Alike(check, slot, stack[slot], r)
  {
    var other := stack[slot := r];
    var v := ScalarAt(stack, slot);
    hide AllNumbers, ExtremeOfSlots;
    NumbersSame(stack, check.parts, slot, r, check.max, v);
    if HasNumber(other, slot) {
      var w := ScalarAt(other, slot);
      NumbersSame(stack, check.parts, slot, r, check.max, w);
      ExtremeUnique(stack, check.parts, check.max, v, w);
    }
  }

  // ---- two slots, one slot -----------------------------------------------------------------------------------------

  lemma DoublingSees(check: Check, stack: Stack, slot: nat, r: StmtResult)
    requires check.UnionDoubling? && slot in stack && SlotLaw(check, stack) && check.single != check.doubled
    requires slot == check.single || slot == check.doubled
    ensures SlotLaw(check, stack[slot := r]) <==> Alike(check, slot, stack[slot], r)
  {
    if r.Rows? && slot == check.single { Halves(multiset(r.rows), multiset(stack[slot].rows)); }
  }

  lemma Halves<T>(a: multiset<T>, b: multiset<T>)
    ensures a + a == b + b <==> a == b
  {
    if a + a == b + b {
      forall x: T | true
        ensures a[x] == b[x]
      {
        assert (a + a)[x] == 2 * a[x] && (b + b)[x] == 2 * b[x];
      }
    }
  }

  lemma ScalarsSee(check: Check, stack: Stack, slot: nat, r: StmtResult)
    requires check.ScalarPairEq? || check.HookBaseline?
    requires ReadSlots(check)[0] != ReadSlots(check)[1] && slot in ReadSlots(check)
    requires slot in stack && SlotLaw(check, stack)
    ensures SlotLaw(check, stack[slot := r]) <==> Alike(check, slot, stack[slot], r)
  {
    hide AllRows, AllNumbers, Union, Total, ExtremeOfSlots, RowSet, CountTrue;
  }

  lemma MultisetSees(check: Check, stack: Stack, slot: nat, r: StmtResult)
    requires check.MultisetEq? && check.a != check.b && (slot == check.a || slot == check.b)
    requires slot in stack && SlotLaw(check, stack)
    ensures SlotLaw(check, stack[slot := r]) <==> Alike(check, slot, stack[slot], r)
  {
    hide AllRows, AllNumbers, Union, Total, ExtremeOfSlots, RowSet, CountTrue;
  }

  lemma NorecSees(check: Check, stack: Stack, slot: nat, r: StmtResult)
    requires check.NorecRowCountEq? && check.optimized != check.unoptimized
    requires slot == check.optimized || slot == check.unoptimized
    requires slot in stack && SlotLaw(check, stack)
    ensures SlotLaw(check, stack[slot := r]) <==> Alike(check, slot, stack[slot], r)
  {
    hide AllRows, AllNumbers, Union, Total, ExtremeOfSlots, RowSet, CountTrue;
  }

  lemma RowsSee(check: Check, stack: Stack, tables: Tables, slot: nat, r: StmtResult)
    requires check.RowCountEq? || check.CardLe? || check.RowsEq? || check.CmdCountEq? || check.LedgerTable?
    requires slot == check.slot && slot in stack && PlainLaw(check, stack, tables)
    ensures PlainLaw(check, stack[slot := r], tables) <==> Alike(check, slot, stack[slot], r)
  {
  }

  lemma ValuesSee(check: Check, stack: Stack, tables: Tables, slot: nat, r: StmtResult)
    requires check.ScalarEq? || check.SqlStateClass? || check.StmtOk? || check.CountMatchesLedger?
    requires slot == check.slot && slot in stack && PlainLaw(check, stack, tables)
    ensures PlainLaw(check, stack[slot := r], tables) <==> Alike(check, slot, stack[slot], r)
  {
    hide Wrap;
    if check.CountMatchesLedger? {
      NumberSame(stack, slot);
      NumberSame(stack[slot := r], slot);
    }
  }

  // ---- every check -------------------------------------------------------------------------------------------------

  predicate OfSlots(check: Check) {
    || |ReadSlots(check)| > 1
    || check.PartitionUnionEq? || check.DistinctUnionEq? || check.ScalarSumEq? || check.ScalarExtremeEq?
  }

  lemma SlotsSee(check: Check, stack: Stack, k: nat, slot: nat, r: StmtResult)
    requires OfSlots(check) && slot in stack && SlotLaw(check, stack) && OnlyAt(ReadSlots(check), k, slot)
    requires check.DistinctUnionEq? || check.ScalarExtremeEq? ==> slot == check.whole
    ensures SlotLaw(check, stack[slot := r]) <==> Alike(check, slot, stack[slot], r)
  {
    hide SlotLaw, Alike;
    if check.PartitionUnionEq? {
      PartitionSees(check, stack, k, slot, r);
    } else if check.ScalarSumEq? {
      SumSees(check, stack, k, slot, r);
    } else if check.DistinctUnionEq? || check.ScalarExtremeEq? {
      WholeIsLast(check, k);
      if check.DistinctUnionEq? { DistinctSees(check, stack, slot, r); } else { ExtremeSees(check, stack, slot, r); }
    } else {
      assert ReadSlots(check)[0] != ReadSlots(check)[1];
      if check.UnionDoubling? {
        DoublingSees(check, stack, slot, r);
      } else if check.MultisetEq? {
        MultisetSees(check, stack, slot, r);
      } else if check.NorecRowCountEq? {
        NorecSees(check, stack, slot, r);
      } else {
        ScalarsSee(check, stack, slot, r);
      }
    }
  }

  lemma WholeIsLast(check: Check, k: nat)
    requires (check.DistinctUnionEq? || check.ScalarExtremeEq?) && OnlyAt(ReadSlots(check), k, check.whole)
    ensures check.whole !in check.parts
  {
    var slots := check.parts + [check.whole];
    assert slots[|check.parts|] == check.whole && forall i :: 0 <= i < |check.parts| ==> slots[i] == check.parts[i];
  }

  lemma PlainSees(check: Check, stack: Stack, tables: Tables, slot: nat, r: StmtResult)
    requires !OfSlots(check) && !check.HookPresent? && slot == check.slot
    requires slot in stack && PlainLaw(check, stack, tables)
    ensures PlainLaw(check, stack[slot := r], tables) <==> Alike(check, slot, stack[slot], r)
  {
    hide PlainLaw, Alike;
    if check.ScalarEq? || check.SqlStateClass? || check.StmtOk? || check.CountMatchesLedger? {
      ValuesSee(check, stack, tables, slot, r);
    } else {
      RowsSee(check, stack, tables, slot, r);
    }
  }

  lemma LawParts(check: Check, stack: Stack, tables: Tables)
    ensures OfSlots(check) ==> PlainLaw(check, stack, tables)
    ensures !OfSlots(check) ==> SlotLaw(check, stack)
  {
    hide AllRows, AllNumbers, Union, Total, ExtremeOfSlots, RowSet, CountTrue, HasRows, HasNumber, HasScalar, Wrap;
  }

  lemma OneSlot(check: Check, slot: nat)
    requires !OfSlots(check) && exists k: nat :: OnlyAt(ReadSlots(check), k, slot)
    ensures !check.HookPresent? && check.slot == slot
  {
    var k: nat :| OnlyAt(ReadSlots(check), k, slot);
    assert ReadSlots(check)[k] == slot;
  }

  /** A check that held still holds after one answer is replaced if and only if what it looks at there is the same. */
  lemma ChangedAnswer(check: Check, stack: Stack, tables: Tables, slot: nat, r: StmtResult)
    requires Law(check, stack, tables) && slot in stack && Exposed(check, slot)
    ensures Law(check, stack[slot := r], tables) <==> Alike(check, slot, stack[slot], r)
  {
    hide SlotLaw, PlainLaw, Alike, OfSlots, ReadSlots;
    LawParts(check, stack[slot := r], tables);
    if OfSlots(check) {
      var k: nat :| OnlyAt(ReadSlots(check), k, slot);
      SlotsSee(check, stack, k, slot, r);
    } else {
      OneSlot(check, slot);
      PlainSees(check, stack, tables, slot, r);
    }
  }

  /** One answer of an otherwise correct engine: the law holds if and only if it is alike to the correct answer. */
  lemma OneWrongAnswer(tables: Tables, asked: M.Asked, stack: Stack, check: Check, table: string, pose: M.Pose,
                       slot: nat, r: StmtResult)
    requires M.AllAnswered(tables, asked, stack) && table in tables && M.PosedBy(check, asked, table, pose)
    requires slot in stack && Exposed(check, slot)
    ensures Law(check, stack[slot := r], tables) <==> Alike(check, slot, stack[slot], r)
  {
    hide *;
    M.PosedPasses(tables, asked, stack, check, table, pose);
    ChangedAnswer(check, stack, tables, slot, r);
  }

  lemma ErroredOnlyThere(check: Check, stack: Stack, slot: nat, r: StmtResult)
    requires !Errored(stack, MetamorphicSlots(check)) && slot in ReadSlots(check)
    ensures Errored(stack[slot := r], MetamorphicSlots(check)) <==> Watched(check) && r.Error?
  {
    var slots := MetamorphicSlots(check);
    hide ReadSlots;
    if Watched(check) && r.Error? {
      var i :| 0 <= i < |slots| && slots[i] == slot;
    }
  }

  /** The same, of the outcome: an answer not alike is reported, unless it is an error and the check skips errors. */
  method JudgeChanged(tables: Tables, ghost asked: M.Asked, stack: Stack, check: Check, table: string,
                      ghost pose: M.Pose, slot: nat, r: StmtResult, hooks: set<HookKind>) returns (out: CheckOutcome)
    requires M.AllAnswered(tables, asked, stack) && table in tables && M.PosedBy(check, asked, table, pose)
    requires slot in stack && Exposed(check, slot)
    ensures out == SkipInapplicable <==> Watched(check) && r.Error?
    ensures out == Pass <==> !(Watched(check) && r.Error?) && Alike(check, slot, stack[slot], r)
    ensures out != SkipNoHook
  {
    hide Law, Alike, M.AllAnswered, M.PosedBy, Errored;
    M.PosedPasses(tables, asked, stack, check, table, pose);
    OneWrongAnswer(tables, asked, stack, check, table, pose, slot, r);
    ghost var k: nat :| OnlyAt(ReadSlots(check), k, slot);
    assert ReadSlots(check)[k] == slot;
    ErroredOnlyThere(check, stack, slot, r);
    out := EvalCheck(check, stack[slot := r], tables, hooks);
  }

  /** The cells that count as true: the boolean, and its two spellings as text. */
  lemma TrueCells()
    ensures IsTrueValue(Bool(true)) && IsTrueValue(Text("t")) && IsTrueValue(Text("true"))
    ensures !IsTrueValue(Bool(false)) && !IsTrueValue(Null) && !IsTrueValue(Int(1))
    ensures !IsTrueValue(Text("f")) && !IsTrueValue(Text("T")) && !IsTrueValue(Text(""))
  {
    assert "f"[0] == 'f' && "T"[0] == 'T' && "t"[0] == 't' && |"true"| == 4;
  }
}
