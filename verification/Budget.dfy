/** Per-kind step budgets: largest-remainder allocation, the fault floor, and consumption. */
module Budget {

  const N_KINDS := 7
  const DDL := 0
  const DML := 1
  const QUERY := 2
  const TX := 3
  const ARM := 4
  const FAULT := 5
  const PROPERTY := 6

  function Sum(s: seq<nat>): nat {
    if s == [] then 0 else s[0] + Sum(s[1..])
  }

  lemma {:induction false} SumUpdate(s: seq<nat>, i: nat, v: nat)
    requires i < |s|
    ensures Sum(s[i := v]) == Sum(s) - s[i] + v
  {
    if i == 0 {
      assert s[i := v][1..] == s[1..];
    } else {
      assert s[i := v][1..] == s[1..][i - 1 := v];
      SumUpdate(s[1..], i - 1, v);
    }
  }

  lemma {:induction false} SumAtLeast(s: seq<nat>, i: nat)
    requires i < |s|
    ensures s[i] <= Sum(s)
  {
    if i > 0 { SumAtLeast(s[1..], i - 1); }
  }

  lemma {:induction false} SumSnoc(s: seq<nat>, v: nat)
    ensures Sum(s + [v]) == Sum(s) + v
  {
    if s != [] {
      assert (s + [v])[1..] == s[1..] + [v];
      SumSnoc(s[1..], v);
    }
  }

  lemma {:induction false} SumPositiveHas(s: seq<nat>)
    requires Sum(s) > 0
    ensures exists i :: 0 <= i < |s| && s[i] > 0
  {
    if s[0] == 0 {
      SumPositiveHas(s[1..]);
      var i :| 0 <= i < |s[1..]| && s[1..][i] > 0;
      assert s[i + 1] > 0;
    }
  }

  // ---- remainders in order ------------------------------------------------------

  /** One kind's remainder. */
  datatype Rem = Rem(rem: nat, kind: nat)

  /** Larger remainder first, ties in kind order. */
  predicate Before(a: Rem, b: Rem) {
    a.rem > b.rem || (a.rem == b.rem && a.kind < b.kind)
  }

  predicate Ordered(s: seq<Rem>) {
    forall i, j :: 0 <= i < j < |s| ==> Before(s[i], s[j])
  }

  function Rems(s: seq<Rem>): seq<nat> {
    seq(|s|, i requires 0 <= i < |s| => s[i].rem)
  }

  /** Put one remainder in its place. */
  function InsertRem(s: seq<Rem>, r: Rem): (out: seq<Rem>)
    ensures multiset(out) == multiset(s) + multiset{r}
    ensures |out| == |s| + 1
  {
    if s == [] then [r]
    else if Before(r, s[0]) then [r] + s
    else
      assert s == [s[0]] + s[1..];
      [s[0]] + InsertRem(s[1..], r)
  }

  lemma {:induction false} InsertRemOrdered(s: seq<Rem>, r: Rem)
    requires Ordered(s)
    requires forall i :: 0 <= i < |s| ==> s[i].kind != r.kind
    ensures Ordered(InsertRem(s, r))
  {
    if s != [] && !Before(r, s[0]) {
      InsertRemOrdered(s[1..], r);
      var rest := InsertRem(s[1..], r);
      forall j | 0 <= j < |rest|
        ensures Before(s[0], rest[j])
      {
        assert rest[j] in multiset(rest);
        assert rest[j] == r || rest[j] in s[1..];
      }
    }
  }

  lemma {:induction false} InsertRemSum(s: seq<Rem>, r: Rem)
    ensures Sum(Rems(InsertRem(s, r))) == Sum(Rems(s)) + r.rem
  {
    var out := InsertRem(s, r);
    if s == [] {
    } else if Before(r, s[0]) {
      assert Rems(out)[1..] == Rems(s);
    } else {
      InsertRemSum(s[1..], r);
      assert Rems(out)[1..] == Rems(InsertRem(s[1..], r)) && Rems(s)[1..] == Rems(s[1..]);
    }
  }

  // ---- the shares -------------------------------------------------------------------

  function Share(wi: nat, total: nat, wsum: nat): nat
    requires wsum > 0
  {
    wi * total / wsum
  }

  function Leftover(wi: nat, total: nat, wsum: nat): nat
    requires wsum > 0
  {
    wi * total % wsum
  }

  lemma ShareParts(wi: nat, total: nat, wsum: nat)
    requires wsum > 0
    ensures wi * total == Share(wi, total, wsum) * wsum + Leftover(wi, total, wsum)
    ensures Leftover(wi, total, wsum) < wsum
    ensures wi == 0 ==> Share(wi, total, wsum) == 0 && Leftover(wi, total, wsum) == 0
  {
  }

  lemma Distribute(a: int, b: int, c: int)
    ensures (a + b) * c == a * c + b * c
  {
  }

  lemma Commute(a: int, b: int)
    ensures a * b == b * a
  {
  }

  lemma MulPositive(a: nat, b: nat)
    requires a > 0
    ensures a * b >= b
  {
  }

  /** No more remainders than the divisor allows. */
  lemma {:induction false} RemsBelow(s: seq<nat>, bound: nat)
    requires forall i :: 0 <= i < |s| ==> s[i] < bound
    ensures Sum(s) <= |s| * bound
    ensures |s| > 0 ==> Sum(s) < |s| * bound
  {
    if s != [] {
      RemsBelow(s[1..], bound);
      Distribute(|s| - 1, 1, bound);
    }
  }

  lemma {:induction false} SumPrefix(s: seq<nat>, k: nat)
    requires k <= |s|
    requires forall i :: k <= i < |s| ==> s[i] == 0
    ensures Sum(s) == Sum(s[..k])
    decreases |s| - k
  {
    if k == |s| {
      assert s[..k] == s;
    } else {
      SumPrefix(s, k + 1);
      assert s[..k + 1] == s[..k] + [s[k]];
      SumSnoc(s[..k], s[k]);
    }
  }

  /** While something is left over, the next kind in order has a positive remainder. */
  lemma NextRemainderPositive(order: seq<Rem>, k: nat, wsum: nat, extra: nat)
    requires wsum > 0
    requires Ordered(order)
    requires forall i :: 0 <= i < |order| ==> order[i].rem < wsum
    requires Sum(Rems(order)) == extra * wsum
    requires k < extra && k <= |order|
    ensures k < |order| && order[k].rem > 0
  {
    if k == |order| || order[k].rem == 0 {
      var s := Rems(order);
      forall i | k <= i < |s|
        ensures s[i] == 0
      {
        if i > k { assert Before(order[k], order[i]); }
      }
      SumPrefix(s, k);
      RemsBelow(s[..k], wsum);
      Distribute(extra - k, k, wsum);
      MulPositive(extra - k, wsum);
      assert false;
    }
  }

  lemma SpentAtMostTotal(spent: nat, rems: nat, total: nat, wsum: nat)
    requires wsum > 0
    requires spent * wsum + rems == total * wsum
    ensures spent <= total
    ensures rems == (total - spent) * wsum
  {
    Distribute(total - spent, spent, wsum);
    if spent > total {
      Distribute(spent - total, total, wsum);
      MulPositive(spent - total, wsum);
      assert false;
    }
  }

  ghost predicate Ranked(order: seq<Rem>, n: nat) {
    exists i :: 0 <= i < |order| && order[i].kind == n
  }

  /** The remainders of kinds 0, 1, ..., in order of size. */
  ghost predicate Ranks(order: seq<Rem>, rems: seq<nat>) {
    && |order| == |rems|
    && Ordered(order)
    && Sum(Rems(order)) == Sum(rems)
    && (forall i :: 0 <= i < |order| ==> order[i].kind < |rems| && order[i].rem == rems[order[i].kind])
    && (forall n :: 0 <= n < |rems| ==> Ranked(order, n))
  }

  lemma RanksSnoc(order: seq<Rem>, rems: seq<nat>, v: nat)
    requires Ranks(order, rems)
    ensures Ranks(InsertRem(order, Rem(v, |rems|)), rems + [v])
  {
    var r := Rem(v, |rems|);
    var rems' := rems + [v];
    var out := InsertRem(order, r);
    InsertRemOrdered(order, r);
    InsertRemSum(order, r);
    SumSnoc(rems, v);
    forall i | 0 <= i < |out|
      ensures out[i].kind < |rems'| && out[i].rem == rems'[out[i].kind]
    {
      assert out[i] in multiset(out);
      if out[i] != r {
        assert out[i] in order;
      }
    }
    forall n | 0 <= n < |rems'|
      ensures Ranked(out, n)
    {
      if n < |rems| {
        assert Ranked(order, n);
        var i :| 0 <= i < |order| && order[i].kind == n;
        assert order[i] in multiset(out);
        var j :| 0 <= j < |out| && out[j] == order[i];
      } else {
        assert r in multiset(out);
        var j :| 0 <= j < |out| && out[j] == r;
      }
    }
  }

  /** What was handed out and what remains make up the share of the weights seen so far. */
  ghost predicate Balanced(spent: nat, remSum: nat, wSum: nat, total: nat, wsum: nat) {
    spent * wsum + remSum == wSum * total
  }

  lemma BalancedAtStart(total: nat, wsum: nat)
    ensures Balanced(0, 0, 0, total, wsum)
  {
  }

  lemma BalancedAtEnd(spent: nat, remSum: nat, total: nat, wsum: nat)
    requires wsum > 0 && Balanced(spent, remSum, wsum, total, wsum)
    ensures spent <= total && remSum == (total - spent) * wsum
  {
    Commute(wsum, total);
    SpentAtMostTotal(spent, remSum, total, wsum);
  }

  lemma ShareStep(spent: nat, remSum: nat, wSum: nat, wi: nat, total: nat, wsum: nat)
    requires wsum > 0
    requires Balanced(spent, remSum, wSum, total, wsum)
    ensures Balanced(spent + Share(wi, total, wsum), remSum + Leftover(wi, total, wsum), wSum + wi, total, wsum)
  {
    ShareParts(wi, total, wsum);
    Distribute(spent, Share(wi, total, wsum), wsum);
    Distribute(wSum, wi, total);
  }

  lemma NothingShared(total: nat, wsum: nat)
    ensures Ranks([], []) && Sum([]) == 0 && Balanced(0, 0, 0, total, wsum)
  {
    BalancedAtStart(total, wsum);
  }

  /** The floors, the remainders and their ranking, computed in one pass over the kinds. */
  method Shares(w: seq<nat>, total: nat) returns (floors: seq<nat>, rems: seq<nat>, order: seq<Rem>, spent: nat)
    requires Sum(w) > 0
    ensures |floors| == |w| && |rems| == |w|
    ensures forall i :: 0 <= i < |w| ==> floors[i] == Share(w[i], total, Sum(w)) && rems[i] == Leftover(w[i], total, Sum(w))
    ensures forall i :: 0 <= i < |w| ==> rems[i] < Sum(w) && (w[i] == 0 ==> floors[i] == 0 && rems[i] == 0)
    ensures Ranks(order, rems)
    ensures spent == Sum(floors) <= total
    ensures Sum(rems) == (total - spent) * Sum(w)
  {
    hide Share, Leftover, InsertRem, Balanced, Ranks, Sum;
    floors, rems, order, spent := [], [], [], 0;
    var wsum := Sum(w);
    NothingShared(total, wsum);
    assert w[..0] == [];
    for i := 0 to |w|
      invariant |floors| == i && |rems| == i
      invariant forall j :: 0 <= j < i ==> floors[j] == Share(w[j], total, wsum) && rems[j] == Leftover(w[j], total, wsum)
      invariant Ranks(order, rems)
      invariant spent == Sum(floors)
      invariant Balanced(spent, Sum(rems), Sum(w[..i]), total, wsum)
    {
      var share := Share(w[i], total, wsum);
      var left := Leftover(w[i], total, wsum);
      ShareStep(spent, Sum(rems), Sum(w[..i]), w[i], total, wsum);
      SumSnoc(floors, share);
      SumSnoc(rems, left);
      assert w[..i + 1] == w[..i] + [w[i]];
      SumSnoc(w[..i], w[i]);
      RanksSnoc(order, rems, left);
      order := InsertRem(order, Rem(left, i));
      floors, rems, spent := floors + [share], rems + [left], spent + share;
    }
    assert w[..|w|] == w;
    forall i | 0 <= i < |w|
      ensures rems[i] < wsum && (w[i] == 0 ==> floors[i] == 0 && rems[i] == 0)
    {
      ShareParts(w[i], total, wsum);
    }
    BalancedAtEnd(spent, Sum(rems), total, wsum);
  }

  /** Each share is its floor or one more, and the ones went to the largest remainders, ties in kind order. */
  ghost predicate ExtrasInOrder(floors: seq<nat>, rems: seq<nat>, r: seq<nat>) {
    && |floors| == |rems| == |r|
    && (forall i :: 0 <= i < |r| ==> floors[i] <= r[i] <= floors[i] + 1)
    && (forall i, j :: 0 <= i < |r| && 0 <= j < |r| && r[i] > floors[i] && r[j] == floors[j] ==>
          Before(Rem(rems[i], i), Rem(rems[j], j)))
  }

  /** Read off the shares of an allocation that gave one extra to each of the first `k` kinds in order. */
  lemma AllocationInOrder(floors: seq<nat>, rems: seq<nat>, order: seq<Rem>, k: nat, r: seq<nat>)
    requires |floors| == |rems| == |r| && k <= |order|
    requires Ranks(order, rems)
    requires forall i :: 0 <= i < |order| ==> r[order[i].kind] == floors[order[i].kind] + (if i < k then 1 else 0)
    ensures ExtrasInOrder(floors, rems, r)
  {
    forall i | 0 <= i < |r|
      ensures floors[i] <= r[i] <= floors[i] + 1
    {
      assert Ranked(order, i);
      var p :| 0 <= p < |order| && order[p].kind == i;
    }
    forall i, j | 0 <= i < |r| && 0 <= j < |r| && r[i] > floors[i] && r[j] == floors[j]
      ensures Before(Rem(rems[i], i), Rem(rems[j], j))
    {
      assert Ranked(order, i) && Ranked(order, j);
      var p :| 0 <= p < |order| && order[p].kind == i;
      var q :| 0 <= q < |order| && order[q].kind == j;
      assert p < k <= q;
    }
  }

  /** Hand out the leftover units one by one in the order of the remainders. */
  method HandOut(w: seq<nat>, floors: seq<nat>, rems: seq<nat>, order: seq<Rem>, leftover: nat, ghost wsum: nat) returns (r: seq<nat>)
    requires |w| == |floors| == |rems| && wsum > 0
    requires Ranks(order, rems)
    requires forall i :: 0 <= i < |rems| ==> rems[i] < wsum && (w[i] == 0 ==> floors[i] == 0 && rems[i] == 0)
    requires Sum(rems) == leftover * wsum
    ensures |r| == |w| && Sum(r) == Sum(floors) + leftover
    ensures ExtrasInOrder(floors, rems, r)
    ensures forall i :: 0 <= i < |w| && w[i] == 0 ==> r[i] == 0
  {
    r := floors;
    var left := leftover;
    var k := 0;
    while k < |order| && left > 0
      invariant 0 <= k <= |order|
      invariant k + left == leftover
      invariant |r| == |w| && Sum(r) == Sum(floors) + k
      invariant forall i :: 0 <= i < |order| ==> r[order[i].kind] == floors[order[i].kind] + (if i < k then 1 else 0)
      invariant forall i :: 0 <= i < |w| && w[i] == 0 ==> r[i] == 0
    {
      NextRemainderPositive(order, k, wsum, leftover);
      var n := order[k].kind;
      if w[n] > 0 {
        SumUpdate(r, n, r[n] + 1);
        forall j | 0 <= j < |order| && j != k
          ensures order[j].kind != n
        {
          assert if j < k then Before(order[j], order[k]) else Before(order[k], order[j]);
        }
        r := r[n := r[n] + 1];
        left := left - 1;
      }
      k := k + 1;
    }
    if left > 0 {
      NextRemainderPositive(order, k, wsum, leftover);
    }
    AllocationInOrder(floors, rems, order, k, r);
  }

  function Floors(w: seq<nat>, total: nat): seq<nat>
    requires Sum(w) > 0
  {
    seq(|w|, i requires 0 <= i < |w| => Share(w[i], total, Sum(w)))
  }

  function Remainders(w: seq<nat>, total: nat): seq<nat>
    requires Sum(w) > 0
  {
    seq(|w|, i requires 0 <= i < |w| => Leftover(w[i], total, Sum(w)))
  }

  /** Largest-remainder allocation: the shares add up to the total exactly; each is the floor of the exact share or
      one more, and the ones go to the largest remainders. */
  method LargestRemainder(w: seq<nat>, total: nat) returns (r: seq<nat>)
    requires Sum(w) > 0
    ensures |r| == |w| && Sum(r) == total
    ensures ExtrasInOrder(Floors(w, total), Remainders(w, total), r)
    ensures forall i :: 0 <= i < |w| && w[i] == 0 ==> r[i] == 0
  {
    var floors, rems, order, spent := Shares(w, total);
    r := HandOut(w, floors, rems, order, total - spent, Sum(w));
    assert floors == Floors(w, total) && rems == Remainders(w, total);
  }

  // ---- the fault floor -------------------------------------------------------------------

  /** The kind, other than faults, with the largest positive allocation; ties in kind order. */
  method LargestDonor(r: seq<nat>) returns (d: int)
    requires |r| == N_KINDS
    ensures d == -1 ==> forall i :: 0 <= i < N_KINDS && i != FAULT ==> r[i] == 0
    ensures d != -1 ==> 0 <= d < N_KINDS && d != FAULT && r[d] > 0
    ensures d != -1 ==> forall i :: 0 <= i < N_KINDS && i != FAULT ==> r[i] < r[d] || (r[i] == r[d] && d <= i)
  {
    d := -1;
    for i := 0 to N_KINDS
      invariant d == -1 ==> forall j :: 0 <= j < i && j != FAULT ==> r[j] == 0
      invariant d != -1 ==> 0 <= d < i && d != FAULT && r[d] > 0
      invariant d != -1 ==> forall j :: 0 <= j < i && j != FAULT ==> r[j] < r[d] || (r[j] == r[d] && d <= j)
    {
      if i != FAULT && r[i] > 0 && (d == -1 || r[i] > r[d]) {
        d := i;
      }
    }
  }

  lemma SumSeven(r: seq<nat>)
    requires |r| == N_KINDS
    ensures Sum(r) == r[0] + r[1] + r[2] + r[3] + r[4] + r[5] + r[6]
  {
    assert r == [r[0]] + [r[1]] + [r[2]] + [r[3]] + [r[4]] + [r[5]] + [r[6]];
    SumSnoc([r[0]] + [r[1]] + [r[2]] + [r[3]] + [r[4]] + [r[5]], r[6]);
    SumSnoc([r[0]] + [r[1]] + [r[2]] + [r[3]] + [r[4]], r[5]);
    SumSnoc([r[0]] + [r[1]] + [r[2]] + [r[3]], r[4]);
    SumSnoc([r[0]] + [r[1]] + [r[2]], r[3]);
    SumSnoc([r[0]] + [r[1]], r[2]);
    SumSnoc([r[0]], r[1]);
  }

  /** Raise the fault budget to a whole disconnect/reconnect pair, one unit at a time from the largest other budget. */
  method RaiseFault(r0: seq<nat>) returns (r: seq<nat>)
    requires |r0| == N_KINDS && Sum(r0) >= 2 && r0[FAULT] < 2
    ensures |r| == N_KINDS && Sum(r) == Sum(r0) && r[FAULT] == 2
    ensures forall i :: 0 <= i < N_KINDS && i != FAULT ==> r[i] <= r0[i]
    ensures forall d, i :: 0 <= d < N_KINDS && 0 <= i < N_KINDS && d != FAULT && i != FAULT && r[d] < r0[d] ==> r[i] <= r[d] + 1
  {
    r := r0;
    var need := 2 - r[FAULT];
    while need > 0
      invariant |r| == N_KINDS && Sum(r) == Sum(r0)
      invariant r[FAULT] + need == 2
      invariant forall i :: 0 <= i < N_KINDS && i != FAULT ==> r[i] <= r0[i]
      invariant forall d, i :: 0 <= d < N_KINDS && 0 <= i < N_KINDS && d != FAULT && i != FAULT && r[d] < r0[d] ==> r[i] <= r[d] + 1
    {
      var d := LargestDonor(r);
      SumSeven(r);
      SumUpdate(r, d, r[d] - 1);
      SumUpdate(r[d := r[d] - 1], FAULT, r[FAULT] + 1);
      r := r[d := r[d] - 1][FAULT := r[FAULT] + 1];
      need := need - 1;
    }
  }

  /** The whole allocation: exact total, and room for a fault pair whenever faults have weight and the plan has room. */
  method Allocate(weights: seq<nat>, total: nat, propertiesAvailable: bool) returns (r: seq<nat>)
    requires |weights| == N_KINDS
    ensures |r| == N_KINDS
    ensures
      var w := if propertiesAvailable then weights else weights[PROPERTY := 0];
      && (Sum(w) == 0 ==> Sum(r) == 0)
      && (Sum(w) > 0 ==> Sum(r) == total)
      && (Sum(w) > 0 && w[FAULT] > 0 && total >= 2 ==> r[FAULT] >= 2)
      && (forall i :: 0 <= i < N_KINDS && w[i] == 0 ==> r[i] == 0)
      && (Sum(w) > 0 ==> forall i :: 0 <= i < N_KINDS && i != FAULT ==> r[i] <= Floors(w, total)[i] + 1)
      && (Sum(w) > 0 && (w[FAULT] == 0 || total < 2 || Floors(w, total)[FAULT] >= 2) ==>
            ExtrasInOrder(Floors(w, total), Remainders(w, total), r))
  {
    var w := if propertiesAvailable then weights else weights[PROPERTY := 0];
    if Sum(w) == 0 {
      r := [0, 0, 0, 0, 0, 0, 0];
      SumSeven(r);
      return;
    }
    r := LargestRemainder(w, total);
    if w[FAULT] > 0 && total >= 2 && r[FAULT] < 2 {
      r := RaiseFault(r);
    }
  }

  // ---- consumption ---------------------------------------------------------------------------

  function Minus(a: nat, b: nat): nat {
    if a >= b then a - b else 0
  }

  /** Saturating consumption of one kind. */
  function Consume(r: seq<nat>, kind: nat, n: nat): (r': seq<nat>)
    requires |r| == N_KINDS && kind < N_KINDS
    ensures |r'| == N_KINDS
  {
    r[kind := Minus(r[kind], n)]
  }

  datatype Footprint = Footprint(ddl: nat, dml: nat, query: nat, tx: nat, arm: nat, fault: nat)

  function ConsumeFootprint(r: seq<nat>, fp: Footprint): (r': seq<nat>)
    requires |r| == N_KINDS
    ensures |r'| == N_KINDS
  {
    Consume(Consume(Consume(Consume(Consume(Consume(Consume(r, PROPERTY, 1),
      DDL, fp.ddl), DML, fp.dml), QUERY, fp.query), TX, fp.tx), ARM, fp.arm), FAULT, fp.fault)
  }

  /** Consuming from a kind that has something left strictly lowers the total remaining; consuming never raises it. */
  lemma ConsumeLowers(r: seq<nat>, kind: nat, n: nat)
    requires |r| == N_KINDS && kind < N_KINDS
    ensures Sum(Consume(r, kind, n)) <= Sum(r)
    ensures n > 0 && r[kind] > 0 ==> Sum(Consume(r, kind, n)) < Sum(r)
  {
    SumUpdate(r, kind, Minus(r[kind], n));
  }

  lemma ConsumeFootprintLowers(r: seq<nat>, fp: Footprint)
    requires |r| == N_KINDS && r[PROPERTY] > 0
    ensures Sum(ConsumeFootprint(r, fp)) < Sum(r)
  {
    var r1 := Consume(r, PROPERTY, 1);
    var r2 := Consume(r1, DDL, fp.ddl);
    var r3 := Consume(r2, DML, fp.dml);
    var r4 := Consume(r3, QUERY, fp.query);
    var r5 := Consume(r4, TX, fp.tx);
    var r6 := Consume(r5, ARM, fp.arm);
    ConsumeLowers(r, PROPERTY, 1);
    ConsumeLowers(r1, DDL, fp.ddl);
    ConsumeLowers(r2, DML, fp.dml);
    ConsumeLowers(r3, QUERY, fp.query);
    ConsumeLowers(r4, TX, fp.tx);
    ConsumeLowers(r5, ARM, fp.arm);
    ConsumeLowers(r6, FAULT, fp.fault);
  }
}
