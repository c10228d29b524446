/** Four of the oracle's properties as they are generated, and that each of them only asks what can be answered. */
module Properties {
  import opened Common
  import opened Plan
  import opened Alignment
  import opened Verdicts
  import opened Probe
  import Ledger
  import Check
  import M = Metamorphic

  /** How checks are spelled in a plan. */
  type Spelling = Check.Check -> string

  ghost predicate Spells(spelling: Spelling, env: Checks) {
    forall c :: env.decode(spelling(c)) == Some(c)
  }

  /** The texts of the statements, one for each step; what they say is in the operations and probes. */
  type Texts = nat -> string

  const KV := [Ledger.ColumnDef("k", true), Ledger.ColumnDef("v", false)]
  const KVS := [Ledger.ColumnDef("k", true), Ledger.ColumnDef("v", false), Ledger.ColumnDef("s", false)]

  function Change(text: string, op: Ledger.Op): PStep { PSql(text, Mutation, NO_FLAGS, Some(op), None, None) }

  function Ask(text: string, table: string, spec: ProbeSpec, slot: nat): PStep {
    PSql(text, Read, NO_FLAGS, None, Some((table, spec)), Some(slot))
  }

  function Create(texts: Texts, table: string, cols: seq<Ledger.ColumnDef>): PStep {
    Change(texts(0), Ledger.CreateTable(table, cols, Some(0)))
  }

  function Insert(texts: Texts, table: string, rows: seq<Ledger.Row>): PStep {
    Change(texts(1), Ledger.InsertValues(table, rows))
  }

  function Drop(texts: Texts, table: string): PStep { Change(texts(2), Ledger.DropTable(table)) }

  /** Three-valued partitioning over a table of its own: the whole, the three arms, and the law between them. */
  function Tlp(spelling: Spelling, texts: Texts, table: string, rows: seq<Ledger.Row>, pred: Pred, q: M.Question): seq<PStep> {
    [Create(texts, table, KVS), Insert(texts, table, rows), PNoise,
     Ask(texts(3), table, M.SpecOf(q, None), 0),
     Ask(texts(4), table, M.SpecOf(q, M.Arm(pred, IsTrue)), 1),
     Ask(texts(5), table, M.SpecOf(q, M.Arm(pred, IsFalse)), 2),
     Ask(texts(6), table, M.SpecOf(q, M.Arm(pred, IsNull)), 3),
     PAssert(spelling(M.CheckOf(q, [1, 2, 3], 0))),
     Drop(texts, table)]
  }

  function Arms(settings: seq<(string, string)>): seq<PStep> {
    seq(|settings|, i requires 0 <= i < |settings| => PArm(SetGuc(settings[i].0, settings[i].1)))
  }

  /** The filtered query under a drawn arm set, if the profile has any, and the same predicate projected. */
  function NorecTail(spelling: Spelling, texts: Texts, table: string, pred: Pred, armed: Option<seq<(string, string)>>): seq<PStep> {
    (if armed.Some? then Arms(armed.value) else [])
    + [Ask(texts(3), table, RowsWhere(M.Arm(pred, IsTrue)), 0)]
    + (if armed.Some? then [PArm(ResetAll)] else [])
    + [Ask(texts(4), table, PredProjection(pred), 1), PAssert(spelling(Check.NorecRowCountEq(0, 1)))]
  }

  function NoRec(spelling: Spelling, texts: Texts, table: string, rows: seq<Ledger.Row>, pred: Pred, armed: Option<seq<(string, string)>>): seq<PStep> {
    [Create(texts, table, KVS), Insert(texts, table, rows), PNoise] + NorecTail(spelling, texts, table, pred, armed) + [Drop(texts, table)]
  }

  /** Aggregates against the ledger, against each other, and a union with itself. */
  function AggConsistency(spelling: Spelling, texts: Texts, table: string, rows: seq<Ledger.Row>, pred: Pred): seq<PStep> {
    [Create(texts, table, KV), Insert(texts, table, rows),
     Ask(texts(3), table, CountOf(None), 0),
     PAssert(spelling(Check.CountMatchesLedger(table, 0))),
     Ask(texts(4), table, SumOf(1, None), 1),
     Ask(texts(5), table, SumOf(1, M.Arm(pred, IsTrue)), 2),
     Ask(texts(6), table, SumOf(1, M.Arm(pred, IsFalse)), 3),
     Ask(texts(7), table, SumOf(1, M.Arm(pred, IsNull)), 4),
     PAssert(spelling(Check.ScalarSumEq([2, 3, 4], 1))),
     Ask(texts(8), table, ColumnAll(0, false), 5),
     Ask(texts(9), table, ColumnAll(0, true), 6),
     PAssert(spelling(Check.UnionDoubling(5, 6))),
     Drop(texts, table)]
  }

  /** The same reads before and after an index is created. */
  function IndexInvariance(spelling: Spelling, texts: Texts, table: string, rows: seq<Ledger.Row>, pred: Pred): seq<PStep> {
    [Create(texts, table, KV), Insert(texts, table, rows),
     Ask(texts(3), table, RowsWhere(None), 0),
     Ask(texts(4), table, CountOf(M.Arm(pred, IsTrue)), 1),
     PSql(texts(5), Mutation, NO_FLAGS, None, None, None),
     Ask(texts(6), table, RowsWhere(None), 2),
     Ask(texts(7), table, CountOf(M.Arm(pred, IsTrue)), 3),
     PAssert(spelling(Check.MultisetEq(0, 2))),
     PAssert(spelling(Check.ScalarPairEq(1, 3))),
     Drop(texts, table)]
  }

  // ---- each of them is posed ------------------------------------------------------------------------------------

  predicate Asks(ps: PStep, table: string, spec: ProbeSpec, slot: nat) {
    ps.PSql? && ps.op.None? && ps.probe == Some((table, spec)) && ps.slot == Some(slot)
  }

  function AskedPartition(asked: M.Asked, table: string, pred: Pred, q: M.Question, whole: nat, t: nat, f: nat, u: nat): M.Asked {
    asked[whole := (table, M.SpecOf(q, None))][t := (table, M.SpecOf(q, M.Arm(pred, IsTrue)))]
         [f := (table, M.SpecOf(q, M.Arm(pred, IsFalse)))][u := (table, M.SpecOf(q, M.Arm(pred, IsNull)))]
  }

  /** The whole and its three arms asked for in a row, and checked against each other. */
  lemma PartitionAsked(env: Checks, steps: seq<PStep>, n: nat, table: string, asked: M.Asked, pred: Pred, q: M.Question,
                       whole: nat, t: nat, f: nat, u: nat)
    requires Knows(steps, n, table, asked) && n + 4 < |steps| && Moduli(pred) && whole < t < f < u
    requires Asks(steps[n], table, M.SpecOf(q, None), whole)
    requires Asks(steps[n + 1], table, M.SpecOf(q, M.Arm(pred, IsTrue)), t)
    requires Asks(steps[n + 2], table, M.SpecOf(q, M.Arm(pred, IsFalse)), f)
    requires Asks(steps[n + 3], table, M.SpecOf(q, M.Arm(pred, IsNull)), u)
    requires IsCheck(steps[n + 4]) && env.decode(JsonOf(steps[n + 4])) == Some(M.CheckOf(q, [t, f, u], whole))
    ensures Posed(env, steps, n + 4) && Knows(steps, n + 5, table, AskedPartition(asked, table, pred, q, whole, t, f, u))
  {
    hide Moduli, Knows, Posed, M.SpecOf, M.CheckOf, M.PosedBy;
    GoodSpecs(q, pred);
    KnowsAsked(steps, n, table, asked, M.SpecOf(q, None), whole);
    var a := asked[whole := (table, M.SpecOf(q, None))];
    KnowsAsked(steps, n + 1, table, a, M.SpecOf(q, M.Arm(pred, IsTrue)), t);
    var b := a[t := (table, M.SpecOf(q, M.Arm(pred, IsTrue)))];
    KnowsAsked(steps, n + 2, table, b, M.SpecOf(q, M.Arm(pred, IsFalse)), f);
    var c := b[f := (table, M.SpecOf(q, M.Arm(pred, IsFalse)))];
    KnowsAsked(steps, n + 3, table, c, M.SpecOf(q, M.Arm(pred, IsNull)), u);
    var all := AskedPartition(asked, table, pred, q, whole, t, f, u);
    PartitionPosed(all, table, pred, q, t, f, u, whole);
    KnowsPosed(env, steps, n + 4, table, all, M.CheckOf(q, [t, f, u], whole), M.Partition(pred, q));
  }

  lemma PartitionPosed(asked: M.Asked, table: string, pred: Pred, q: M.Question, t: nat, f: nat, n: nat, whole: nat)
    requires Moduli(pred)
    requires M.AskedFor(asked, t, table, M.SpecOf(q, M.Arm(pred, IsTrue)))
    requires M.AskedFor(asked, f, table, M.SpecOf(q, M.Arm(pred, IsFalse)))
    requires M.AskedFor(asked, n, table, M.SpecOf(q, M.Arm(pred, IsNull)))
    requires M.AskedFor(asked, whole, table, M.SpecOf(q, None))
    ensures M.PosedBy(M.CheckOf(q, [t, f, n], whole), asked, table, M.Partition(pred, q))
  {
    hide Moduli, M.SpecOf, M.AskedFor;
  }

  lemma GoodSpecs(q: M.Question, pred: Pred)
    requires Moduli(pred)
    ensures GoodSpec(M.SpecOf(q, None)) && forall sel :: GoodSpec(M.SpecOf(q, M.Arm(pred, sel)))
  {
  }

  lemma TlpPosed(env: Checks, spelling: Spelling, texts: Texts, table: string, rows: seq<Ledger.Row>, pred: Pred, q: M.Question, steps: seq<PStep>)
    requires Spells(spelling, env) && Moduli(pred) && Filled(Tlp(spelling, texts, table, rows, pred, q), steps)
    ensures AllPosed(env, steps)
  {
    hide Moduli, Knows, Posed, M.SpecOf, M.CheckOf, AskedPartition;
    assert Blank(steps[2]);
    KnowsTable(steps, table);
    KnowsStill(steps, 2, table, map[]);
    PartitionAsked(env, steps, 3, table, map[], pred, q, 0, 1, 2, 3);
  }

  lemma NorecPosed(env: Checks, spelling: Spelling, texts: Texts, table: string, rows: seq<Ledger.Row>, pred: Pred,
                   armed: Option<seq<(string, string)>>, steps: seq<PStep>)
    requires Spells(spelling, env) && Moduli(pred) && Filled(NoRec(spelling, texts, table, rows, pred, armed), steps)
    ensures AllPosed(env, steps)
  {
    hide NoRec, Moduli, Knows, Posed, AllPosed, KVS;
    var k := 3 + if armed.Some? then |armed.value| else 0;
    var u := k + 1 + if armed.Some? then 1 else 0;
    NorecShape(spelling, texts, table, rows, pred, armed, k, u);
    NorecSteps(env, steps, texts, table, rows, pred, k, u);
    OneCheck(env, steps, u + 1);
  }

  lemma OneCheck(env: Checks, steps: seq<PStep>, n: nat)
    requires n < |steps| && IsCheck(steps[n]) && Posed(env, steps, n) && forall j :: 0 <= j < |steps| && j != n ==> !IsCheck(steps[j])
    ensures AllPosed(env, steps)
  {
    hide Posed;
  }

  lemma NorecSteps(env: Checks, steps: seq<PStep>, texts: Texts, table: string, rows: seq<Ledger.Row>, pred: Pred, k: nat, u: nat)
    requires 3 <= k < u && u + 1 < |steps| && Moduli(pred)
    requires steps[0] == Create(texts, table, KVS) && steps[1] == Insert(texts, table, rows) && Blank(steps[2])
    requires forall j :: 3 <= j < u && j != k ==> steps[j].PArm?
    requires Asks(steps[k], table, RowsWhere(M.Arm(pred, IsTrue)), 0) && Asks(steps[u], table, PredProjection(pred), 1)
    requires IsCheck(steps[u + 1]) && env.decode(JsonOf(steps[u + 1])) == Some(Check.NorecRowCountEq(0, 1))
    ensures Posed(env, steps, u + 1)
  {
    hide Moduli, Knows, Posed;
    KnowsTable(steps, table);
    KnowsThrough(steps, 2, k, table, map[]);
    KnowsAsked(steps, k, table, map[], RowsWhere(M.Arm(pred, IsTrue)), 0);
    var a: M.Asked := map[][0 := (table, RowsWhere(M.Arm(pred, IsTrue)))];
    KnowsThrough(steps, k + 1, u, table, a);
    KnowsAsked(steps, u, table, a, PredProjection(pred), 1);
    var b := a[1 := (table, PredProjection(pred))];
    KnowsPosed(env, steps, u + 1, table, b, Check.NorecRowCountEq(0, 1), M.Norec(pred));
  }

  /** Where the steps of the property stand. */
  lemma NorecShape(spelling: Spelling, texts: Texts, table: string, rows: seq<Ledger.Row>, pred: Pred,
                   armed: Option<seq<(string, string)>>, k: nat, u: nat)
    requires k == 3 + (if armed.Some? then |armed.value| else 0) && u == k + 1 + if armed.Some? then 1 else 0
    ensures var made := NoRec(spelling, texts, table, rows, pred, armed);
            && |made| == u + 3 && made[0] == Create(texts, table, KVS) && made[1] == Insert(texts, table, rows) && made[2] == PNoise
            && (forall j :: 3 <= j < u && j != k ==> made[j].PArm?)
            && made[k] == Ask(texts(3), table, RowsWhere(M.Arm(pred, IsTrue)), 0)
            && made[u] == Ask(texts(4), table, PredProjection(pred), 1)
            && made[u + 1] == PAssert(spelling(Check.NorecRowCountEq(0, 1))) && made[u + 2] == Drop(texts, table)
  {
    hide Create, Insert, Drop, Ask;
    var tail := NorecTail(spelling, texts, table, pred, armed);
    assert |tail| == u - 1;
    var made := NoRec(spelling, texts, table, rows, pred, armed);
    assert forall j :: 3 <= j < u + 2 ==> made[j] == tail[j - 3];
  }

  lemma AggPosed(env: Checks, spelling: Spelling, texts: Texts, table: string, rows: seq<Ledger.Row>, pred: Pred, steps: seq<PStep>)
    requires Spells(spelling, env) && Moduli(pred) && Filled(AggConsistency(spelling, texts, table, rows, pred), steps)
    ensures AllPosed(env, steps)
  {
    hide Moduli, Knows, Posed;
    KnowsTable(steps, table);
    CountAsked(env, steps, table);
    AggSums(env, steps, table, map[][0 := (table, CountOf(None))], pred);
  }

  lemma AggSums(env: Checks, steps: seq<PStep>, table: string, asked: M.Asked, pred: Pred)
    requires Knows(steps, 4, table, asked) && |steps| > 11 && Moduli(pred)
    requires Asks(steps[4], table, SumOf(1, None), 1) && Asks(steps[5], table, SumOf(1, M.Arm(pred, IsTrue)), 2)
    requires Asks(steps[6], table, SumOf(1, M.Arm(pred, IsFalse)), 3) && Asks(steps[7], table, SumOf(1, M.Arm(pred, IsNull)), 4)
    requires IsCheck(steps[8]) && env.decode(JsonOf(steps[8])) == Some(Check.ScalarSumEq([2, 3, 4], 1))
    requires Asks(steps[9], table, ColumnAll(0, false), 5) && Asks(steps[10], table, ColumnAll(0, true), 6)
    requires IsCheck(steps[11]) && env.decode(JsonOf(steps[11])) == Some(Check.UnionDoubling(5, 6))
    ensures Posed(env, steps, 8) && Posed(env, steps, 11)
  {
    hide Moduli, Knows, Posed, AskedPartition;
    PartitionAsked(env, steps, 4, table, asked, pred, M.SumOfValues(1), 1, 2, 3, 4);
    TwiceAsked(env, steps, 9, table, AskedPartition(asked, table, pred, M.SumOfValues(1), 1, 2, 3, 4));
  }

  lemma CountAsked(env: Checks, steps: seq<PStep>, table: string)
    requires Knows(steps, 2, table, map[]) && |steps| > 3 && Asks(steps[2], table, CountOf(None), 0)
    requires IsCheck(steps[3]) && env.decode(JsonOf(steps[3])) == Some(Check.CountMatchesLedger(table, 0))
    ensures Posed(env, steps, 3) && Knows(steps, 4, table, map[][0 := (table, CountOf(None))])
  {
    hide Knows, Posed;
    KnowsAsked(steps, 2, table, map[], CountOf(None), 0);
    KnowsPosed(env, steps, 3, table, map[][0 := (table, CountOf(None))], Check.CountMatchesLedger(table, 0), M.AgainstLedger);
  }

  lemma TwiceAsked(env: Checks, steps: seq<PStep>, n: nat, table: string, asked: M.Asked)
    requires Knows(steps, n, table, asked) && n + 2 < |steps|
    requires Asks(steps[n], table, ColumnAll(0, false), 5) && Asks(steps[n + 1], table, ColumnAll(0, true), 6)
    requires IsCheck(steps[n + 2]) && env.decode(JsonOf(steps[n + 2])) == Some(Check.UnionDoubling(5, 6))
    ensures Posed(env, steps, n + 2)
  {
    hide Knows, Posed;
    KnowsAsked(steps, n, table, asked, ColumnAll(0, false), 5);
    var a := asked[5 := (table, ColumnAll(0, false))];
    KnowsAsked(steps, n + 1, table, a, ColumnAll(0, true), 6);
    KnowsPosed(env, steps, n + 2, table, a[6 := (table, ColumnAll(0, true))], Check.UnionDoubling(5, 6), M.Twice(0));
  }

  /** Rows and a count asked for, one after the other. */
  function AskedBoth(asked: M.Asked, table: string, f: Filter, rows: nat, count: nat): M.Asked {
    asked[rows := (table, RowsWhere(None))][count := (table, CountOf(f))]
  }

  lemma BothAsked(steps: seq<PStep>, n: nat, table: string, asked: M.Asked, f: Filter, rows: nat, count: nat)
    requires Knows(steps, n, table, asked) && n + 1 < |steps| && GoodFilter(f)
    requires Asks(steps[n], table, RowsWhere(None), rows) && Asks(steps[n + 1], table, CountOf(f), count)
    ensures Knows(steps, n + 2, table, AskedBoth(asked, table, f, rows, count))
  {
    hide Knows, GoodFilter;
    assert GoodSpec(RowsWhere(None)) by { assert GoodFilter(None) by { NoFilter(); } }
    KnowsAsked(steps, n, table, asked, RowsWhere(None), rows);
    KnowsAsked(steps, n + 1, table, asked[rows := (table, RowsWhere(None))], CountOf(f), count);
  }

  lemma NoFilter()
    ensures GoodFilter(None)
  {
  }

  lemma IndexPosed(env: Checks, spelling: Spelling, texts: Texts, table: string, rows: seq<Ledger.Row>, pred: Pred, steps: seq<PStep>)
    requires Spells(spelling, env) && Moduli(pred) && Filled(IndexInvariance(spelling, texts, table, rows, pred), steps)
    ensures AllPosed(env, steps)
  {
    hide Moduli, Knows, Posed, AskedBoth;
    var f := M.Arm(pred, IsTrue);
    KnowsTable(steps, table);
    BothAsked(steps, 2, table, map[], f, 0, 1);
    var a := AskedBoth(map[], table, f, 0, 1);
    KnowsStill(steps, 4, table, a);
    BothAsked(steps, 5, table, a, f, 2, 3);
    SameAsked(env, steps, table, f);
  }

  lemma SameAsked(env: Checks, steps: seq<PStep>, table: string, f: Filter)
    requires |steps| > 8 && GoodFilter(f) && IsCheck(steps[7]) && IsCheck(steps[8])
    requires Knows(steps, 7, table, AskedBoth(AskedBoth(map[], table, f, 0, 1), table, f, 2, 3))
    requires env.decode(JsonOf(steps[7])) == Some(Check.MultisetEq(0, 2)) && env.decode(JsonOf(steps[8])) == Some(Check.ScalarPairEq(1, 3))
    ensures Posed(env, steps, 7) && Posed(env, steps, 8)
  {
    hide Knows, Posed;
    var b := AskedBoth(AskedBoth(map[], table, f, 0, 1), table, f, 2, 3);
    KnowsPosed(env, steps, 7, table, b, Check.MultisetEq(0, 2), M.SameRows(None));
    KnowsPosed(env, steps, 8, table, b, Check.ScalarPairEq(1, 3), M.SameCounts(f));
  }

  /** What is drawn for an instance. */
  datatype Draw =
    | TlpDraw(texts: Texts, table: string, rows: seq<Ledger.Row>, pred: Pred, q: M.Question)
    | NorecDraw(texts: Texts, table: string, rows: seq<Ledger.Row>, pred: Pred, armed: Option<seq<(string, string)>>)
    | AggDraw(texts: Texts, table: string, rows: seq<Ledger.Row>, pred: Pred)
    | IndexDraw(texts: Texts, table: string, rows: seq<Ledger.Row>, pred: Pred)

  function Make(spelling: Spelling, d: Draw): seq<PStep> {
    match d
    case TlpDraw(texts, table, rows, pred, q) => Tlp(spelling, texts, table, rows, pred, q)
    case NorecDraw(texts, table, rows, pred, armed) => NoRec(spelling, texts, table, rows, pred, armed)
    case AggDraw(texts, table, rows, pred) => AggConsistency(spelling, texts, table, rows, pred)
    case IndexDraw(texts, table, rows, pred) => IndexInvariance(spelling, texts, table, rows, pred)
  }

  /** Every instance of the four properties, whatever fills its noise slots, puts all its checks to answers. */
  lemma MadePosed(env: Checks, spelling: Spelling, d: Draw, steps: seq<PStep>)
    requires Spells(spelling, env) && Moduli(d.pred) && Filled(Make(spelling, d), steps)
    ensures AllPosed(env, steps)
  {
    hide Spells, Moduli, Filled, AllPosed, Tlp, NoRec, AggConsistency, IndexInvariance;
    match d
    case TlpDraw(texts, table, rows, pred, q) => TlpPosed(env, spelling, texts, table, rows, pred, q, steps);
    case NorecDraw(texts, table, rows, pred, armed) => NorecPosed(env, spelling, texts, table, rows, pred, armed, steps);
    case AggDraw(texts, table, rows, pred) => AggPosed(env, spelling, texts, table, rows, pred, steps);
    case IndexDraw(texts, table, rows, pred) => IndexPosed(env, spelling, texts, table, rows, pred, steps);
  }
}
