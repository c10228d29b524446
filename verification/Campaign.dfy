/** From the generator to the evaluator: a generated plan, its recorded instances, and a runner that works it off. */
module Campaign {
  import opened Budget
  import opened Generator
  import opened GeneratorRun
  import opened Probe
  import L = Alignment
  import V = Verdicts
  import Properties
  import LM = LedgerMachine
  import S = Schema

  /** What the engine answers to a step of a block. */
  type Engine = (nat, nat) -> StmtResult

  function ReportsOf(engine: Engine, it: Item): (r: seq<StmtResult>)
    requires it.Property?
    ensures |r| == |it.steps|
  {
    seq(|it.steps|, i requires 0 <= i < |it.steps| => engine(it.seq', i))
  }

  function StepsOf(bySeq: map<nat, Instance>): map<nat, seq<L.PStep>> { map k | k in bySeq :: bySeq[k].steps }

  /** The copying engine after the blocks of a plan. */
  ghost function EngineAfter(r: LM.RefState, items: seq<Item>, bySeq: map<nat, Instance>): LM.RefState
    requires Covered(items, bySeq)
    decreases |items|
  {
    if items == [] then r
    else
      var n := |items| - 1;
      FrontCovered(items, bySeq);
      var before := EngineAfter(r, items[..n], bySeq);
      if items[n].Property? then
        var steps := bySeq[items[n].seq'].steps;
        L.EngineAt(before, steps, |steps|)
      else before
  }

  lemma FrontCovered(items: seq<Item>, bySeq: map<nat, Instance>)
    requires Covered(items, bySeq) && items != []
    ensures Covered(items[..|items| - 1], bySeq)
    ensures items[|items| - 1].Property? ==> CoveredAt(items[|items| - 1], bySeq)
  {
    hide CoveredAt;
  }

  /** Every block was answered by an engine that behaves like the copying reference, one block after another. */
  ghost predicate HonestAt(r: LM.RefState, plan: seq<Item>, bySeq: map<nat, Instance>, engine: Engine, n: nat)
    requires Covered(plan, bySeq) && n < |plan| && plan[n].Property?
  {
    PrefixCovered(plan, bySeq, n);
    var steps, reports := bySeq[plan[n].seq'].steps, ReportsOf(engine, plan[n]);
    |steps| <= |reports| && forall i :: 0 <= i < |steps| ==> L.Honest(EngineAfter(r, plan[..n], bySeq), steps, reports, i)
  }

  lemma PrefixCovered(plan: seq<Item>, bySeq: map<nat, Instance>, n: nat)
    requires Covered(plan, bySeq) && n <= |plan|
    ensures Covered(plan[..n], bySeq) && (n < |plan| && plan[n].Property? ==> CoveredAt(plan[n], bySeq))
  {
    hide CoveredAt;
  }

  ghost predicate HonestRun(r: LM.RefState, plan: seq<Item>, bySeq: map<nat, Instance>, engine: Engine)
    requires Covered(plan, bySeq)
  {
    forall n :: 0 <= n < |plan| && plan[n].Property? ==> HonestAt(r, plan, bySeq, engine, n)
  }

  /** Nothing complained of, and every check that was put to answers passed. */
  ghost predicate Clean(env: L.Checks, steps: seq<L.PStep>, told: L.Told) {
    && told.complaints == []
    && forall k :: 0 <= k < |told.verdicts| ==> PassedIfPosed(env, steps, told.verdicts[k])
  }

  ghost predicate PassedIfPosed(env: L.Checks, steps: seq<L.PStep>, v: (nat, L.CheckVerdict)) {
    v.0 < |steps| && L.IsCheck(steps[v.0]) && (V.Posed(env, steps, v.0) ==> v.1 == L.Passed)
  }

  /** Against an honest engine the evaluator says nothing but what it should. */
  lemma HonestIsClean(env: L.Checks, at: L.Place, engine: LM.RefState, told: L.Told)
    requires L.ToldRight(env, at, |at.steps|, told) && LM.Simulates(at.start, engine)
    requires forall i :: 0 <= i < |at.steps| ==> L.Honest(engine, at.steps, at.reports, i)
    ensures Clean(env, at.steps, told)
  {
    hide L.Honest, L.Complaints, LM.Simulates, L.CheckPositions, V.Posed, L.VerdictAt;
    L.NoFalseComplaint(at.start, engine, at.steps, at.reports, |at.steps|);
    forall k | 0 <= k < |told.verdicts|
      ensures PassedIfPosed(env, at.steps, told.verdicts[k])
    {
      var v := told.verdicts[k];
      CheckedThere(env, at, v);
      if V.Posed(env, at.steps, v.0) { V.PosedPassed(env, at, engine, v); }
    }
  }

  lemma CheckedThere(env: L.Checks, at: L.Place, v: (nat, L.CheckVerdict))
    requires L.VerdictAt(env, at, v)
    ensures v.0 < |at.steps| && L.IsCheck(at.steps[v.0])
  {
  }

  /** Exactly the steps that deviate from the copying engine are complained of. */
  ghost predicate Exact(before: LM.RefState, steps: seq<L.PStep>, reports: seq<StmtResult>, told: L.Told) {
    |steps| <= |reports| && forall i :: i in told.complaints <==> 0 <= i < |steps| && L.DeviatesAt(before, steps, reports, i)
  }

  lemma RegularIsExact(env: L.Checks, at: L.Place, engine: LM.RefState, told: L.Told)
    requires L.ToldRight(env, at, |at.steps|, told) && LM.Simulates(at.start, engine) && L.Regular(engine, at.steps, |at.steps|)
    ensures Exact(engine, at.steps, at.reports, told)
  {
    hide L.Regular, L.Complaints, LM.Simulates, L.CheckPositions, L.VerdictAt, L.DeviatesAt;
    L.ComplaintsExact(at.start, engine, at.steps, at.reports, |at.steps|);
  }

  /** No block of the plan opens a transaction inside another. */
  ghost predicate RegularAt(r: LM.RefState, plan: seq<Item>, bySeq: map<nat, Instance>, n: nat)
    requires Covered(plan, bySeq) && n < |plan| && plan[n].Property?
  {
    PrefixCovered(plan, bySeq, n);
    var steps := bySeq[plan[n].seq'].steps;
    L.Regular(EngineAfter(r, plan[..n], bySeq), steps, |steps|)
  }

  ghost predicate RegularRun(r: LM.RefState, plan: seq<Item>, bySeq: map<nat, Instance>)
    requires Covered(plan, bySeq)
  {
    forall n :: 0 <= n < |plan| && plan[n].Property? ==> RegularAt(r, plan, bySeq, n)
  }

  /** What was told of one block of a plan is exact. */
  ghost predicate ExactAt(r: LM.RefState, plan: seq<Item>, bySeq: map<nat, Instance>, engine: Engine, told: seq<L.Told>, n: nat)
    requires Covered(plan, bySeq) && n < |plan| && plan[n].Property?
  {
    PrefixCovered(plan, bySeq, n);
    var k := |PropsIn(plan[..n])|;
    k < |told| && Exact(EngineAfter(r, plan[..n], bySeq), bySeq[plan[n].seq'].steps, ReportsOf(engine, plan[n]), told[k])
  }

  lemma ExactStays(r: LM.RefState, plan: seq<Item>, bySeq: map<nat, Instance>, engine: Engine, told: seq<L.Told>, t: L.Told, n: nat)
    requires Covered(plan, bySeq) && n < |plan| && plan[n].Property? && ExactAt(r, plan, bySeq, engine, told, n)
    ensures ExactAt(r, plan, bySeq, engine, told + [t], n)
  {
    hide Exact, PropsIn;
  }

  /** One block: the evaluator follows it to its end, complains of exactly what deviates, and says nothing untoward if the engine was honest. */
  method FollowBlock(eval: L.OracleEval, env: L.Checks, it: Item, engine: Engine, ghost before: LM.RefState)
    returns (told: L.Told, dead: bool)
    requires eval.Valid() && it.Property? && it.seq' in eval.bySeq && L.Aligned(it.steps, eval.bySeq[it.seq'])
    modifies eval, eval.ledger
    ensures eval.Valid() && !dead
    ensures var steps := eval.bySeq[it.seq'];
            |steps| == |it.steps|
            && (LM.Simulates(old(eval.ledger.View()), before)
                && (forall i :: 0 <= i < |steps| ==> L.Honest(before, steps, ReportsOf(engine, it), i)) ==>
                  Clean(env, steps, told) && LM.Simulates(eval.ledger.View(), L.EngineAt(before, steps, |steps|)))
            && (LM.Simulates(old(eval.ledger.View()), before) && L.Regular(before, steps, |steps|) ==>
                  Exact(before, steps, ReportsOf(engine, it), told) && LM.Simulates(eval.ledger.View(), L.EngineAt(before, steps, |steps|)))
  {
    hide L.Honest, L.Regular, L.EngineAt, LM.Simulates, L.SeeAll, L.ToldRight, Clean, Exact;
    var reports := ReportsOf(engine, it);
    ghost var start, steps := eval.ledger.View(), eval.bySeq[it.seq'];
    told := L.RunProperty(eval, env, it.seq', it.steps, reports);
    dead := eval.dead;
    if LM.Simulates(start, before) && forall i :: 0 <= i < |steps| ==> L.Honest(before, steps, reports, i) {
      L.NoFalseComplaint(start, before, steps, reports, |steps|);
      HonestIsClean(env, L.Place(it.seq', steps, start, reports), before, told);
    }
    if LM.Simulates(start, before) && L.Regular(before, steps, |steps|) {
      L.ComplaintsExact(start, before, steps, reports, |steps|);
      RegularIsExact(env, L.Place(it.seq', steps, start, reports), before, told);
    }
    eval.OnPropertyEnd();
  }

  lemma PropsSnoc(front: seq<Item>, it: Item)
    ensures it.Property? ==> PropsIn(front + [it]) == PropsIn(front) + [BlockOf(it)]
    ensures !it.Property? ==> PropsIn(front + [it]) == PropsIn(front)
  {
    hide PropsIn;
    PropsConcat(front, [it]);
    PropsOfOne(it);
  }

  lemma EngineSnoc(r: LM.RefState, plan: seq<Item>, bySeq: map<nat, Instance>, n: nat)
    requires Covered(plan, bySeq) && n < |plan|
    ensures Covered(plan[..n], bySeq) && Covered(plan[..n + 1], bySeq)
    ensures !plan[n].Property? ==> EngineAfter(r, plan[..n + 1], bySeq) == EngineAfter(r, plan[..n], bySeq)
    ensures plan[n].Property? ==>
              && CoveredAt(plan[n], bySeq)
              && var steps := bySeq[plan[n].seq'].steps;
                 EngineAfter(r, plan[..n + 1], bySeq) == L.EngineAt(EngineAfter(r, plan[..n], bySeq), steps, |steps|)
  {
    hide CoveredAt, L.EngineAt;
    PrefixCovered(plan, bySeq, n);
    PrefixCovered(plan, bySeq, n + 1);
    assert plan[..n + 1][..n] == plan[..n];
  }

  /** What was told of every block, in order. */
  ghost predicate AllClean(env: L.Checks, blocks: seq<Block>, bySeq: map<nat, Instance>, told: seq<L.Told>) {
    |told| == |blocks| && forall i :: 0 <= i < |told| ==> blocks[i].seq' in bySeq && Clean(env, bySeq[blocks[i].seq'].steps, told[i])
  }

  lemma CleanSnoc(env: L.Checks, blocks: seq<Block>, bySeq: map<nat, Instance>, told: seq<L.Told>, b: Block, t: L.Told)
    requires AllClean(env, blocks, bySeq, told) && b.seq' in bySeq && Clean(env, bySeq[b.seq'].steps, t)
    ensures AllClean(env, blocks + [b], bySeq, told + [t])
  {
    hide Clean;
  }

  /** The runner works off a whole plan: on every block the evaluator lives to the end, and if the engine behaved like the
      copying reference throughout, nothing is ever complained of and every check put to answers passes. */
  method FollowPlan(eval: L.OracleEval, env: L.Checks, plan: seq<Item>, bySeq: map<nat, Instance>,
                    engine: Engine, ghost r: LM.RefState)
    returns (told: seq<L.Told>, dead: seq<bool>)
    requires eval.Valid() && eval.bySeq == StepsOf(bySeq) && Covered(plan, bySeq) && LM.Simulates(eval.ledger.View(), r)
    modifies eval, eval.ledger
    ensures |told| == |dead| == |PropsIn(plan)| && forall i :: 0 <= i < |dead| ==> !dead[i]
    ensures HonestRun(r, plan, bySeq, engine) ==> AllClean(env, PropsIn(plan), bySeq, told)
    ensures RegularRun(r, plan, bySeq) ==>
              forall n :: 0 <= n < |plan| && plan[n].Property? ==> ExactAt(r, plan, bySeq, engine, told, n)
  {
    hide ExactAt, Exact, L.Regular, RegularAt, AllClean, Clean, PropsIn, L.Honest, L.EngineAt, LM.Simulates, EngineAfter, Covered, HonestAt, L.Aligned;
    told, dead := [], [];
    ghost var honest, regular := HonestRun(r, plan, bySeq, engine), RegularRun(r, plan, bySeq);
    Start(r, plan, bySeq);
    NothingToldYet(env, plan, bySeq);
    for n := 0 to |plan|
      invariant eval.Valid() && Covered(plan[..n], bySeq)
      invariant |told| == |dead| == |PropsIn(plan[..n])| && forall i :: 0 <= i < |dead| ==> !dead[i]
      invariant honest || regular ==> LM.Simulates(eval.ledger.View(), EngineAfter(r, plan[..n], bySeq))
      invariant regular ==> forall m :: 0 <= m < n && plan[m].Property? ==> ExactAt(r, plan, bySeq, engine, told, m)
      invariant honest ==> AllClean(env, PropsIn(plan[..n]), bySeq, told)
    {
      assert plan[..n + 1] == plan[..n] + [plan[n]];
      PropsSnoc(plan[..n], plan[n]);
      EngineSnoc(r, plan, bySeq, n);
      if plan[n].Property? {
        if honest { HonestHere(r, plan, bySeq, engine, n); }
        if regular { RegularHere(r, plan, bySeq, n); }
        var t, d := FollowBlock(eval, env, plan[n], engine, EngineAfter(r, plan[..n], bySeq));
        if honest { CleanSnoc(env, PropsIn(plan[..n]), bySeq, told, BlockOf(plan[n]), t); }
        if regular {
          ExactHere(r, plan, bySeq, engine, told, t, n);
          forall m | 0 <= m < n && plan[m].Property?
            ensures ExactAt(r, plan, bySeq, engine, told + [t], m)
          {
            ExactStays(r, plan, bySeq, engine, told, t, m);
          }
        }
        told, dead := told + [t], dead + [d];
      }
    }
    assert plan[..|plan|] == plan;
  }

  lemma NothingToldYet(env: L.Checks, plan: seq<Item>, bySeq: map<nat, Instance>)
    ensures AllClean(env, PropsIn(plan[..0]), bySeq, [])
  {
  }

  lemma Start(r: LM.RefState, plan: seq<Item>, bySeq: map<nat, Instance>)
    ensures Covered(plan[..0], bySeq) && EngineAfter(r, plan[..0], bySeq) == r && |PropsIn(plan[..0])| == 0
  {
  }

  lemma RegularHere(r: LM.RefState, plan: seq<Item>, bySeq: map<nat, Instance>, n: nat)
    requires Covered(plan, bySeq) && RegularRun(r, plan, bySeq) && n < |plan| && plan[n].Property?
    ensures CoveredAt(plan[n], bySeq) && Covered(plan[..n], bySeq)
    ensures var steps := bySeq[plan[n].seq'].steps; L.Regular(EngineAfter(r, plan[..n], bySeq), steps, |steps|)
  {
    hide CoveredAt, L.Regular, EngineAfter;
    PrefixCovered(plan, bySeq, n);
    assert RegularAt(r, plan, bySeq, n);
  }

  lemma ExactHere(r: LM.RefState, plan: seq<Item>, bySeq: map<nat, Instance>, engine: Engine, told: seq<L.Told>, t: L.Told, n: nat)
    requires Covered(plan, bySeq) && n < |plan| && plan[n].Property? && |told| == |PropsIn(plan[..n])|
    requires CoveredAt(plan[n], bySeq) && Covered(plan[..n], bySeq)
    requires Exact(EngineAfter(r, plan[..n], bySeq), bySeq[plan[n].seq'].steps, ReportsOf(engine, plan[n]), t)
    ensures ExactAt(r, plan, bySeq, engine, told + [t], n)
  {
    hide Exact, PropsIn, EngineAfter, CoveredAt;
  }

  lemma HonestHere(r: LM.RefState, plan: seq<Item>, bySeq: map<nat, Instance>, engine: Engine, n: nat)
    requires Covered(plan, bySeq) && HonestRun(r, plan, bySeq, engine) && n < |plan| && plan[n].Property?
    ensures CoveredAt(plan[n], bySeq) && Covered(plan[..n], bySeq)
    ensures var steps, reports := bySeq[plan[n].seq'].steps, ReportsOf(engine, plan[n]);
            |steps| <= |reports| && forall i :: 0 <= i < |steps| ==> L.Honest(EngineAfter(r, plan[..n], bySeq), steps, reports, i)
  {
    hide CoveredAt, L.Honest, EngineAfter;
    PrefixCovered(plan, bySeq, n);
    assert HonestAt(r, plan, bySeq, engine, n);
  }

  /** A property all of whose checks are put to answers, on every draw. */
  ghost predicate Answerable(env: L.Checks, p: PropGen) {
    forall draw, steps :: L.Filled(p.make(draw), steps) ==> V.AllPosed(env, steps)
  }

  /** No complaint, and no check that failed or was skipped. */
  ghost predicate NothingToReport(told: L.Told) {
    told.complaints == [] && forall k :: 0 <= k < |told.verdicts| ==> told.verdicts[k].1 == L.Passed
  }

  lemma AllPassed(env: L.Checks, registry: seq<PropGen>, blocks: seq<Block>, bySeq: map<nat, Instance>, told: seq<L.Told>)
    requires AllClean(env, blocks, bySeq, told) && (forall k :: k in bySeq ==> FromRegistry(registry, bySeq[k]))
    requires forall j :: 0 <= j < |registry| ==> Answerable(env, registry[j])
    ensures forall i :: 0 <= i < |told| ==> NothingToReport(told[i])
  {
    hide FromRegistry, Answerable, Clean, NothingToReport;
    forall i | 0 <= i < |told|
      ensures NothingToReport(told[i])
    {
      InstancePosed(env, registry, bySeq[blocks[i].seq']);
      CleanPassed(env, bySeq[blocks[i].seq'].steps, told[i]);
    }
  }

  lemma InstancePosed(env: L.Checks, registry: seq<PropGen>, inst: Instance)
    requires FromRegistry(registry, inst) && forall j :: 0 <= j < |registry| ==> Answerable(env, registry[j])
    ensures V.AllPosed(env, inst.steps)
  {
    hide L.Filled, V.AllPosed;
    var j, draw :| 0 <= j < |registry| && MadeBy(registry[j], draw, inst);
    assert Answerable(env, registry[j]);
  }

  lemma CleanPassed(env: L.Checks, steps: seq<L.PStep>, told: L.Told)
    requires Clean(env, steps, told) && V.AllPosed(env, steps)
    ensures NothingToReport(told)
  {
    hide V.Posed;
    forall k | 0 <= k < |told.verdicts|
      ensures told.verdicts[k].1 == L.Passed
    {
      assert PassedIfPosed(env, steps, told.verdicts[k]);
    }
  }

  /** Generate a plan and work it off with a fresh evaluator over an empty database. */
  method Run(lowering: Lowering, allocation: seq<nat>, armSets: seq<seq<string>>, registry: seq<PropGen>,
             env: L.Checks, engine: Engine, ghost clears: Env, ghost server0: Server)
    returns (plan: seq<Item>, bySeq: map<nat, Instance>, told: seq<L.Told>, dead: seq<bool>)
    requires |allocation| == N_KINDS
    requires InStep(Model(S.EMPTY, FRESH_SESSION), server0)
    ensures ServeAll(clears, server0, plan).Some? && Covered(plan, bySeq)
    ensures |told| == |dead| == |PropsIn(plan)| && forall i :: 0 <= i < |dead| ==> !dead[i]
    ensures HonestRun(LM.REF_INITIAL, plan, bySeq, engine) ==> AllClean(env, PropsIn(plan), bySeq, told)
    ensures RegularRun(LM.REF_INITIAL, plan, bySeq) ==>
              forall n :: 0 <= n < |plan| && plan[n].Property? ==> ExactAt(LM.REF_INITIAL, plan, bySeq, engine, told, n)
    ensures HonestRun(LM.REF_INITIAL, plan, bySeq, engine) && (forall j :: 0 <= j < |registry| ==> Answerable(env, registry[j])) ==>
              forall i :: 0 <= i < |told| ==> NothingToReport(told[i])
  {
    hide ServeAll, InStep, Covered, HonestRun, RegularRun, ExactAt, LM.Simulates, AllClean, Answerable, NothingToReport, FromRegistry;
    plan, bySeq := GenerateWithContext(lowering, allocation, armSets, registry, clears, server0);
    var eval := new L.OracleEval(StepsOf(bySeq));
    EmptyAlike();
    told, dead := FollowPlan(eval, env, plan, bySeq, engine, LM.REF_INITIAL);
    if HonestRun(LM.REF_INITIAL, plan, bySeq, engine) && forall j :: 0 <= j < |registry| ==> Answerable(env, registry[j]) {
      AllPassed(env, registry, PropsIn(plan), bySeq, told);
    }
  }

  lemma EmptyAlike()
    ensures LM.Simulates(LM.INITIAL, LM.REF_INITIAL)
  {
  }

  /** A generator that makes only the four properties is answerable. */
  lemma FourAnswerable(env: L.Checks, spelling: Properties.Spelling, p: PropGen, draws: nat -> Properties.Draw)
    requires Properties.Spells(spelling, env)
    requires forall n :: p.make(n) == Properties.Make(spelling, draws(n)) && Moduli(draws(n).pred)
    ensures Answerable(env, p)
  {
    hide Properties.Make, Properties.Spells, L.Filled, V.AllPosed, Moduli;
    forall n, steps | L.Filled(p.make(n), steps)
      ensures V.AllPosed(env, steps)
    {
      Properties.MadePosed(env, spelling, draws(n), steps);
    }
  }
}
