/** What the checks of a block come out as when the engine answers its probes correctly. */
module Verdicts {
  import opened Common
  import opened Alignment
  import opened Probe
  import Ledger
  import LM = LedgerMachine
  import Check
  import M = Metamorphic

  function SlotOf(ps: PStep): Option<nat> { if ps.PSql? || ps.PJoin? then ps.slot else None }

  /** Which probes the slots answer after the first steps of a block; whatever the database may have changed since is
      no answer any more. */
  function Asked(steps: seq<PStep>, n: nat): M.Asked
    requires n <= |steps|
  {
    if n == 0 || EventAt(steps, n - 1).Some? then map[]
    else
      var before, slot := Asked(steps, n - 1), SlotOf(steps[n - 1]);
      match ProbeAt(steps, n - 1)
      case Some(p) => ProbeHasSlot(steps, n - 1); before[slot.value := p]
      case None => if slot.Some? then before - {slot.value} else before
  }

  /** Tables that are there after the first steps of a block, whatever was there before. */
  function Present(steps: seq<PStep>, n: nat): set<string>
    requires n <= |steps|
  {
    if n == 0 then {}
    else
      var before := Present(steps, n - 1);
      match EventAt(steps, n - 1)
      case None => before
      case Some(e) => PresentAfter(before, e)
  }

  function PresentAfter(before: set<string>, e: LM.Event): set<string> {
    match e
    case Rollback => {}
    case RollbackTo(_) => {}
    case Apply(op) => if op.CreateTable? then before + {op.table} else if op.DropTable? then before - {op.table} else before
    case _ => before
  }

  lemma PresentStays(r: LM.RefState, e: LM.Event, before: set<string>)
    requires before <= r.tables.Keys && (LM.RefStep(r, e).1.Verdict? ==> LM.RefStep(r, e).1.res.Success?)
    ensures PresentAfter(before, e) <= LM.RefStep(r, e).0.tables.Keys
  {
  }

  lemma NothingAsked(tables: Ledger.Tables)
    ensures forall stack :: M.AllAnswered(tables, map[], stack)
  {
  }

  lemma SlotFilled(v: View, steps: seq<PStep>, i: nat, res: StmtResult)
    requires i < |steps| && EventAt(steps, i).None?
    ensures See(v, steps[i], res).0.stack == Put(v.stack, SlotOf(steps[i]), res)
  {
  }

  lemma ProbeHasSlot(steps: seq<PStep>, i: nat)
    requires i < |steps| && ProbeAt(steps, i).Some?
    ensures EventAt(steps, i).None? && SlotOf(steps[i]).Some?
  {
  }

  lemma AnswerKept(tables: Ledger.Tables, asked: M.Asked, stack: map<nat, StmtResult>, slot: nat, p: (string, ProbeSpec), res: StmtResult)
    requires M.AllAnswered(tables, asked, stack) && GoodSpec(p.1) && Replied(tables, p, res)
    ensures M.AllAnswered(tables, asked[slot := p], stack[slot := res])
  {
    hide Answers, GoodSpec;
  }

  lemma AnswerLost(tables: Ledger.Tables, asked: M.Asked, stack: map<nat, StmtResult>, slot: nat, res: StmtResult)
    requires M.AllAnswered(tables, asked, stack)
    ensures M.AllAnswered(tables, asked - {slot}, stack[slot := res])
  {
    hide Answers, GoodSpec;
  }

  /** The slots hold correct answers to what was asked, over the rows the engine has now. */
  lemma {:induction false} AnsweredSoFar(start: LM.State, engine: LM.RefState, steps: seq<PStep>, reports: seq<StmtResult>, n: nat)
    requires n <= |steps| <= |reports|
    requires forall i :: 0 <= i < n ==> Honest(engine, steps, reports, i)
    ensures M.AllAnswered(EngineAt(engine, steps, n).tables, Asked(steps, n), SeeAll(start, steps, reports, n).stack)
    ensures Present(steps, n) <= EngineAt(engine, steps, n).tables.Keys
    decreases n
  {
    hide See, LM.RefStep, GoodSpec, Answers, Reconciles, EventAt, ProbeAt, SlotOf, M.AllAnswered;
    if n == 0 {
      NothingAsked(EngineAt(engine, steps, 0).tables);
    } else {
      AnsweredSoFar(start, engine, steps, reports, n - 1);
      assert Honest(engine, steps, reports, n - 1);
      if EventAt(steps, n - 1).Some? {
        PresentStays(EngineAt(engine, steps, n - 1), EventAt(steps, n - 1).value, Present(steps, n - 1));
        NothingAsked(EngineAt(engine, steps, n).tables);
      } else {
        var before, slot := SeeAll(start, steps, reports, n - 1), SlotOf(steps[n - 1]);
        SlotFilled(before, steps, n - 1, reports[n - 1]);
        var tables, asked := EngineAt(engine, steps, n - 1).tables, Asked(steps, n - 1);
        if ProbeAt(steps, n - 1).Some? {
          ProbeHasSlot(steps, n - 1);
          AnswerKept(tables, asked, before.stack, slot.value, ProbeAt(steps, n - 1).value, reports[n - 1]);
        } else if slot.Some? {
          AnswerLost(tables, asked, before.stack, slot.value, reports[n - 1]);
        }
      }
    }
  }

  /** A check over probes of a table that is there, put to their answers before anything can have changed. */
  ghost predicate Posed(env: Checks, steps: seq<PStep>, i: nat)
    requires i < |steps| && IsCheck(steps[i])
  {
    var check := env.decode(JsonOf(steps[i]));
    check.Some? && exists table, pose :: table in Present(steps, i) && M.PosedBy(check.value, Asked(steps, i), table, pose)
  }

  ghost predicate AllPosed(env: Checks, steps: seq<PStep>) {
    forall i :: 0 <= i < |steps| && IsCheck(steps[i]) ==> Posed(env, steps, i)
  }

  /** Against an engine that answers like the copying reference, such a check passes. */
  lemma PosedPassed(env: Checks, at: Place, engine: LM.RefState, v: (nat, CheckVerdict))
    requires VerdictAt(env, at, v) && Posed(env, at.steps, v.0) && LM.Simulates(at.start, engine)
    requires forall i :: 0 <= i < v.0 ==> Honest(engine, at.steps, at.reports, i)
    ensures v.1 == Passed
  {
    hide Honest, M.AllAnswered, M.PosedBy, Check.Law, Check.Errored, Check.MetamorphicSlots, Check.NoHook, Asked, Present, SeeAll, EngineAt;
    var n := v.0;
    var check := env.decode(JsonOf(at.steps[n])).value;
    var table, pose :| table in Present(at.steps, n) && M.PosedBy(check, Asked(at.steps, n), table, pose);
    AnsweredSoFar(at.start, engine, at.steps, at.reports, n);
    NoFalseComplaint(at.start, engine, at.steps, at.reports, n);
    SameTables(SeeAll(at.start, at.steps, at.reports, n).ledger, EngineAt(engine, at.steps, n));
    M.PosedPasses(EngineAt(engine, at.steps, n).tables, Asked(at.steps, n), SeeAll(at.start, at.steps, at.reports, n).stack,
                  check, table, pose);
  }

  lemma SameTables(s: LM.State, r: LM.RefState)
    requires LM.Simulates(s, r)
    ensures s.tables == r.tables
  {
  }

  // ---- reading off what has been asked --------------------------------------------------------------------------

  /** In the first session, with this table there and the slots answering exactly these probes. */
  ghost predicate Knows(steps: seq<PStep>, n: nat, table: string, asked: M.Asked) {
    n <= |steps| && SessionAt(steps, n) == 0 && table in Present(steps, n) && Asked(steps, n) == asked
  }

  /** A block that creates a table and fills it. */
  lemma KnowsTable(steps: seq<PStep>, table: string)
    requires |steps| >= 2 && steps[0].PSql? && steps[0].op.Some? && steps[0].op.value.CreateTable? && steps[0].op.value.table == table
    requires steps[1].PSql? && steps[1].op.Some? && steps[1].op.value.InsertValues?
    ensures Knows(steps, 2, table, map[])
  {
    assert SessionAt(steps, 1) == 0;
    assert Present(steps, 1) == {table};
  }

  lemma KnowsAsked(steps: seq<PStep>, n: nat, table: string, asked: M.Asked, spec: ProbeSpec, slot: nat)
    requires Knows(steps, n, table, asked) && n < |steps| && GoodSpec(spec)
    requires steps[n].PSql? && steps[n].op.None? && steps[n].probe == Some((table, spec)) && steps[n].slot == Some(slot)
    ensures Knows(steps, n + 1, table, asked[slot := (table, spec)])
  {
    hide GoodSpec;
  }

  predicate Quiet(ps: PStep) { Blank(ps) || ps.PArm? || IsCheck(ps) }

  lemma KnowsStill(steps: seq<PStep>, n: nat, table: string, asked: M.Asked)
    requires Knows(steps, n, table, asked) && n < |steps| && Quiet(steps[n])
    ensures Knows(steps, n + 1, table, asked)
  {
    hide GoodSpec;
  }

  lemma {:induction false} KnowsThrough(steps: seq<PStep>, k: nat, n: nat, table: string, asked: M.Asked)
    requires Knows(steps, k, table, asked) && k <= n <= |steps| && forall j :: k <= j < n ==> Quiet(steps[j])
    ensures Knows(steps, n, table, asked)
    decreases n - k
  {
    hide Knows, Quiet;
    if k < n {
      KnowsStill(steps, k, table, asked);
      KnowsThrough(steps, k + 1, n, table, asked);
    }
  }

  lemma KnowsPosed(env: Checks, steps: seq<PStep>, n: nat, table: string, asked: M.Asked, check: Check.Check, pose: M.Pose)
    requires Knows(steps, n, table, asked) && n < |steps| && IsCheck(steps[n]) && env.decode(JsonOf(steps[n])) == Some(check)
    requires M.PosedBy(check, asked, table, pose)
    ensures Posed(env, steps, n) && Knows(steps, n + 1, table, asked)
  {
    hide M.PosedBy, Asked, Present;
    KnowsStill(steps, n, table, asked);
  }
}
