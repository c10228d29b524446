/** How an oracle property becomes plan steps, and how the evaluator follows the runner through them. */
module Alignment {
  import opened Common
  import opened Plan
  import FlatPlan
  import Ledger
  import LM = LedgerMachine
  import opened LedgerStore
  import Check
  import opened Probe

  /** A step as the oracle sees it. */
  datatype PStep =
    | PSql(text: string, mark: Mark, flags: SqlFlags, op: Option<Ledger.Op>, probe: Option<(string, ProbeSpec)>, slot: Option<nat>)
    | PTx(tx: TxCtl)
    | PArm(arm: ArmCtl)
    | PAssume(json: string)
    | PAssert(json: string)
    | PNoise
    | PSession(id: nat)
    | PAsync(text: string, mark: Mark)
    | PJoin(id: nat, slot: Option<nat>)
    | PWait(text: string, mark: Mark)

  // ---- lowering ------------------------------------------------------------------------------------------

  const NO_FLAGS := SqlFlags(false, false)

  /** Statement kinds are told apart by their text, which is left to a parameter. */
  function LowerSql(kind: string -> nat, text: string, mark: Mark, flags: SqlFlags): Option<Step> {
    var sql := Sql(text + ";", mark, flags);
    if !SqlOk(sql.text) then None
    else if kind(text) == 0 then Some(Ddl(sql))
    else if kind(text) == 1 then Some(Dml(sql))
    else Some(Query(sql))
  }

  /** A statement is lowered exactly if it is one line and no comment, to a step of the kind its text shows, with a
      semicolon added. */
  lemma LoweredSql(kind: string -> nat, text: string, mark: Mark, flags: SqlFlags)
    ensures var step := LowerSql(kind, text, mark, flags);
            && (step.Some? <==> '\n' !in text && '\r' !in text && !("--" <= text))
            && (step.Some? ==>
                  && step.value == (if kind(text) == 0 then Ddl(Sql(text + ";", mark, flags))
                                    else if kind(text) == 1 then Dml(Sql(text + ";", mark, flags))
                                    else Query(Sql(text + ";", mark, flags))))
  {
    var t := text + ";";
    assert t[|t| - 1] == ';' && (forall i :: 0 <= i < |text| ==> t[i] == text[i]);
    assert "--" <= t <==> "--" <= text by {
      if "--" <= t {
        assert t[0] == '-' && t[1] == '-' && |text| >= 2;
        assert text[..2] == "--";
      }
    }
    assert OneLine(t) <==> OneLine(text);
  }

  /** A query put in a noise slot, recorded as a statement the oracle knows nothing about. */
  function Opaque(q: Sql): PStep {
    PSql(FlatPlan.TrimSemis(q.text), q.mark, q.flags, None, None, None)
  }

  /** One step lowered: the plan step and what is recorded beside it. */
  function LowerStep(isJson: string -> bool, kind: string -> nat, ps: PStep, noise: Sql): Option<(Step, PStep)> {
    match ps
    case PSql(text, mark, flags, _, _, _) =>
      (match LowerSql(kind, text, mark, flags)
       case None => None
       case Some(step) => Some((step, ps)))
    case PTx(tx) => Some((Tx(tx), ps))
    case PArm(arm) => Some((Arm(arm), ps))
    case PAssume(json) => if CheckOk(isJson, json) then Some((Assumption(json), ps)) else None
    case PAssert(json) => if CheckOk(isJson, json) then Some((Assertion(json), ps)) else None
    case PNoise => Some((Query(noise), Opaque(noise)))
    case PSession(id) => Some((Session(id), ps))
    case PAsync(text, mark) => if SqlOk(text + ";") then Some((AsyncDml(Sql(text + ";", mark, NO_FLAGS)), ps)) else None
    case PJoin(id, _) => Some((Step.Join(id), ps))
    case PWait(text, mark) => if SqlOk(text + ";") then Some((WaitUntil(Sql(text + ";", mark, NO_FLAGS)), ps)) else None
  }

  /** A plan step and an oracle step of the same kind with the same content. */
  predicate Corresponds(step: Step, ps: PStep) {
    match ps
    case PSql(text, mark, flags, _, _, _) =>
      && (step.Ddl? || step.Dml? || step.Query?)
      && step.sql.mark == mark && step.sql.flags == flags && FlatPlan.TrimSemis(step.sql.text) == FlatPlan.TrimSemis(text)
    case PTx(tx) => step == Tx(tx)
    case PArm(arm) => step == Arm(arm)
    case PAssume(json) => step == Assumption(json)
    case PAssert(json) => step == Assertion(json)
    case PNoise => false
    case PSession(id) => step == Session(id)
    case PAsync(text, mark) => step == AsyncDml(Sql(text + ";", mark, NO_FLAGS))
    case PJoin(id, _) => step == Step.Join(id)
    case PWait(text, mark) => step == WaitUntil(Sql(text + ";", mark, NO_FLAGS))
  }

  ghost predicate Aligned(steps: seq<Step>, recorded: seq<PStep>) {
    |steps| == |recorded| && forall i :: 0 <= i < |steps| ==> Corresponds(steps[i], recorded[i])
  }

  lemma TrimAgain(s: string)
    ensures FlatPlan.TrimSemis(FlatPlan.TrimSemis(s)) == FlatPlan.TrimSemis(s)
    ensures FlatPlan.TrimSemis(s + ";") == FlatPlan.TrimSemis(s)
  {
    assert (s + ";")[..|s|] == s;
  }

  lemma LoweredCorresponds(isJson: string -> bool, kind: string -> nat, ps: PStep, noise: Sql)
    requires LowerStep(isJson, kind, ps, noise).Some?
    ensures var (step, rec) := LowerStep(isJson, kind, ps, noise).value;
            Corresponds(step, rec) && (!ps.PNoise? ==> rec == ps) && (ps.PNoise? ==> rec == Opaque(noise))
  {
    hide FlatPlan.TrimSemis, SqlOk, CheckOk;
    if ps.PSql? { TrimAgain(ps.text); }
    if ps.PNoise? { TrimAgain(noise.text); }
  }

  /** A statement the oracle knows nothing about and keeps no answer of. */
  predicate Blank(ps: PStep) { ps.PSql? && ps.op.None? && ps.probe.None? && ps.slot.None? }

  /** The recorded steps of a property: its own, with its noise slots filled. */
  ghost predicate Filled(made: seq<PStep>, steps: seq<PStep>) {
    |steps| == |made| && forall i :: 0 <= i < |made| ==> if made[i].PNoise? then Blank(steps[i]) else steps[i] == made[i]
  }

  /** Lower a property step by step; a step that cannot be lowered gives the property up. */
  method Lower(isJson: string -> bool, kind: string -> nat, inst: seq<PStep>, noise: nat -> Sql)
    returns (r: Option<(seq<Step>, seq<PStep>)>)
    ensures r.None? <==> exists i :: 0 <= i < |inst| && LowerStep(isJson, kind, inst[i], noise(i)).None?
    ensures r.Some? ==> Aligned(r.value.0, r.value.1) && |r.value.1| == |inst|
    ensures r.Some? ==> forall i :: 0 <= i < |inst| ==>
              LowerStep(isJson, kind, inst[i], noise(i)) == Some((r.value.0[i], r.value.1[i]))
    ensures r.Some? ==> Filled(inst, r.value.1)
  {
    hide LowerStep, Corresponds, Opaque;
    var steps: seq<Step>, recorded: seq<PStep> := [], [];
    for i := 0 to |inst|
      invariant |steps| == |recorded| == i
      invariant forall j :: 0 <= j < i ==> LowerStep(isJson, kind, inst[j], noise(j)) == Some((steps[j], recorded[j]))
      invariant forall j :: 0 <= j < i ==> Corresponds(steps[j], recorded[j])
      invariant forall j :: 0 <= j < i ==> recorded[j] == if inst[j].PNoise? then Opaque(noise(j)) else inst[j]
    {
      var low := LowerStep(isJson, kind, inst[i], noise(i));
      if low.None? {
        return None;
      }
      LoweredCorresponds(isJson, kind, inst[i], noise(i));
      steps := steps + [low.value.0];
      recorded := recorded + [low.value.1];
    }
    OpaqueIsBlank();
    return Some((steps, recorded));
  }

  lemma OpaqueIsBlank()
    ensures forall q :: Blank(Opaque(q))
  {
  }

  // ---- what the evaluator should have seen --------------------------------------------------------------------

  predicate Silent(ps: PStep) { ps.PSession? || ps.PAsync? || ps.PWait? }

  predicate IsCheck(ps: PStep) { ps.PAssume? || ps.PAssert? }

  /** The session in force, the filled slots, and the ledger. */
  datatype View = View(session: nat, stack: map<nat, StmtResult>, ledger: LM.State)

  function Put(stack: map<nat, StmtResult>, slot: Option<nat>, res: StmtResult): map<nat, StmtResult> {
    if slot.Some? then stack[slot.value := res] else stack
  }

  /** What the engine did is what the ledger expects: the same count, or an error of the same class. */
  predicate Reconciles(expected: Ledger.Outcome, res: StmtResult) {
    match (expected, res)
    case (Ok(n), Command(m)) => n == m
    case (Ok(n), Rows(rows)) => n == |rows|
    case (Ok(_), Error(_)) => false
    case (Err(e), Error(s)) => Check.Class(e) == Check.Class(s)
    case (Err(_), _) => false
  }

  predicate Agrees(expected: Result<Ledger.Outcome, Ledger.Misuse>, res: StmtResult) {
    expected.Success? && Reconciles(expected.value, res)
  }

  function EventOf(tx: TxCtl): LM.Event {
    match tx
    case Begin(_) => LM.Begin
    case Commit => LM.Commit
    case Rollback => LM.Rollback
    case Savepoint(name) => LM.Savepoint(name)
    case RollbackTo(name) => LM.RollbackTo(name)
  }

  /** The ledger takes an operation; a misuse or a disagreement is complained of and fills no slot. */
  ghost function SeeOp(v: View, op: Ledger.Op, slot: Option<nat>, res: StmtResult): (View, bool) {
    var (ledger, answer) := LM.Step(v.ledger, LM.Apply(op));
    if Agrees(answer.res, res) then (View(v.session, Put(v.stack, slot, res), ledger), false)
    else (v.(ledger := ledger), true)
  }

  /** The ledger follows transaction control of the first session only. */
  ghost function SeeTx(v: View, tx: TxCtl): (View, bool) {
    if v.session != 0 then (v, false)
    else
      var (ledger, answer) := LM.Step(v.ledger, EventOf(tx));
      (v.(ledger := ledger), answer.Refused?)
  }

  /** One step seen: the new view, and whether the oracle complains. */
  ghost function See(v: View, ps: PStep, res: StmtResult): (View, bool) {
    match ps
    case PSession(id) => (v.(session := id), false)
    case PSql(_, _, _, None, _, slot) => (v.(stack := Put(v.stack, slot, res)), false)
    case PSql(_, _, _, Some(op), _, slot) => SeeOp(v, op, slot, res)
    case PTx(tx) => SeeTx(v, tx)
    case PJoin(_, slot) => (v.(stack := Put(v.stack, slot, res)), false)
    case _ => (v, false)
  }

  ghost function SeeAll(start: LM.State, steps: seq<PStep>, reports: seq<StmtResult>, n: nat): View
    requires n <= |steps| <= |reports|
  {
    if n == 0 then View(0, map[], start)
    else See(SeeAll(start, steps, reports, n - 1), steps[n - 1], reports[n - 1]).0
  }

  /** A silent step changes the session at most. */
  lemma SilentSeen(start: LM.State, steps: seq<PStep>, reports: seq<StmtResult>, n: nat)
    requires n < |steps| <= |reports| && Silent(steps[n])
    ensures var v := SeeAll(start, steps, reports, n);
            SeeAll(start, steps, reports, n + 1) == v.(session := if steps[n].PSession? then steps[n].id else v.session)
  {
    hide SeeOp, SeeTx;
  }

  /** The steps of which the oracle complains. */
  ghost function Complaints(start: LM.State, steps: seq<PStep>, reports: seq<StmtResult>, n: nat): seq<nat>
    requires n <= |steps| <= |reports|
  {
    if n == 0 then []
    else
      var here := See(SeeAll(start, steps, reports, n - 1), steps[n - 1], reports[n - 1]).1;
      Complaints(start, steps, reports, n - 1) + if here then [n - 1] else []
  }

  /** Positions of the steps that report something. */
  function Loud(steps: seq<PStep>, n: nat): seq<nat>
    requires n <= |steps|
  {
    if n == 0 then [] else Loud(steps, n - 1) + if Silent(steps[n - 1]) then [] else [n - 1]
  }

  /** Exactly the steps that are no session switch, no asynchronous statement and no wait. */
  lemma {:induction false} LoudMeaning(steps: seq<PStep>, n: nat, i: nat)
    requires n <= |steps|
    ensures i in Loud(steps, n) <==> i < n && !(steps[i].PSession? || steps[i].PAsync? || steps[i].PWait?)
    decreases n
  {
    if n > 0 { LoudMeaning(steps, n - 1, i); }
  }

  lemma {:induction false} LoudInOrder(steps: seq<PStep>, n: nat)
    requires n <= |steps|
    ensures forall k :: 0 < k < |Loud(steps, n)| ==> Loud(steps, n)[k - 1] < Loud(steps, n)[k]
    ensures forall k :: 0 <= k < |Loud(steps, n)| ==> Loud(steps, n)[k] < n
  {
    if n > 0 { LoudInOrder(steps, n - 1); }
  }

  lemma {:induction false} SilentSkips(steps: seq<PStep>, j: nat, i: nat)
    requires j <= i <= |steps| && forall k :: j <= k < i ==> Silent(steps[k])
    ensures Loud(steps, i) == Loud(steps, j)
    decreases i - j
  {
    if j < i { SilentSkips(steps, j, i - 1); }
  }

  // ---- the evaluator ---------------------------------------------------------------------------------------------

  datatype CheckVerdict = Passed | Failed | Skipped

  /** How check texts are read, and which hooks the engine offers. */
  datatype Checks = Checks(decode: string -> Option<Check.Check>, hooks: set<Check.HookKind>)

  /** What a check must say about the slots and the ledger: a text that is no check fails; otherwise its law decides,
      unless a slot it watches errored or the hook it needs is missing. */
  ghost predicate VerdictRight(env: Checks, json: string, stack: map<nat, StmtResult>, tables: Ledger.Tables, out: CheckVerdict) {
    match env.decode(json)
    case None => out == Failed
    case Some(check) =>
      var skipped := Check.Errored(stack, Check.MetamorphicSlots(check)) || Check.NoHook(check, env.hooks);
      (out == Skipped <==> skipped) && (out == Passed <==> !skipped && Check.Law(check, stack, tables))
  }

  method Judge(env: Checks, json: string, stack: map<nat, StmtResult>, tables: Ledger.Tables) returns (out: CheckVerdict)
    ensures VerdictRight(env, json, stack, tables, out)
  {
    hide Check.Law, Check.Errored, Check.MetamorphicSlots;
    if env.decode(json).None? {
      return Failed;
    }
    var o := Check.EvalCheck(env.decode(json).value, stack, tables, env.hooks);
    out := match o case Pass => Passed case Fail => Failed case SkipNoHook => Skipped case SkipInapplicable => Skipped;
  }

  class OracleEval {
    const bySeq: map<nat, seq<PStep>>
    const ledger: LedgerObject
    var cur: Option<(nat, nat)>
    var dead: bool
    var session: nat
    var stack: map<nat, StmtResult>
    ghost var met: seq<nat>

    ghost predicate Valid()
      reads this, ledger
    {
      ledger.Valid()
    }

    ghost function Now(): View
      reads this, ledger
    {
      View(session, stack, ledger.View())
    }

    constructor (ctx: map<nat, seq<PStep>>)
      ensures Valid() && fresh(ledger) && bySeq == ctx && cur.None? && !dead && ledger.View() == LM.INITIAL
    {
      bySeq := ctx;
      ledger := new LedgerObject();
      cur, dead, session, stack, met := None, false, 0, map[], [];
    }

    /** The cursor stands at a position of a known property, in step with the reports so far. */
    ghost predicate Standing(at: Place, j: nat)
      reads this, ledger
    {
      && Valid() && at.seqno in bySeq && bySeq[at.seqno] == at.steps && j <= |at.steps| <= |at.reports|
      && cur == Some((at.seqno, j)) && !dead && met == Loud(at.steps, j)
      && Now() == SeeAll(at.start, at.steps, at.reports, j)
    }

    /** The slots are emptied; the ledger lives on. */
    method OnPropertyBegin(seqno: nat)
      requires Valid()
      modifies this
      ensures Valid() && ledger.View() == old(ledger.View())
      ensures cur == Some((seqno, 0)) && dead == (seqno !in bySeq) && session == 0 && stack == map[] && met == []
    {
      stack := map[];
      dead := seqno !in bySeq;
      cur := Some((seqno, 0));
      session := 0;
      met := [];
    }

    method OnPropertyEnd()
      requires Valid()
      modifies this`cur, this`dead, this`session
      ensures Valid() && cur.None? && !dead && session == 0 && ledger.View() == old(ledger.View())
    {
      cur, dead, session := None, false, 0;
    }

    /** The recorded steps of a property, none if it is unknown. */
    function StepsOf(seqno: nat): seq<PStep> {
      if seqno in bySeq then bySeq[seqno] else []
    }

    /** Move past the steps the runner says nothing about, following session switches. */
    method SkipSilent(ghost at: Place, ghost j: nat, ghost i: nat)
      requires Valid()
      modifies this`cur, this`session
      ensures Valid()
      ensures cur == if old(cur).None? then None else Some((old(cur).value.0, NextLoud(StepsOf(old(cur).value.0), old(cur).value.1)))
      ensures old(Standing(at, j)) && NextIs(at.steps, j, i) ==> Standing(at, i)
    {
      hide LM.Step;
      if cur.None? {
        return;
      }
      var (s, idx) := cur.value;
      var steps := StepsOf(s);
      ghost var standing := Standing(at, j);
      hide SeeAll, See, Loud;
      while idx < |steps| && Silent(steps[idx])
        invariant cur == old(cur) && NextLoud(steps, idx) == NextLoud(steps, old(cur).value.1)
        invariant standing ==> j <= idx <= |steps| && View(session, stack, ledger.View()) == SeeAll(at.start, steps, at.reports, idx)
                               && forall k :: j <= k < idx ==> Silent(steps[k])
        decreases |steps| - idx
      {
        if standing { SilentSeen(at.start, steps, at.reports, idx); }
        if steps[idx].PSession? {
          session := steps[idx].id;
        }
        idx := idx + 1;
      }
      if standing && NextIs(steps, j, i) {
        assert idx == i;
        SilentSkips(steps, j, i);
      }
      cur := Some((s, idx));
    }

    /** A check step is evaluated; the evaluator goes dead exactly if its next loud step is no check. */
    method EvalCheck(env: Checks, json: string, ghost at: Place, ghost j: nat, ghost i: nat)
      returns (out: CheckVerdict)
      requires Valid()
      modifies this
      ensures Valid()
      ensures old(cur).None? || old(dead) ==> cur == old(cur) && dead == old(dead) && out == Skipped
      ensures old(cur).Some? && !old(dead) ==>
                var steps := StepsOf(old(cur).value.0);
                var next := NextLoud(steps, old(cur).value.1);
                (dead <==> next >= |steps| || !IsCheck(steps[next])) && (dead ==> out == Skipped)
      ensures !dead && old(cur).Some? ==> VerdictRight(env, json, stack, ledger.View().tables, out)
      ensures stack == old(stack) && ledger.View() == old(ledger.View())
      ensures old(Standing(at, j)) && NextIs(at.steps, j, i) && IsCheck(at.steps[i]) ==> Standing(at, i + 1)
    {
      hide LM.Step, VerdictRight;
      if cur.None? || dead {
        return Skipped;
      }
      SkipSilent(at, j, i);
      var (s, idx) := cur.value;
      var steps := StepsOf(s);
      if idx >= |steps| || !IsCheck(steps[idx]) {
        dead := true;
        return Skipped;
      }
      cur := Some((s, idx + 1));
      met := met + [idx];
      out := Judge(env, json, stack, ledger.tables);
    }

    method Reconcile(op: Ledger.Op, slot: Option<nat>, res: StmtResult) returns (complaint: bool)
      requires Valid()
      modifies this`stack, ledger
      ensures Valid() && (Now(), complaint) == SeeOp(old(Now()), op, slot, res)
    {
      hide LM.Step, Reconciles;
      var expected := ledger.ApplyStatement(op);
      if !Agrees(expected, res) {
        return true;
      }
      stack := Put(stack, slot, res);
      return false;
    }

    method FollowTx(tx: TxCtl) returns (complaint: bool)
      requires Valid()
      modifies ledger
      ensures Valid() && (Now(), complaint) == SeeTx(old(Now()), tx)
    {
      complaint := false;
      if session != 0 {
        return;
      }
      match tx {
        case Begin(_) => ledger.BeginTx();
        case Commit => ledger.CommitTx();
        case Rollback => ledger.RollbackTx();
        case Savepoint(name) => ledger.MarkSavepoint(name);
        case RollbackTo(name) =>
          var r := ledger.RollbackToSavepoint(name);
          complaint := r.Failure?;
      }
    }

    /** A statement's outcome is reported; the evaluator goes dead exactly if its next loud step is missing or reports none. */
    method OnStepOutcome(res: StmtResult, ghost at: Place, ghost j: nat, ghost i: nat) returns (complaint: bool)
      requires Valid()
      modifies this, ledger
      ensures Valid()
      ensures old(cur).None? || old(dead) ==> cur == old(cur) && dead == old(dead) && !complaint
      ensures old(cur).Some? && !old(dead) ==>
                var steps := StepsOf(old(cur).value.0);
                var next := NextLoud(steps, old(cur).value.1);
                (dead <==> next >= |steps| || IsCheck(steps[next]) || steps[next].PNoise?)
      ensures old(Standing(at, j)) && NextIs(at.steps, j, i) && Reporting(at.steps[i]) && res == at.reports[i] ==>
                Standing(at, i + 1) && complaint == See(SeeAll(at.start, at.steps, at.reports, i), at.steps[i], res).1
    {
      hide LM.Step, SeeOp, SeeTx;
      complaint := false;
      if cur.None? || dead {
        return;
      }
      SkipSilent(at, j, i);
      var (s, idx) := cur.value;
      if idx >= |StepsOf(s)| {
        dead := true;
        return;
      }
      var step := StepsOf(s)[idx];
      cur := Some((s, idx + 1));
      met := met + [idx];
      if step.PSql? {
        if step.op.Some? {
          complaint := Reconcile(step.op.value, step.slot, res);
        } else {
          stack := Put(stack, step.slot, res);
        }
      } else if step.PTx? {
        complaint := FollowTx(step.tx);
      } else if step.PJoin? {
        stack := Put(stack, step.slot, res);
      } else if !step.PArm? {
        dead := true;
      }
    }
  }

  /** Where a run is: the property, its steps, the ledger it started from and what the runner reports. */
  datatype Place = Place(seqno: nat, steps: seq<PStep>, start: LM.State, reports: seq<StmtResult>)

  predicate Reporting(ps: PStep) { !Silent(ps) && !IsCheck(ps) && !ps.PNoise? }

  /** The first step from a position on that is not silent. */
  function NextLoud(steps: seq<PStep>, j: nat): (i: nat)
    ensures j <= i && (i < |steps| ==> !Silent(steps[i]))
    decreases |steps| - j
  {
    if j < |steps| && Silent(steps[j]) then NextLoud(steps, j + 1) else j
  }

  /** No step before it is loud. */
  lemma {:induction false} NextLoudIsFirst(steps: seq<PStep>, j: nat, k: nat)
    requires j <= k < NextLoud(steps, j)
    ensures k < |steps| && Silent(steps[k])
    decreases |steps| - j
  {
    if k > j { NextLoudIsFirst(steps, j + 1, k); }
  }

  predicate NextIs(steps: seq<PStep>, j: nat, i: nat) {
    j <= i < |steps| && !Silent(steps[i]) && forall k :: j <= k < i ==> Silent(steps[k])
  }

  /** Which steps are silent, checked or reported can be read off the plan. */
  lemma KindsAgree(step: Step, ps: PStep)
    requires Corresponds(step, ps)
    ensures Silent(ps) <==> step.Session? || step.AsyncDml? || step.WaitUntil?
    ensures IsCheck(ps) <==> step.Assumption? || step.Assertion?
    ensures IsCheck(ps) ==> step.json == ps.json
    ensures Reporting(ps) <==> !Silent(ps) && !IsCheck(ps)
  {
  }

  /** Positions of the steps a check is evaluated at. */
  function CheckPositions(steps: seq<PStep>, n: nat): seq<nat>
    requires n <= |steps|
  {
    if n == 0 then [] else CheckPositions(steps, n - 1) + if IsCheck(steps[n - 1]) then [n - 1] else []
  }

  function JsonOf(ps: PStep): string
    requires IsCheck(ps)
  {
    ps.json
  }

  /** What the runner has been told about the steps up to a position. */
  datatype Told = Told(complaints: seq<nat>, verdicts: seq<(nat, CheckVerdict)>)

  ghost predicate ToldRight(env: Checks, at: Place, n: nat, told: Told) {
    && n <= |at.steps| <= |at.reports|
    && told.complaints == Complaints(at.start, at.steps, at.reports, n)
    && (forall k :: 0 <= k < |told.verdicts| ==> VerdictAt(env, at, told.verdicts[k]))
    && |told.verdicts| == |CheckPositions(at.steps, n)|
    && forall k :: 0 <= k < |told.verdicts| ==> told.verdicts[k].0 == CheckPositions(at.steps, n)[k]
  }

  ghost predicate VerdictAt(env: Checks, at: Place, v: (nat, CheckVerdict)) {
    && v.0 < |at.steps| <= |at.reports| && IsCheck(at.steps[v.0])
    && var view := SeeAll(at.start, at.steps, at.reports, v.0);
       VerdictRight(env, JsonOf(at.steps[v.0]), view.stack, view.ledger.tables, v.1)
  }

  lemma NothingTold(env: Checks, at: Place)
    requires |at.steps| <= |at.reports|
    ensures ToldRight(env, at, 0, Told([], []))
  {
  }

  lemma BlockLength(eval: OracleEval, plan: seq<Step>, at: Place)
    requires eval.Standing(at, 0) && Aligned(plan, at.steps)
    ensures |plan| == |at.steps| <= |at.reports|
  {
  }

  lemma StepOfBlock(plan: seq<Step>, at: Place, i: nat)
    requires Aligned(plan, at.steps) && i < |plan|
    ensures Corresponds(plan[i], at.steps[i])
  {
  }

  lemma SilentTells(env: Checks, at: Place, i: nat, told: Told)
    requires ToldRight(env, at, i, told) && i < |at.steps| && Silent(at.steps[i])
    ensures ToldRight(env, at, i + 1, told)
  {
    hide SeeAll, VerdictRight;
  }

  lemma CheckTells(env: Checks, at: Place, i: nat, told: Told, out: CheckVerdict)
    requires ToldRight(env, at, i, told) && i < |at.steps| && IsCheck(at.steps[i]) && VerdictAt(env, at, (i, out))
    ensures ToldRight(env, at, i + 1, told.(verdicts := told.verdicts + [(i, out)]))
  {
    hide SeeAll, VerdictAt;
  }

  lemma OutcomeTells(env: Checks, at: Place, i: nat, told: Told, complaint: bool)
    requires ToldRight(env, at, i, told) && i < |at.steps| && Reporting(at.steps[i])
    requires complaint == See(SeeAll(at.start, at.steps, at.reports, i), at.steps[i], at.reports[i]).1
    ensures ToldRight(env, at, i + 1, if complaint then told.(complaints := told.complaints + [i]) else told)
  {
    hide SeeAll, See, VerdictAt;
  }

  /** Checks leave slots and ledger as they are, silent steps too. */
  lemma StackStands(at: Place, j: nat, i: nat)
    requires j <= i <= |at.steps| <= |at.reports| && forall k :: j <= k < i ==> Silent(at.steps[k])
    ensures var v, w := SeeAll(at.start, at.steps, at.reports, j), SeeAll(at.start, at.steps, at.reports, i);
            v.stack == w.stack && v.ledger == w.ledger
    decreases i - j
  {
    if j < i { StackStands(at, j, i - 1); }
  }

  /** The runner works off one plan step: nothing for a session step, a check or an outcome for any other one. */
  method WorkOff(eval: OracleEval, env: Checks, step: Step, res: StmtResult, told: Told,
                 ghost at: Place, ghost j: nat, i: nat)
    returns (told': Told)
    requires eval.Standing(at, j) && j <= i < |at.steps| && forall k :: j <= k < i ==> Silent(at.steps[k])
    requires Corresponds(step, at.steps[i]) && res == at.reports[i] && ToldRight(env, at, i, told)
    modifies eval, eval.ledger
    ensures eval.Standing(at, if Silent(at.steps[i]) then j else i + 1) && ToldRight(env, at, i + 1, told')
  {
    hide Corresponds, ToldRight, See, LM.Step;
    KindsAgree(step, at.steps[i]);
    told' := told;
    if step.Assumption? || step.Assertion? {
      StackStands(at, j, i);
      var out := eval.EvalCheck(env, step.json, at, j, i);
      CheckTells(env, at, i, told, out);
      told' := told.(verdicts := told.verdicts + [(i, out)]);
    } else if !step.Session? && !step.AsyncDml? && !step.WaitUntil? {
      var complaint := eval.OnStepOutcome(res, at, j, i);
      OutcomeTells(env, at, i, told, complaint);
      if complaint {
        told' := told.(complaints := told.complaints + [i]);
      }
    } else {
      SilentTells(env, at, i, told);
    }
  }

  /** All steps of a block, one after another; the cursor stops after the last step that is not silent. */
  method WorkThrough(eval: OracleEval, env: Checks, plan: seq<Step>, reports: seq<StmtResult>, ghost at: Place)
    returns (told: Told, ghost j: nat)
    requires eval.Standing(at, 0) && Aligned(plan, at.steps) && |reports| == |plan| && reports == at.reports
    modifies eval, eval.ledger
    ensures j <= |plan| && eval.Standing(at, j) && forall k :: j <= k < |plan| ==> Silent(at.steps[k])
    ensures ToldRight(env, at, |plan|, told)
  {
    hide *;
    told, j := Told([], []), 0;
    BlockLength(eval, plan, at);
    NothingTold(env, at);
    for i := 0 to |plan|
      invariant j <= i && eval.Standing(at, j) && ToldRight(env, at, i, told)
      invariant forall k :: j <= k < i ==> Silent(at.steps[k])
    {
      StepOfBlock(plan, at, i);
      told := WorkOff(eval, env, plan[i], reports[i], told, at, j, i);
      j := if Silent(at.steps[i]) then j else i + 1;
    }
  }

  /** The runner works off a whole block: the cursor never goes dead and meets every step that is not silent, and the
      complaints and verdicts are those of the ledger and the slots at each step. */
  method RunProperty(eval: OracleEval, env: Checks, seqno: nat, plan: seq<Step>, reports: seq<StmtResult>)
    returns (told: Told)
    requires eval.Valid() && seqno in eval.bySeq && Aligned(plan, eval.bySeq[seqno]) && |reports| == |plan|
    modifies eval, eval.ledger
    ensures eval.Valid() && !eval.dead && eval.met == Loud(eval.bySeq[seqno], |plan|)
    ensures var at := Place(seqno, eval.bySeq[seqno], old(eval.ledger.View()), reports);
            && ToldRight(env, at, |plan|, told)
            && eval.stack == SeeAll(at.start, at.steps, reports, |plan|).stack
            && eval.ledger.View() == SeeAll(at.start, at.steps, reports, |plan|).ledger
  {
    ghost var at := Place(seqno, eval.bySeq[seqno], eval.ledger.View(), reports);
    eval.OnPropertyBegin(seqno);
    ghost var j;
    told, j := WorkThrough(eval, env, plan, reports, at);
    hide ToldRight, SeeAll, Loud, Silent;
    SilentSkips(at.steps, j, |plan|);
    StackStands(at, j, |plan|);
  }

  // ---- no false complaint ------------------------------------------------------------------------------

  function SessionAt(steps: seq<PStep>, n: nat): nat
    requires n <= |steps|
  {
    if n == 0 then 0 else if steps[n - 1].PSession? then steps[n - 1].id else SessionAt(steps, n - 1)
  }

  /** What a step asks of the database of the first session. */
  function EventAt(steps: seq<PStep>, i: nat): Option<LM.Event>
    requires i < |steps|
  {
    match steps[i]
    case PSql(_, _, _, Some(op), _, _) => Some(LM.Apply(op))
    case PTx(tx) => if SessionAt(steps, i) == 0 then Some(EventOf(tx)) else None
    case _ => None
  }

  /** An engine that keeps a full copy of the tables at every savepoint, after the first steps of a block. */
  ghost function EngineAt(engine: LM.RefState, steps: seq<PStep>, n: nat): LM.RefState
    requires n <= |steps|
  {
    if n == 0 then engine
    else
      var before := EngineAt(engine, steps, n - 1);
      match EventAt(steps, n - 1)
      case None => before
      case Some(e) => LM.RefStep(before, e).0
  }

  /** The probe a step puts to the database of the first session, if it keeps the answer. */
  function ProbeAt(steps: seq<PStep>, i: nat): (p: Option<(string, ProbeSpec)>)
    requires i < |steps|
    ensures p.Some? ==> steps[i].PSql? && steps[i].slot.Some? && GoodSpec(p.value.1)
  {
    match steps[i]
    case PSql(_, _, _, None, Some(p), Some(_)) => if SessionAt(steps, i) == 0 && GoodSpec(p.1) then Some(p) else None
    case _ => None
  }

  /** A probe answered from the present rows of its table, in whatever order. */
  ghost predicate Replied(tables: Ledger.Tables, p: (string, ProbeSpec), res: StmtResult)
    requires GoodSpec(p.1)
  {
    if p.0 in tables then Answers(tables[p.0].rows, p.1, res) else res.Error?
  }

  /** The engine takes the step, does not refuse it, and what the runner reports is what it did, or a correct answer to
      what it was asked. */
  ghost predicate Honest(engine: LM.RefState, steps: seq<PStep>, reports: seq<StmtResult>, i: nat)
    requires i < |steps| <= |reports|
  {
    var before := EngineAt(engine, steps, i);
    match EventAt(steps, i)
    case None => ProbeAt(steps, i).Some? ==> Replied(before.tables, ProbeAt(steps, i).value, reports[i])
    case Some(e) =>
      LM.Permitted(e, before.tx.Some?) && !Deviates(LM.RefStep(before, e).1, reports[i])
  }

  /** How many rows a report speaks of. */
  function Touched(res: StmtResult): nat
    requires !res.Error?
  {
    if res.Command? then res.affected else |res.rows|
  }

  /** Two codes of different classes: their first two characters differ, or one of them has no two. */
  predicate OtherClass(e: string, s: string) {
    if |e| >= 2 && |s| >= 2 then e[0] != s[0] || e[1] != s[1] else |e| >= 2 || |s| >= 2
  }

  /** A report is not what the copying engine did: it was asked for something senseless, exactly one of them is an error,
      the counts differ, or the errors are of different classes. */
  predicate Deviates(answer: LM.Answer, res: StmtResult) {
    match answer
    case Done => false
    case Refused(_) => true
    case Verdict(Failure(_)) => true
    case Verdict(Success(Ok(n))) => res.Error? || n != Touched(res)
    case Verdict(Success(Err(e))) => !res.Error? || OtherClass(e, res.sqlstate)
  }

  lemma AgreesIff(expected: Result<Ledger.Outcome, Ledger.Misuse>, res: StmtResult)
    ensures Agrees(expected, res) <==> !Deviates(LM.Verdict(expected), res)
  {
    if expected.Success? && expected.value.Err? && res.Error? { ClassIff(expected.value.sqlstate, res.sqlstate); }
  }

  lemma ClassIff(e: string, s: string)
    ensures Check.Class(e) == Check.Class(s) <==> !OtherClass(e, s)
  {
    if |e| >= 2 && |s| >= 2 {
      assert e[..2] == [e[0], e[1]] && s[..2] == [s[0], s[1]];
      assert e[..2] == s[..2] <==> e[..2][0] == s[..2][0] && e[..2][1] == s[..2][1];
    }
  }

  /** The oracle complains of a step exactly if what is reported deviates from what the copying engine does with it. */
  lemma ComplainsIff(v: View, r: LM.RefState, ps: PStep, e: LM.Event, res: StmtResult)
    requires LM.Simulates(v.ledger, r) && LM.Permitted(e, r.tx.Some?)
    requires (ps.PSql? && ps.op.Some? && e == LM.Apply(ps.op.value)) || (ps.PTx? && v.session == 0 && e == EventOf(ps.tx))
    ensures var (w, complaint) := See(v, ps, res);
            && (complaint <==> Deviates(LM.RefStep(r, e).1, res))
            && w.session == v.session && LM.Simulates(w.ledger, LM.RefStep(r, e).0)
  {
    hide LM.RefStep, LM.Simulates, Agrees;
    SimulatesInTx(v.ledger, r);
    LM.SimulatesStep(v.ledger, r, e);
    AnswerKinds(v.ledger, e);
    if e.Apply? { AgreesIff(LM.Step(v.ledger, e).1.res, res); }
  }

  lemma AnswerKinds(s: LM.State, e: LM.Event)
    ensures e.Apply? <==> LM.Step(s, e).1.Verdict?
  {
  }

  lemma SimulatesInTx(s: LM.State, r: LM.RefState)
    requires LM.Simulates(s, r)
    ensures s.tx.Some? <==> r.tx.Some?
  {
  }

  /** Nothing in the first steps opens a transaction inside another. */
  ghost predicate Regular(engine: LM.RefState, steps: seq<PStep>, n: nat)
    requires n <= |steps|
  {
    forall i :: 0 <= i < n && EventAt(steps, i).Some? ==> LM.Permitted(EventAt(steps, i).value, EngineAt(engine, steps, i).tx.Some?)
  }

  /** The report of a step deviates from what the copying engine does at that point. */
  ghost predicate DeviatesAt(engine: LM.RefState, steps: seq<PStep>, reports: seq<StmtResult>, i: nat)
    requires i < |steps| <= |reports|
  {
    EventAt(steps, i).Some? && Deviates(LM.RefStep(EngineAt(engine, steps, i), EventAt(steps, i).value).1, reports[i])
  }

  /** One more step: a complaint exactly of a deviation, and ledger and engine stay in step. */
  lemma ComplaintHere(start: LM.State, engine: LM.RefState, steps: seq<PStep>, reports: seq<StmtResult>, n: nat)
    requires n < |steps| <= |reports| && Regular(engine, steps, n + 1)
    requires var v := SeeAll(start, steps, reports, n);
             LM.Simulates(v.ledger, EngineAt(engine, steps, n)) && v.session == SessionAt(steps, n)
    ensures See(SeeAll(start, steps, reports, n), steps[n], reports[n]).1 <==> DeviatesAt(engine, steps, reports, n)
    ensures var v := SeeAll(start, steps, reports, n + 1);
            LM.Simulates(v.ledger, EngineAt(engine, steps, n + 1)) && v.session == SessionAt(steps, n + 1)
  {
    hide LM.RefStep, LM.Simulates, LM.Permitted, LM.Step, Deviates, SeeOp, SeeTx;
    var v, ps, e := SeeAll(start, steps, reports, n), steps[n], EventAt(steps, n);
    if e.Some? {
      ComplainsIff(v, EngineAt(engine, steps, n), ps, e.value, reports[n]);
    } else {
      QuietStep(v, ps, reports[n]);
    }
  }

  /** Both ways, over every block and whatever is reported: the steps complained of are exactly those whose report deviates
      from the copying engine, each at its own step; and the op-log ledger is in step with that engine throughout. */
  lemma {:induction false} ComplaintsExact(start: LM.State, engine: LM.RefState, steps: seq<PStep>, reports: seq<StmtResult>, n: nat)
    requires n <= |steps| <= |reports| && LM.Simulates(start, engine) && Regular(engine, steps, n)
    ensures forall i :: i in Complaints(start, steps, reports, n) <==> 0 <= i < n && DeviatesAt(engine, steps, reports, i)
    ensures var v := SeeAll(start, steps, reports, n);
            LM.Simulates(v.ledger, EngineAt(engine, steps, n)) && v.session == SessionAt(steps, n)
    decreases n
  {
    hide LM.RefStep, LM.Simulates, LM.Permitted, Deviates, See, EventAt, DeviatesAt;
    if n > 0 {
      ComplaintsExact(start, engine, steps, reports, n - 1);
      ComplaintHere(start, engine, steps, reports, n - 1);
    }
  }

  /** Against an engine that behaves like the copying reference and an honest runner, the oracle complains of nothing,
      whatever the steps; and its op-log ledger is in step with the engine throughout. */
  lemma NoFalseComplaint(start: LM.State, engine: LM.RefState, steps: seq<PStep>, reports: seq<StmtResult>, n: nat)
    requires n <= |steps| <= |reports| && LM.Simulates(start, engine)
    requires forall i :: 0 <= i < n ==> Honest(engine, steps, reports, i)
    ensures Complaints(start, steps, reports, n) == []
    ensures var v := SeeAll(start, steps, reports, n);
            LM.Simulates(v.ledger, EngineAt(engine, steps, n)) && v.session == SessionAt(steps, n)
  {
    hide LM.RefStep, LM.Simulates, LM.Permitted, SeeAll, Complaints, EngineAt, EventAt, Deviates;
    var c := Complaints(start, steps, reports, n);
    assert c == [] || c[0] in c;
    HonestIsRegular(engine, steps, reports, n);
    ComplaintsExact(start, engine, steps, reports, n);
  }

  lemma HonestIsRegular(engine: LM.RefState, steps: seq<PStep>, reports: seq<StmtResult>, n: nat)
    requires n <= |steps| <= |reports| && forall i :: 0 <= i < n ==> Honest(engine, steps, reports, i)
    ensures Regular(engine, steps, n) && forall i :: 0 <= i < n ==> !DeviatesAt(engine, steps, reports, i)
  {
    hide LM.RefStep, LM.Permitted, EngineAt, EventAt, Deviates;
    forall i | 0 <= i < n
      ensures !DeviatesAt(engine, steps, reports, i)
      ensures EventAt(steps, i).Some? ==> LM.Permitted(EventAt(steps, i).value, EngineAt(engine, steps, i).tx.Some?)
    {
      assert Honest(engine, steps, reports, i);
    }
  }

  /** What each transaction control does to the copying engine, in its own terms. */
  lemma TxMeaning(r: LM.RefState)
    ensures forall iso :: LM.RefStep(r, EventOf(Begin(iso))).0 == LM.RefState(r.tables, Some(LM.RefTx(r.tables, [])))
    ensures LM.RefStep(r, EventOf(Commit)).0 == LM.RefState(r.tables, None)
    ensures LM.RefStep(r, EventOf(Rollback)).0 == LM.RefState(if r.tx.Some? then r.tx.value.start else r.tables, None)
    ensures forall name :: r.tx.Some? ==>
              LM.RefStep(r, EventOf(Savepoint(name))).0
              == LM.RefState(r.tables, Some(LM.RefTx(r.tx.value.start, r.tx.value.saves + [(name, r.tables)])))
    ensures forall name :: LM.RefStep(r, EventOf(RollbackTo(name))).1.Refused? <==>
              r.tx.None? || forall i :: 0 <= i < |r.tx.value.saves| ==> r.tx.value.saves[i].0 != name
  {
  }

  /** A statement's or a join's result is in its slot when the next step begins, unless it was complained of. */
  lemma SlotHolds(v: View, ps: PStep, res: StmtResult)
    requires (ps.PSql? || ps.PJoin?) && ps.slot.Some?
    ensures var (w, complaint) := See(v, ps, res);
            if complaint then w.stack == v.stack else w.stack == v.stack[ps.slot.value := res]
  {
    hide LM.Step, Agrees;
  }

  lemma QuietStep(v: View, ps: PStep, res: StmtResult)
    requires !(ps.PSql? && ps.op.Some?) && (ps.PTx? ==> v.session != 0)
    ensures var (w, complaint) := See(v, ps, res);
            !complaint && w.ledger == v.ledger && w.session == if ps.PSession? then ps.id else v.session
  {
  }
}
