/**
  Transactions over the ledger, three times: as the ledger keeps them (BEGIN snapshot, op-log,
  savepoints as op-log marks), as a reference that keeps a full copy of the tables per savepoint,
  and as bare operation logs. The three agree on every run.
 */
module LedgerMachine {
  import opened Common
  import opened Ledger

  datatype Event =
    | Begin
    | Commit
    | Rollback
    | Savepoint(name: string)
    | RollbackTo(name: string)
    | Apply(op: Op)

  /** What the caller of one ledger method sees. */
  datatype Answer = Done | Verdict(res: Result<Outcome, Misuse>) | Refused(why: Misuse)

  // ---- the ledger's own representation ---------------------------------------

  datatype TxState = TxState(snapshot: Tables, oplog: seq<Op>, savepoints: seq<(string, nat)>)

  datatype State = State(tables: Tables, tx: Option<TxState>)

  /** Index of the most recent entry of that name, or -1. */
  function LastNamed<T>(entries: seq<(string, T)>, name: string): (i: int)
    ensures -1 <= i < |entries|
    ensures i >= 0 ==> entries[i].0 == name
    ensures forall j :: i < j < |entries| ==> entries[j].0 != name
  {
    if entries == [] then -1
    else if entries[|entries| - 1].0 == name then |entries| - 1
    else LastNamed(entries[..|entries| - 1], name)
  }

  /** Apply operations in order, stopping at the first misuse. */
  ghost function Replay(tables: Tables, ops: seq<Op>): Applied
    decreases |ops|
  {
    if ops == [] then Applied(tables, Success(Ok(0)))
    else
      var a := ApplyOp(tables, ops[0]);
      if a.res.Failure? then Applied(a.tables, Failure(ReplayMisuse))
      else Replay(a.tables, ops[1..])
  }

  ghost function Step(s: State, e: Event): (State, Answer) {
    match e
    case Begin => (State(s.tables, Some(TxState(s.tables, [], []))), Done)
    case Commit => (State(s.tables, None), Done)
    case Rollback => (if s.tx.Some? then State(s.tx.value.snapshot, None) else s, Done)
    case Savepoint(name) =>
      if s.tx.None? then (s, Done)
      else
        var tx := s.tx.value;
        (s.(tx := Some(tx.(savepoints := tx.savepoints + [(name, |tx.oplog|)]))), Done)
    case RollbackTo(name) =>
      if s.tx.None? then (s, Refused(OutsideTx))
      else
        var tx := s.tx.value;
        var i := LastNamed(tx.savepoints, name);
        if i < 0 then (s, Refused(NoSavepoint))
        else
          var mark := tx.savepoints[i].1;
          var kept := if mark <= |tx.oplog| then tx.oplog[..mark] else tx.oplog;
          var a := Replay(tx.snapshot, kept);
          (State(a.tables, Some(tx.(oplog := kept, savepoints := tx.savepoints[..i + 1]))),
           if a.res.Failure? then Refused(ReplayMisuse) else Done)
    case Apply(op) =>
      var a := ApplyOp(s.tables, op);
      var tx := if s.tx.Some? && Succeeded(a.res)
                then Some(s.tx.value.(oplog := s.tx.value.oplog + [op])) else s.tx;
      (State(a.tables, tx), Verdict(a.res))
  }

  /** BEGIN inside a transaction is the one call the ledger forbids its callers. */
  predicate Permitted(e: Event, inTx: bool) {
    e.Begin? ==> !inTx
  }

  const INITIAL := State(map[], None)

  ghost function Run(s: State, es: seq<Event>): State
    decreases |es|
  {
    if es == [] then s else Step(Run(s, es[..|es| - 1]), es[|es| - 1]).0
  }

  ghost function AnswerAt(s: State, es: seq<Event>, n: nat): Answer
    requires n < |es|
  {
    Step(Run(s, es[..n]), es[n]).1
  }

  ghost predicate NoNestedBegin(s: State, es: seq<Event>) {
    forall n :: 0 <= n < |es| ==> Permitted(es[n], Run(s, es[..n]).tx.Some?)
  }

  // ---- the reference: one full copy per savepoint -----------------------------

  datatype RefTx = RefTx(start: Tables, saves: seq<(string, Tables)>)

  datatype RefState = RefState(tables: Tables, tx: Option<RefTx>)

  ghost function RefStep(r: RefState, e: Event): (RefState, Answer) {
    match e
    case Begin => (RefState(r.tables, Some(RefTx(r.tables, []))), Done)
    case Commit => (RefState(r.tables, None), Done)
    case Rollback => (if r.tx.Some? then RefState(r.tx.value.start, None) else r, Done)
    case Savepoint(name) =>
      if r.tx.None? then (r, Done)
      else (r.(tx := Some(r.tx.value.(saves := r.tx.value.saves + [(name, r.tables)]))), Done)
    case RollbackTo(name) =>
      if r.tx.None? then (r, Refused(OutsideTx))
      else
        var saves := r.tx.value.saves;
        var i := LastNamed(saves, name);
        if i < 0 then (r, Refused(NoSavepoint))
        else (RefState(saves[i].1, Some(r.tx.value.(saves := saves[..i + 1]))), Done)
    case Apply(op) =>
      var a := ApplyOp(r.tables, op);
      (r.(tables := a.tables), Verdict(a.res))
  }

  const REF_INITIAL := RefState(map[], None)

  ghost function RefRun(r: RefState, es: seq<Event>): RefState
    decreases |es|
  {
    if es == [] then r else RefStep(RefRun(r, es[..|es| - 1]), es[|es| - 1]).0
  }

  ghost function RefAnswerAt(r: RefState, es: seq<Event>, n: nat): Answer
    requires n < |es|
  {
    RefStep(RefRun(r, es[..n]), es[n]).1
  }

  // ---- replay ---------------------------------------------------------------

  /** Every operation of the log succeeds when replayed in order. */
  ghost predicate Replayable(tables: Tables, ops: seq<Op>)
    decreases |ops|
  {
    ops == [] || (Succeeded(ApplyOp(tables, ops[0]).res) && Replayable(ApplyOp(tables, ops[0]).tables, ops[1..]))
  }

  lemma {:induction false} ReplayConcat(tables: Tables, a: seq<Op>, b: seq<Op>)
    requires Replayable(tables, a)
    ensures Replay(tables, a).res.Success?
    ensures Replay(tables, a + b) == Replay(Replay(tables, a).tables, b)
    ensures Replayable(tables, a + b) <==> Replayable(Replay(tables, a).tables, b)
    decreases |a|
  {
    if a == [] {
      assert a + b == b;
    } else {
      assert (a + b)[1..] == a[1..] + b;
      ReplayConcat(ApplyOp(tables, a[0]).tables, a[1..], b);
    }
  }

  lemma ReplaySnoc(tables: Tables, a: seq<Op>, op: Op)
    requires Replayable(tables, a)
    requires Succeeded(ApplyOp(Replay(tables, a).tables, op).res)
    ensures Replayable(tables, a + [op])
    ensures Replay(tables, a + [op]).tables == ApplyOp(Replay(tables, a).tables, op).tables
  {
    ReplayConcat(tables, a, [op]);
  }

  lemma ReplayPrefix(tables: Tables, ops: seq<Op>, n: nat)
    requires n <= |ops|
    requires Replayable(tables, ops)
    ensures Replayable(tables, ops[..n])
    decreases n
  {
    if n > 0 {
      assert ops[..n][1..] == ops[1..][..n - 1];
      ReplayPrefix(ApplyOp(tables, ops[0]).tables, ops[1..], n - 1);
    }
  }

  // ---- the op-log ledger refines the reference --------------------------------

  /** The savepoint marks point into the log, and each marks the copy the reference keeps. */
  ghost predicate SavesMatch(tx: TxState, saves: seq<(string, Tables)>) {
    && |tx.savepoints| == |saves|
    && (forall i :: 0 <= i < |saves| ==>
          && tx.savepoints[i].0 == saves[i].0
          && tx.savepoints[i].1 <= |tx.oplog|
          && saves[i].1 == Replay(tx.snapshot, tx.oplog[..tx.savepoints[i].1]).tables)
    && (forall i, j :: 0 <= i < j < |saves| ==> tx.savepoints[i].1 <= tx.savepoints[j].1)
  }

  /** In a transaction the working tables are the replay of the whole log from the BEGIN snapshot. */
  ghost predicate Simulates(s: State, r: RefState) {
    && s.tables == r.tables
    && (s.tx.Some? <==> r.tx.Some?)
    && (s.tx.Some? ==>
          && s.tx.value.snapshot == r.tx.value.start
          && Replayable(s.tx.value.snapshot, s.tx.value.oplog)
          && s.tables == Replay(s.tx.value.snapshot, s.tx.value.oplog).tables
          && SavesMatch(s.tx.value, r.tx.value.saves))
  }

  lemma LastNamedAgrees<T, U>(a: seq<(string, T)>, b: seq<(string, U)>, name: string)
    requires |a| == |b|
    requires forall i :: 0 <= i < |a| ==> a[i].0 == b[i].0
    ensures LastNamed(a, name) == LastNamed(b, name)
  {
  }

  lemma SimulatesSavepoint(s: State, r: RefState, name: string)
    requires Simulates(s, r) && s.tx.Some?
    ensures Simulates(Step(s, Savepoint(name)).0, RefStep(r, Savepoint(name)).0)
  {
    var tx := s.tx.value;
    assert tx.oplog[..|tx.oplog|] == tx.oplog;
  }

  lemma SimulatesApply(s: State, r: RefState, op: Op)
    requires Simulates(s, r)
    ensures Simulates(Step(s, Apply(op)).0, RefStep(r, Apply(op)).0)
  {
    if s.tx.Some? && Succeeded(ApplyOp(s.tables, op).res) {
      var tx := s.tx.value;
      ReplaySnoc(tx.snapshot, tx.oplog, op);
      forall i | 0 <= i < |tx.savepoints|
        ensures (tx.oplog + [op])[..tx.savepoints[i].1] == tx.oplog[..tx.savepoints[i].1]
      {
      }
    } else {
      FailureChangesNothing(s.tables, op);
    }
  }

  lemma NamesMatch(tx: TxState, saves: seq<(string, Tables)>)
    requires SavesMatch(tx, saves)
    ensures |tx.savepoints| == |saves| && forall i :: 0 <= i < |saves| ==> tx.savepoints[i].0 == saves[i].0
  {
    hide Replay;
  }

  /** Cutting the log at a mark keeps the savepoints up to it in step with their copies. */
  lemma SavesCut(tx: TxState, saves: seq<(string, Tables)>, i: nat)
    requires SavesMatch(tx, saves) && i < |saves|
    ensures var mark := tx.savepoints[i].1;
            && mark <= |tx.oplog| && saves[i].1 == Replay(tx.snapshot, tx.oplog[..mark]).tables
            && SavesMatch(tx.(oplog := tx.oplog[..mark], savepoints := tx.savepoints[..i + 1]), saves[..i + 1])
  {
    hide Replay;
    var mark := tx.savepoints[i].1;
    forall j | 0 <= j <= i
      ensures tx.savepoints[j].1 <= mark && tx.oplog[..mark][..tx.savepoints[j].1] == tx.oplog[..tx.savepoints[j].1]
    {
    }
  }

  lemma SimulatesRollbackTo(s: State, r: RefState, name: string)
    requires Simulates(s, r) && s.tx.Some?
    ensures Simulates(Step(s, RollbackTo(name)).0, RefStep(r, RollbackTo(name)).0)
    ensures Step(s, RollbackTo(name)).1 == RefStep(r, RollbackTo(name)).1
  {
    hide Replay, Replayable, SavesMatch;
    var tx := s.tx.value;
    var saves := r.tx.value.saves;
    NamesMatch(tx, saves);
    LastNamedAgrees(tx.savepoints, saves, name);
    var i := LastNamed(tx.savepoints, name);
    if i >= 0 {
      var mark := tx.savepoints[i].1;
      SavesCut(tx, saves, i);
      ReplayPrefix(tx.snapshot, tx.oplog, mark);
      ReplayConcat(tx.snapshot, tx.oplog[..mark], []);
    }
  }

  lemma SimulatesStep(s: State, r: RefState, e: Event)
    requires Simulates(s, r)
    requires Permitted(e, s.tx.Some?)
    ensures Simulates(Step(s, e).0, RefStep(r, e).0)
    ensures Step(s, e).1 == RefStep(r, e).1
  {
    match e
    case Begin =>
    case Commit =>
    case Rollback =>
    case Savepoint(name) => if s.tx.Some? { SimulatesSavepoint(s, r, name); }
    case RollbackTo(name) => if s.tx.Some? { SimulatesRollbackTo(s, r, name); }
    case Apply(op) => SimulatesApply(s, r, op);
  }

  lemma PrefixPermitted(es: seq<Event>, n: nat)
    requires n <= |es|
    requires NoNestedBegin(INITIAL, es)
    ensures NoNestedBegin(INITIAL, es[..n])
  {
    forall m | 0 <= m < n
      ensures Permitted(es[..n][m], Run(INITIAL, es[..n][..m]).tx.Some?)
    {
      assert es[..n][..m] == es[..m];
      assert Permitted(es[m], Run(INITIAL, es[..m]).tx.Some?);
    }
  }

  lemma {:induction false} SimulatesRun(es: seq<Event>)
    requires NoNestedBegin(INITIAL, es)
    ensures Simulates(Run(INITIAL, es), RefRun(REF_INITIAL, es))
    decreases |es|
  {
    if es != [] {
      var n := |es| - 1;
      var front := es[..n];
      PrefixPermitted(es, n);
      SimulatesRun(front);
      SimulatesStep(Run(INITIAL, front), RefRun(REF_INITIAL, front), es[n]);
    }
  }

  lemma AnswersAgree(es: seq<Event>, n: nat)
    requires n < |es|
    requires NoNestedBegin(INITIAL, es)
    ensures AnswerAt(INITIAL, es, n) == RefAnswerAt(REF_INITIAL, es, n)
    ensures AnswerAt(INITIAL, es, n) != Refused(ReplayMisuse)
  {
    PrefixPermitted(es, n);
    SimulatesRun(es[..n]);
    SimulatesStep(Run(INITIAL, es[..n]), RefRun(REF_INITIAL, es[..n]), es[n]);
  }

  /** For every run, the op-log ledger and the copying reference hold the same tables and answer every call alike;
      in particular no replay ever fails. */
  lemma LedgerRefinesCopies(es: seq<Event>)
    requires NoNestedBegin(INITIAL, es)
    ensures Run(INITIAL, es).tables == RefRun(REF_INITIAL, es).tables
    ensures forall n :: 0 <= n < |es| ==>
      && AnswerAt(INITIAL, es, n) == RefAnswerAt(REF_INITIAL, es, n)
      && AnswerAt(INITIAL, es, n) != Refused(ReplayMisuse)
  {
    SimulatesRun(es);
    forall n | 0 <= n < |es|
      ensures AnswerAt(INITIAL, es, n) == RefAnswerAt(REF_INITIAL, es, n)
      ensures AnswerAt(INITIAL, es, n) != Refused(ReplayMisuse)
    {
      AnswersAgree(es, n);
    }
  }

  // ---- ROLLBACK TO restores the savepoint, as often as asked -------------------

  /** Savepoint number `i`, made by `Savepoint(name)` from state `s`, stays live through the run. */
  ghost predicate StaysLive(s: RefState, es: seq<Event>, i: nat) {
    forall n :: 0 <= n <= |es| ==> RefRun(s, es[..n]).tx.Some? && |RefRun(s, es[..n]).tx.value.saves| > i
  }

  /** Savepoint number `i` is the newest of its name. */
  ghost predicate NewestNamed(r: RefState, name: string, i: nat) {
    r.tx.Some? && LastNamed(r.tx.value.saves, name) == i
  }

  lemma RefBackTo(saved: RefState, r: RefState, name: string)
    requires saved.tx.Some? && r.tx.Some?
    requires 0 < |saved.tx.value.saves| <= |r.tx.value.saves|
    requires r.tx.value.start == saved.tx.value.start
    requires r.tx.value.saves[..|saved.tx.value.saves|] == saved.tx.value.saves
    requires saved.tx.value.saves[|saved.tx.value.saves| - 1] == (name, saved.tables)
    requires NewestNamed(r, name, |saved.tx.value.saves| - 1)
    ensures RefStep(r, RollbackTo(name)) == (saved, Done)
  {
    var i := |saved.tx.value.saves| - 1;
    assert r.tx.value.saves[..i + 1][i] == r.tx.value.saves[i];
  }

  /** On the reference: SAVEPOINT, anything that keeps it live and leaves it the newest of its name in the end, ROLLBACK TO
      is as good as SAVEPOINT alone. */
  lemma RefRollbackToRestores(r: RefState, name: string, es: seq<Event>)
    requires r.tx.Some?
    requires StaysLive(RefStep(r, Savepoint(name)).0, es, |r.tx.value.saves|)
    requires forall n :: 0 <= n < |es| ==> !es[n].Begin?
    requires NewestNamed(RefRun(RefStep(r, Savepoint(name)).0, es), name, |r.tx.value.saves|)
    ensures
      var saved := RefStep(r, Savepoint(name)).0;
      RefStep(RefRun(saved, es), RollbackTo(name)) == (saved, Done)
  {
    hide RefRun, StaysLive, LastNamed, NewestNamed;
    var saved := RefStep(r, Savepoint(name)).0;
    var i := |r.tx.value.saves|;
    LivePrefixKept(saved, es, i);
    assert saved.tx.value.saves[..i + 1] == saved.tx.value.saves;
    RefBackTo(saved, RefRun(saved, es), name);
  }

  /** After SAVEPOINT name, run anything that leaves that savepoint live and, in the end, the newest of its name, even if
      others of that name came and went;
      ROLLBACK TO name then yields the tables of the SAVEPOINT, and the reference is back where the SAVEPOINT left it,
      so the same holds again from there. */
  lemma RollbackToRestores(es0: seq<Event>, name: string, es: seq<Event>)
    requires NoNestedBegin(INITIAL, es0 + [Savepoint(name)] + es + [RollbackTo(name)])
    requires RefRun(REF_INITIAL, es0).tx.Some?
    requires StaysLive(RefStep(RefRun(REF_INITIAL, es0), Savepoint(name)).0, es, |RefRun(REF_INITIAL, es0).tx.value.saves|)
    requires forall n :: 0 <= n < |es| ==> !es[n].Begin?
    requires var r := RefRun(REF_INITIAL, es0); NewestNamed(RefRun(RefStep(r, Savepoint(name)).0, es), name, |r.tx.value.saves|)
    ensures Run(INITIAL, es0 + [Savepoint(name)] + es + [RollbackTo(name)]).tables == Run(INITIAL, es0).tables
    ensures RefRun(REF_INITIAL, es0 + [Savepoint(name)] + es + [RollbackTo(name)])
         == RefRun(REF_INITIAL, es0 + [Savepoint(name)])
  {
    hide RefRun, Run, StaysLive, NewestNamed, NoNestedBegin;
    var start := es0 + [Savepoint(name)];
    var whole := start + es + [RollbackTo(name)];
    RefRunSnoc(REF_INITIAL, es0, Savepoint(name));
    RefRunConcat(REF_INITIAL, start, es);
    RefRunSnoc(REF_INITIAL, start + es, RollbackTo(name));
    RefRollbackToRestores(RefRun(REF_INITIAL, es0), name, es);
    SameTables(whole);
    PrefixPermitted(whole, |es0|);
    assert whole[..|es0|] == es0;
    SameTables(es0);
  }

  lemma SameTables(es: seq<Event>)
    requires NoNestedBegin(INITIAL, es)
    ensures Run(INITIAL, es).tables == RefRun(REF_INITIAL, es).tables
  {
    SimulatesRun(es);
  }

  lemma {:induction false} LivePrefixKept(s: RefState, es: seq<Event>, i: nat)
    requires s.tx.Some? && i < |s.tx.value.saves|
    requires StaysLive(s, es, i)
    requires forall n :: 0 <= n < |es| ==> !es[n].Begin?
    ensures RefRun(s, es).tx.Some? && |RefRun(s, es).tx.value.saves| > i
    ensures RefRun(s, es).tx.value.start == s.tx.value.start
    ensures RefRun(s, es).tx.value.saves[..i + 1] == s.tx.value.saves[..i + 1]
    decreases |es|
  {
    assert es[..|es|] == es;
    if es != [] {
      var n := |es| - 1;
      var front := es[..n];
      forall m | 0 <= m <= |front|
        ensures RefRun(s, front[..m]).tx.Some? && |RefRun(s, front[..m]).tx.value.saves| > i
      {
        assert front[..m] == es[..m];
      }
      LivePrefixKept(s, front, i);
    }
  }

  lemma RefRunSnoc(r: RefState, es: seq<Event>, e: Event)
    ensures RefRun(r, es + [e]) == RefStep(RefRun(r, es), e).0
  {
    assert (es + [e])[..|es|] == es;
  }

  lemma {:induction false} RefRunConcat(r: RefState, a: seq<Event>, b: seq<Event>)
    ensures RefRun(r, a + b) == RefRun(RefRun(r, a), b)
    decreases |b|
  {
    if b == [] {
      assert a + b == a;
    } else {
      var n := |b| - 1;
      RefRunConcat(r, a, b[..n]);
      assert (a + b)[..|a + b| - 1] == a + b[..n];
    }
  }

  // ---- what survives a crash ----------------------------------------------------

  /** The tables a correct engine must show after dying now: an open transaction rolls back. */
  function CrashCommitted(s: State): Tables {
    if s.tx.Some? then s.tx.value.snapshot else s.tables
  }

  /** Only operation logs: what was committed, what is pending, and where the savepoints cut. */
  datatype LogState = LogState(committed: seq<Op>, open: bool, pending: seq<Op>, cuts: seq<(string, nat)>)

  const LOG_INITIAL := LogState([], false, [], [])

  /** The logs after one event. An operation enters a log exactly when replaying both logs from the
      empty database and then applying it succeeds. */
  ghost function LogStep(l: LogState, e: Event): LogState {
    match e
    case Begin => LogState(l.committed + l.pending, true, [], [])
    case Commit => LogState(l.committed + l.pending, false, [], [])
    case Rollback => LogState(l.committed, false, [], [])
    case Savepoint(name) => if l.open then l.(cuts := l.cuts + [(name, |l.pending|)]) else l
    case RollbackTo(name) =>
      var i := LastNamed(l.cuts, name);
      if !l.open || i < 0 || l.cuts[i].1 > |l.pending| then l
      else l.(pending := l.pending[..l.cuts[i].1], cuts := l.cuts[..i + 1])
    case Apply(op) =>
      if !Succeeded(ApplyOp(Replay(map[], l.committed + l.pending).tables, op).res) then l
      else if l.open then l.(pending := l.pending + [op])
      else l.(committed := l.committed + [op])
  }

  ghost function LogRun(l: LogState, es: seq<Event>): LogState
    decreases |es|
  {
    if es == [] then l else LogStep(LogRun(l, es[..|es| - 1]), es[|es| - 1])
  }

  ghost predicate LogsExplain(s: State, l: LogState) {
    && Replayable(map[], l.committed)
    && CrashCommitted(s) == Replay(map[], l.committed).tables
    && l.open == s.tx.Some?
    && (s.tx.None? ==> l.pending == [] && l.cuts == [])
    && (s.tx.Some? ==>
          && l.pending == s.tx.value.oplog
          && l.cuts == s.tx.value.savepoints
          && (forall i :: 0 <= i < |l.cuts| ==> l.cuts[i].1 <= |l.pending|)
          && (forall i, j :: 0 <= i < j < |l.cuts| ==> l.cuts[i].1 <= l.cuts[j].1)
          && Replayable(s.tx.value.snapshot, l.pending)
          && s.tables == Replay(s.tx.value.snapshot, l.pending).tables)
  }

  lemma LogsExplainWorking(s: State, l: LogState)
    requires LogsExplain(s, l)
    ensures Replayable(map[], l.committed + l.pending)
    ensures s.tables == Replay(map[], l.committed + l.pending).tables
  {
    ReplayConcat(map[], l.committed, l.pending);
  }

  lemma LogsExplainRollbackTo(s: State, l: LogState, name: string)
    requires LogsExplain(s, l)
    ensures LogsExplain(Step(s, RollbackTo(name)).0, LogStep(l, RollbackTo(name)))
  {
    hide Replay, Replayable;
    var i := LastNamed(l.cuts, name);
    if l.open && i >= 0 {
      var mark := l.cuts[i].1;
      ReplayPrefix(s.tx.value.snapshot, l.pending, mark);
      ReplayConcat(s.tx.value.snapshot, l.pending[..mark], []);
    }
  }

  lemma LogsExplainApply(s: State, l: LogState, op: Op)
    requires LogsExplain(s, l)
    ensures LogsExplain(Step(s, Apply(op)).0, LogStep(l, Apply(op)))
  {
    LogsExplainWorking(s, l);
    FailureChangesNothing(s.tables, op);
    if Succeeded(ApplyOp(s.tables, op).res) {
      if l.open {
        ReplaySnoc(s.tx.value.snapshot, l.pending, op);
      } else {
        assert l.committed + l.pending == l.committed;
        ReplaySnoc(map[], l.committed, op);
      }
    }
  }

  lemma LogsExplainStep(s: State, l: LogState, e: Event)
    requires LogsExplain(s, l)
    requires Permitted(e, s.tx.Some?)
    ensures LogsExplain(Step(s, e).0, LogStep(l, e))
  {
    match e
    case Begin => assert l.committed + [] == l.committed;
    case Commit => LogsExplainWorking(s, l);
    case Rollback =>
    case Savepoint(name) =>
    case RollbackTo(name) => LogsExplainRollbackTo(s, l, name);
    case Apply(op) => LogsExplainApply(s, l, op);
  }

  lemma {:induction false} LogsExplainRun(es: seq<Event>)
    requires NoNestedBegin(INITIAL, es)
    ensures LogsExplain(Run(INITIAL, es), LogRun(LOG_INITIAL, es))
    decreases |es|
  {
    if es != [] {
      var n := |es| - 1;
      PrefixPermitted(es, n);
      LogsExplainRun(es[..n]);
      LogsExplainStep(Run(INITIAL, es[..n]), LogRun(LOG_INITIAL, es[..n]), es[n]);
    }
  }

  /** Over every run, the crash view is the replay, from an empty database, of exactly the autocommitted
      operations and the surviving operations of committed transactions; the working tables add the pending ones. */
  lemma CrashCommittedIsCommittedLog(es: seq<Event>)
    requires NoNestedBegin(INITIAL, es)
    ensures
      var l := LogRun(LOG_INITIAL, es);
      && Replayable(map[], l.committed + l.pending)
      && CrashCommitted(Run(INITIAL, es)) == Replay(map[], l.committed).tables
      && Run(INITIAL, es).tables == Replay(map[], l.committed + l.pending).tables
  {
    LogsExplainRun(es);
    LogsExplainWorking(Run(INITIAL, es), LogRun(LOG_INITIAL, es));
  }

  /** From BEGIN until the transaction ends the crash view stands still; outside one it is the working state. */
  lemma {:induction false} CrashCommittedConstantInTx(s: State, es: seq<Event>)
    requires s.tx.None?
    requires forall n :: 0 <= n < |es| ==> es[n].Apply? || es[n].Savepoint? || es[n].RollbackTo?
    ensures CrashCommitted(s) == s.tables
    ensures Run(Step(s, Begin).0, es).tx.Some?
    ensures CrashCommitted(Run(Step(s, Begin).0, es)) == s.tables
    decreases |es|
  {
    if es != [] {
      CrashCommittedConstantInTx(s, es[..|es| - 1]);
    }
  }

  // ---- the table invariant over whole runs -----------------------------------------

  lemma {:induction false} ReplayKeepsTables(tables: Tables, ops: seq<Op>)
    requires ValidTables(tables)
    ensures ValidTables(Replay(tables, ops).tables)
    decreases |ops|
  {
    if ops != [] {
      OpKeepsTables(tables, ops[0]);
      if ApplyOp(tables, ops[0]).res.Success? {
        ReplayKeepsTables(ApplyOp(tables, ops[0]).tables, ops[1..]);
      }
    }
  }

  ghost predicate ValidState(s: State) {
    && ValidTables(s.tables)
    && (s.tx.Some? ==> ValidTables(s.tx.value.snapshot))
  }

  lemma StepKeepsValid(s: State, e: Event)
    requires ValidState(s)
    ensures ValidState(Step(s, e).0)
  {
    match e
    case Apply(op) => OpKeepsTables(s.tables, op);
    case RollbackTo(name) =>
      if s.tx.Some? && LastNamed(s.tx.value.savepoints, name) >= 0 {
        var tx := s.tx.value;
        var mark := tx.savepoints[LastNamed(tx.savepoints, name)].1;
        ReplayKeepsTables(tx.snapshot, if mark <= |tx.oplog| then tx.oplog[..mark] else tx.oplog);
      }
    case _ =>
  }

  /** In every reachable ledger each row has its table's arity, no NOT NULL column holds null, and a keyed table
      holds one row per key value. */
  lemma {:induction false} ReachableTablesValid(es: seq<Event>)
    ensures ValidState(Run(INITIAL, es))
    decreases |es|
  {
    if es != [] {
      ReachableTablesValid(es[..|es| - 1]);
      StepKeepsValid(Run(INITIAL, es[..|es| - 1]), es[|es| - 1]);
    }
  }
}
