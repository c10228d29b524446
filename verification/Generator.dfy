/**
  The plan generator and a reference transactional server. The generator models the server with one snapshot per
  BEGIN and per savepoint; every plan it can emit runs on the server without a rejected statement and leaves no
  transaction open and no GUC set.
 */
module Generator {
  import opened Common
  import P = Plan
  import S = Schema

  // ---- plan items and the reference server -----------------------------------------------

  datatype Item =
    | Sql(st: S.Stmt)
    | Begin
    | Commit
    | Rollback
    | Savepoint(n: nat)
    | RollbackTo(n: nat)
    | SetGuc(guc: string)
    | ResetAll
    | Disconnect
    | Reconnect
    | Property(name: string, seq': nat, steps: seq<P.Step>)

  /** DDL, DML and SET all revert with their transaction. */
  datatype Saved = Saved(db: S.Db, gucs: set<string>)

  datatype ServerTx = ServerTx(start: Saved, saves: seq<(nat, Saved)>)

  datatype Server = Server(db: S.Db, gucs: set<string>, tx: Option<ServerTx>, up: bool)

  /** Index of the newest savepoint of that name, or -1. */
  function Newest(saves: seq<(nat, Saved)>, n: nat): (i: int)
    ensures -1 <= i < |saves|
    ensures i >= 0 ==> saves[i].0 == n
    ensures forall j :: i < j < |saves| ==> saves[j].0 != n
  {
    if saves == [] then -1
    else if saves[|saves| - 1].0 == n then |saves| - 1
    else Newest(saves[..|saves| - 1], n)
  }

  /** What properties do to the session they run in: their tables come and go, and `clears(k)` says whether
      property number k ends with RESET ALL. */
  type Env = nat -> bool

  /** Run one item; None is a rejected statement. Property blocks want autocommit. */
  function Serve(clears: Env, s: Server, it: Item): Option<Server> {
    if it.Reconnect? then (if s.up then None else Some(s.(up := true)))
    else if !s.up then None
    else
      match it
      case Sql(st) =>
        var r := S.Exec(s.db, st);
        if r.None? then None else Some(s.(db := r.value))
      case Begin => if s.tx.Some? then None else Some(s.(tx := Some(ServerTx(Saved(s.db, s.gucs), []))))
      case Commit => if s.tx.None? then None else Some(s.(tx := None))
      case Rollback =>
        if s.tx.None? then None
        else Some(s.(db := s.tx.value.start.db, gucs := s.tx.value.start.gucs, tx := None))
      case Savepoint(n) =>
        if s.tx.None? then None
        else Some(s.(tx := Some(s.tx.value.(saves := s.tx.value.saves + [(n, Saved(s.db, s.gucs))]))))
      case RollbackTo(n) =>
        if s.tx.None? then None
        else
          var saves := s.tx.value.saves;
          var i := Newest(saves, n);
          if i < 0 then None
          else Some(s.(db := saves[i].1.db, gucs := saves[i].1.gucs, tx := Some(s.tx.value.(saves := saves[..i + 1]))))
      case SetGuc(k) => Some(s.(gucs := s.gucs + {k}))
      case ResetAll => Some(s.(gucs := {}))
      case Disconnect =>
        Some(Server(if s.tx.Some? then s.tx.value.start.db else s.db, {}, None, false))
      case Reconnect => None
      case Property(_, k, _) => if s.tx.Some? then None else Some(if clears(k) then s.(gucs := {}) else s)
  }

  function ServeAll(clears: Env, s: Server, items: seq<Item>): Option<Server>
    decreases |items|
  {
    if items == [] then Some(s)
    else
      var r := Serve(clears, s, items[0]);
      if r.None? then None else ServeAll(clears, r.value, items[1..])
  }

  lemma {:induction false} ServeConcat(clears: Env, s: Server, a: seq<Item>, b: seq<Item>)
    requires ServeAll(clears, s, a).Some?
    ensures ServeAll(clears, s, a + b) == ServeAll(clears, ServeAll(clears, s, a).value, b)
    decreases |a|
  {
    if a == [] {
      assert a + b == b;
    } else {
      assert (a + b)[1..] == a[1..] + b;
      ServeConcat(clears, Serve(clears, s, a[0]).value, a[1..], b);
    }
  }

  lemma ServeOne(clears: Env, s: Server, a: Item)
    ensures ServeAll(clears, s, [a]) == Serve(clears, s, a)
  {
    assert [a][1..] == [];
  }

  lemma ServeTwo(clears: Env, s: Server, a: Item, b: Item)
    requires Serve(clears, s, a).Some?
    ensures ServeAll(clears, s, [a, b]) == Serve(clears, Serve(clears, s, a).value, b)
  {
    assert [a, b][1..] == [b];
    ServeOne(clears, Serve(clears, s, a).value, b);
  }

  function SqlItems(sts: seq<S.Stmt>): (items: seq<Item>)
    ensures |items| == |sts|
    decreases |sts|
  {
    if sts == [] then [] else [Sql(sts[0])] + SqlItems(sts[1..])
  }

  lemma {:induction false} ServeSql(clears: Env, s: Server, sts: seq<S.Stmt>)
    requires s.up
    requires S.ExecAll(s.db, sts).Some?
    ensures ServeAll(clears, s, SqlItems(sts)) == Some(s.(db := S.ExecAll(s.db, sts).value))
    decreases |sts|
  {
    if sts != [] {
      assert SqlItems(sts)[1..] == SqlItems(sts[1..]);
      ServeSql(clears, s.(db := S.Exec(s.db, sts[0]).value), sts[1..]);
    }
  }

  // ---- the generator's model of the session --------------------------------------------------

  datatype Snap = Snap(live: S.Live, gucsSet: bool)

  datatype Session = Session(
    inTx: bool,
    savepoints: seq<nat>,
    nextSavepoint: nat,
    gucsSet: bool,
    txSnapshot: Option<Snap>,
    spSnapshots: seq<Snap>)

  datatype Model = Model(schema: S.State, session: Session)

  const FRESH_SESSION := Session(false, [], 0, false, None, [])

  ghost predicate SnapTracks(snap: Snap, c: S.Counters, saved: Saved) {
    S.Tracks(S.State(snap.live, c), saved.db) && (saved.gucs != {} ==> snap.gucsSet)
  }

  ghost predicate SavesTrack(m: Session, c: S.Counters, saves: seq<(nat, Saved)>) {
    && |m.savepoints| == |m.spSnapshots| == |saves|
    && (forall i :: 0 <= i < |saves| ==> m.savepoints[i] == saves[i].0 && SnapTracks(m.spSnapshots[i], c, saves[i].1))
    && (forall i, j :: 0 <= i < j < |saves| ==> m.savepoints[i] < m.savepoints[j])
    && (forall i :: 0 <= i < |saves| ==> m.savepoints[i] <= m.nextSavepoint)
  }

  ghost predicate TxTracks(m: Session, c: S.Counters, tx: Option<ServerTx>) {
    && m.inTx == tx.Some? == m.txSnapshot.Some?
    && (tx.Some? ==> SnapTracks(m.txSnapshot.value, c, tx.value.start))
    && SavesTrack(m, c, if tx.Some? then tx.value.saves else [])
  }

  /** The model is in step with the server: same live tables with keys below the counters, same savepoints with
      matching snapshots, and no GUC set that the model does not remember. */
  ghost predicate InStep(m: Model, s: Server) {
    && s.up
    && S.Tracks(m.schema, s.db)
    && (s.gucs != {} ==> m.session.gucsSet)
    && TxTracks(m.session, m.schema.counters, s.tx)
  }

  // ---- decisions -------------------------------------------------------------------------------

  datatype TxChoice = TxCommit | TxRollback | TxSavepoint | TxRollbackTo(i: nat)

  predicate TxEnabled(m: Session, c: TxChoice) {
    m.inTx && m.txSnapshot.Some? && |m.savepoints| == |m.spSnapshots| && (c.TxRollbackTo? ==> c.i < |m.savepoints|)
  }

  function Restore(m: Model, snap: Snap): Model {
    Model(m.schema.(live := snap.live), m.session.(gucsSet := snap.gucsSet))
  }

  function CloseTx(s: Session): Session {
    s.(inTx := false, savepoints := [], spSnapshots := [], txSnapshot := None)
  }

  function BeginEffect(m: Model): Model {
    m.(session := m.session.(inTx := true, savepoints := [], spSnapshots := [],
                             txSnapshot := Some(Snap(m.schema.live, m.session.gucsSet))))
  }

  function TxEffect(m: Model, c: TxChoice): (Model, Item)
    requires TxEnabled(m.session, c)
  {
    var ss := m.session;
    match c
    case TxCommit => (m.(session := CloseTx(ss)), Commit)
    case TxRollback =>
      var r := Restore(m, ss.txSnapshot.value);
      (r.(session := CloseTx(r.session)), Rollback)
    case TxSavepoint =>
      var n := ss.nextSavepoint + 1;
      (m.(session := ss.(nextSavepoint := n, savepoints := ss.savepoints + [n],
                         spSnapshots := ss.spSnapshots + [Snap(m.schema.live, ss.gucsSet)])), Savepoint(n))
    case TxRollbackTo(i) =>
      var r := Restore(m, ss.spSnapshots[i]);
      (r.(session := r.session.(savepoints := ss.savepoints[..i + 1], spSnapshots := ss.spSnapshots[..i + 1])),
       RollbackTo(ss.savepoints[i]))
  }

  /** Savepoints are numbered one by one, over all transactions. */
  lemma SavepointsNumbered(m: Model, c: TxChoice)
    requires TxEnabled(m.session, c)
    ensures var (m', it) := TxEffect(m, c);
            && m'.session.nextSavepoint == m.session.nextSavepoint + (if c.TxSavepoint? then 1 else 0)
            && (c.TxSavepoint? ==> it == Savepoint(m.session.nextSavepoint + 1))
  {
  }

  /** The item is accepted and the new model is in step with the new server. */
  ghost predicate KeepsStep(clears: Env, m': Model, s: Server, items: seq<Item>) {
    ServeAll(clears, s, items).Some? && InStep(m', ServeAll(clears, s, items).value)
  }

  lemma BeginKeepsStep(clears: Env, m: Model, s: Server)
    requires InStep(m, s) && !m.session.inTx
    ensures KeepsStep(clears, BeginEffect(m), s, [Begin])
  {
    ServeOne(clears, s, Begin);
  }

  lemma CommitKeepsStep(clears: Env, m: Model, s: Server)
    requires InStep(m, s) && m.session.inTx
    ensures KeepsStep(clears, m.(session := CloseTx(m.session)), s, [Commit])
  {
    ServeOne(clears, s, Commit);
  }

  lemma RollbackKeepsStep(clears: Env, m: Model, s: Server)
    requires InStep(m, s) && m.session.inTx
    ensures KeepsStep(clears, TxEffect(m, TxRollback).0, s, [Rollback])
  {
    ServeOne(clears, s, Rollback);
  }

  lemma SavepointKeepsStep(clears: Env, m: Model, s: Server)
    requires InStep(m, s) && m.session.inTx
    ensures KeepsStep(clears, TxEffect(m, TxSavepoint).0, s, [TxEffect(m, TxSavepoint).1])
  {
    var (m', it) := TxEffect(m, TxSavepoint);
    ServeOne(clears, s, it);
    var c := m.schema.counters;
    var saves := s.tx.value.saves;
    var saves' := saves + [(it.n, Saved(s.db, s.gucs))];
    assert SnapTracks(Snap(m.schema.live, m.session.gucsSet), c, Saved(s.db, s.gucs)) by {
      assert S.State(m.schema.live, c) == m.schema;
    }
    assert SavesTrack(m'.session, c, saves');
  }

  /** Savepoint names are never reused, so the name picks the savepoint the generator meant. */
  lemma NewestIsTheOne(m: Session, c: S.Counters, saves: seq<(nat, Saved)>, i: nat)
    requires SavesTrack(m, c, saves) && i < |saves|
    ensures Newest(saves, m.savepoints[i]) == i
  {
    var j := Newest(saves, m.savepoints[i]);
    assert saves[i].0 == m.savepoints[i];
    assert j >= i;
    assert m.savepoints[j] == saves[j].0;
  }

  lemma RollbackToKeepsStep(clears: Env, m: Model, s: Server, i: nat)
    requires InStep(m, s) && m.session.inTx && i < |m.session.savepoints|
    ensures KeepsStep(clears, TxEffect(m, TxRollbackTo(i)).0, s, [TxEffect(m, TxRollbackTo(i)).1])
  {
    var (m', it) := TxEffect(m, TxRollbackTo(i));
    ServeOne(clears, s, it);
    var c := m.schema.counters;
    var saves := s.tx.value.saves;
    NewestIsTheOne(m.session, c, saves, i);
    assert SnapTracks(m.session.spSnapshots[i], c, saves[i].1);
    assert SavesTrack(m'.session, c, saves[..i + 1]);
  }

  /** COMMIT, ROLLBACK, SAVEPOINT and ROLLBACK TO are accepted and keep the model in step. */
  lemma TxKeepsStep(clears: Env, m: Model, s: Server, c: TxChoice)
    requires InStep(m, s)
    requires TxEnabled(m.session, c)
    ensures KeepsStep(clears, TxEffect(m, c).0, s, [TxEffect(m, c).1])
  {
    match c
    case TxCommit => CommitKeepsStep(clears, m, s);
    case TxRollback => RollbackKeepsStep(clears, m, s);
    case TxSavepoint => SavepointKeepsStep(clears, m, s);
    case TxRollbackTo(i) => RollbackToKeepsStep(clears, m, s, i);
  }

  // -- arms

  function ArmItems(set': seq<string>): (items: seq<Item>)
    ensures |items| == |set'|
  {
    seq(|set'|, i requires 0 <= i < |set'| => SetGuc(set'[i]))
  }

  lemma {:induction false} ArmsServed(clears: Env, s: Server, set': seq<string>)
    requires s.up
    ensures ServeAll(clears, s, ArmItems(set')).Some?
    ensures var s' := ServeAll(clears, s, ArmItems(set')).value; s'.(gucs := s.gucs) == s
    decreases |set'|
  {
    if set' != [] {
      assert ArmItems(set')[1..] == ArmItems(set'[1..]);
      ArmsServed(clears, s.(gucs := s.gucs + {set'[0]}), set'[1..]);
    }
  }

  /** Only the GUCs changed on the server, and the model owns up to them. */
  lemma GucsKeepStep(m: Model, s: Server, s': Server, gucsSet: bool)
    requires InStep(m, s)
    requires s'.(gucs := s.gucs) == s
    requires s'.gucs != {} ==> gucsSet
    ensures InStep(m.(session := m.session.(gucsSet := gucsSet)), s')
  {
    var m' := m.session.(gucsSet := gucsSet);
    assert SavesTrack(m', m.schema.counters, if s.tx.Some? then s.tx.value.saves else []);
  }

  lemma ArmKeepsStep(clears: Env, m: Model, s: Server, set': seq<string>)
    requires InStep(m, s)
    ensures KeepsStep(clears, m.(session := m.session.(gucsSet := true)), s, ArmItems(set'))
  {
    ArmsServed(clears, s, set');
    GucsKeepStep(m, s, ServeAll(clears, s, ArmItems(set')).value, true);
  }

  lemma ResetKeepsStep(clears: Env, m: Model, s: Server)
    requires InStep(m, s)
    ensures KeepsStep(clears, m.(session := m.session.(gucsSet := false)), s, [ResetAll])
  {
    ServeOne(clears, s, ResetAll);
    GucsKeepStep(m, s, s.(gucs := {}), false);
  }

  // -- faults

  function FaultEffect(m: Model): Model {
    var live := if m.session.txSnapshot.Some? then m.session.txSnapshot.value.live else m.schema.live;
    Model(m.schema.(live := live), CloseTx(m.session).(gucsSet := false))
  }

  lemma FaultKeepsStep(clears: Env, m: Model, s: Server)
    requires InStep(m, s)
    ensures KeepsStep(clears, FaultEffect(m), s, [Disconnect, Reconnect])
  {
    ServeTwo(clears, s, Disconnect, Reconnect);
  }

  // -- properties

  lemma PropertyKeepsStep(clears: Env, m: Model, s: Server, name: string, k: nat, steps: seq<P.Step>)
    requires InStep(m, s) && !m.session.inTx
    ensures KeepsStep(clears, m, s, [Property(name, k, steps)])
  {
    ServeOne(clears, s, Property(name, k, steps));
    if clears(k) {
      GucsKeepStep(m, s, s.(gucs := {}), m.session.gucsSet);
      assert m.(session := m.session.(gucsSet := m.session.gucsSet)) == m;
    }
  }

  // -- schema decisions

  lemma SnapsUnderLaterCounters(m: Session, c: S.Counters, c': S.Counters, tx: Option<ServerTx>)
    requires TxTracks(m, c, tx)
    requires S.AtMost(c, c')
    ensures TxTracks(m, c', tx)
  {
    if tx.Some? {
      S.TracksUnderLaterCounters(m.txSnapshot.value.live, c, c', tx.value.start.db);
      forall i | 0 <= i < |tx.value.saves|
        ensures SnapTracks(m.spSnapshots[i], c', tx.value.saves[i].1)
      {
        assert SnapTracks(m.spSnapshots[i], c, tx.value.saves[i].1);
        S.TracksUnderLaterCounters(m.spSnapshots[i].live, c, c', tx.value.saves[i].1.db);
      }
    }
  }

  lemma SchemaKeepsStep(m: Model, s: Server, schema': S.State, db': S.Db)
    requires InStep(m, s)
    requires S.Tracks(schema', db')
    requires S.AtMost(m.schema.counters, schema'.counters)
    ensures InStep(m.(schema := schema'), s.(db := db'))
  {
    SnapsUnderLaterCounters(m.session, m.schema.counters, schema'.counters, s.tx);
  }

  lemma DdlKeepsStep(clears: Env, m: Model, s: Server, c: S.DdlChoice)
    requires InStep(m, s)
    requires S.DdlEnabled(m.schema, c)
    ensures KeepsStep(clears, m.(schema := S.DdlEffect(m.schema, c).0), s, SqlItems(S.DdlEffect(m.schema, c).1))
  {
    var (schema', sts) := S.DdlEffect(m.schema, c);
    S.DdlTracks(m.schema, s.db, c);
    S.DdlNamesFresh(m.schema, c);
    ServeSql(clears, s, sts);
    SchemaKeepsStep(m, s, schema', S.ExecAll(s.db, sts).value);
  }

  lemma DmlCounters(s: S.State, c: S.DmlChoice)
    requires S.DmlEnabled(s, c)
    ensures S.DmlEffect(s, c).0.counters == s.counters
  {
  }

  lemma DmlKeepsStep(clears: Env, m: Model, s: Server, c: S.DmlChoice)
    requires InStep(m, s)
    requires S.DmlEnabled(m.schema, c)
    ensures
      var (schema', st) := S.DmlEffect(m.schema, c);
      if st.None? then schema' == m.schema else KeepsStep(clears, m.(schema := schema'), s, [Sql(st.value)])
  {
    var (schema', st) := S.DmlEffect(m.schema, c);
    S.DmlTracks(m.schema, s.db, c);
    DmlCounters(m.schema, c);
    if st.Some? {
      ServeOne(clears, s, Sql(st.value));
      SchemaKeepsStep(m, s, schema', S.Exec(s.db, st.value).value);
    }
  }

  /** A query that names live relations only is accepted and changes nothing. */
  lemma QueryKeepsStep(clears: Env, m: Model, s: Server, names: set<S.Name>)
    requires InStep(m, s)
    requires forall n :: n in names ==> S.IsNamed(m.schema.live.tables, n) || n in m.schema.live.foreign
    ensures KeepsStep(clears, m, s, [Sql(S.Query(names))])
  {
    ServeOne(clears, s, Sql(S.Query(names)));
    forall n | n in names
      ensures n in s.db.tables.Keys + s.db.foreign
    {
      if S.IsNamed(m.schema.live.tables, n) {
        var i :| 0 <= i < |m.schema.live.tables| && m.schema.live.tables[i].cur == n;
        S.TableExists(m.schema, s.db, i);
      }
    }
  }

  // -- the tail

  /** ROLLBACK whatever is open, then RESET ALL if the session as it was at BEGIN still owes it. */
  function CleanupEffect(m: Model): (Model, seq<Item>)
    requires m.session.inTx ==> TxEnabled(m.session, TxRollback)
  {
    var (m1, a) := if m.session.inTx then (TxEffect(m, TxRollback).0, [Rollback]) else (m, []);
    if m1.session.gucsSet then (m1.(session := m1.session.(gucsSet := false)), a + [ResetAll]) else (m1, a)
  }

  lemma CleanupKeepsStep(clears: Env, m: Model, s: Server)
    requires InStep(m, s)
    ensures m.session.inTx ==> TxEnabled(m.session, TxRollback)
    ensures
      var (m', items) := CleanupEffect(m);
      KeepsStep(clears, m', s, items) && !m'.session.inTx && !m'.session.gucsSet
  {
    var (m1, a) := if m.session.inTx then (TxEffect(m, TxRollback).0, [Rollback]) else (m, []);
    assert KeepsStep(clears, m1, s, a) by {
      if m.session.inTx { RollbackKeepsStep(clears, m, s); }
    }
    if m1.session.gucsSet {
      var s1 := ServeAll(clears, s, a).value;
      ResetKeepsStep(clears, m1, s1);
      ServeConcat(clears, s, a, [ResetAll]);
    }
  }
}
