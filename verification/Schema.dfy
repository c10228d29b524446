/**
  The generator's schema model and the database it stands for.
  Every DDL or DML decision emits statements; the statements succeed on the database the model tracks,
  and the model after the decision tracks the database after the statements.
 */
module Schema {
  import opened Common
  import opened Decimal

  // ---- names ----------------------------------------------------------------------

  /** Relation names the generator can spell. */
  datatype Name = Birth(n: nat) | Renamed(birth: nat, k: nat) | Index(n: nat) | Foreign(n: nat)

  function Spell(name: Name): string {
    match name
    case Birth(n) => "t" + Dec(n)
    case Renamed(b, k) => "t" + Dec(b) + "_r" + Dec(k)
    case Index(n) => "i" + Dec(n)
    case Foreign(n) => "ft" + Dec(n)
  }

  /** A run of digits ends at the first non-digit. */
  lemma DigitRunEnds(d: string, x: string, d': string, y: string)
    requires Digits(d) && Digits(d')
    requires d + x == d' + y
    requires x != [] ==> !IsDigit(x[0])
    requires y != [] ==> !IsDigit(y[0])
    ensures d == d' && x == y
  {
    var s := d + x;
    assert forall i :: 0 <= i < |d| ==> IsDigit(s[i]);
    assert forall i :: 0 <= i < |d'| ==> s[i] == (d' + y)[i] && IsDigit(s[i]);
    assert x != [] ==> !IsDigit(s[|d|]);
    assert y != [] ==> !IsDigit((d' + y)[|d'|]);
    assert |d| == |d'|;
    assert d == s[..|d|] && d' == s[..|d|] && x == s[|d|..] && y == s[|d|..];
  }

  lemma SpellTail(a: Name)
    requires a.Birth? || a.Renamed?
    ensures |Spell(a)| > 0 && Spell(a)[1..] == Dec(Number(a)) + Suffix(a)
  {
  }

  lemma SpellTableInjective(a: Name, b: Name)
    requires (a.Birth? || a.Renamed?) && (b.Birth? || b.Renamed?)
    requires Spell(a) == Spell(b)
    ensures a == b
  {
    var x, y := Number(a), Number(b);
    SpellTail(a);
    SpellTail(b);
    DigitRunEnds(Dec(x), Suffix(a), Dec(y), Suffix(b));
    DecInjective(x, y);
    SuffixInjective(a, b);
  }

  lemma SuffixInjective(a: Name, b: Name)
    requires (a.Birth? || a.Renamed?) && (b.Birth? || b.Renamed?)
    requires Number(a) == Number(b) && Suffix(a) == Suffix(b)
    ensures a == b
  {
    if a.Renamed? && b.Renamed? {
      assert Dec(a.k) == Suffix(a)[2..] && Dec(b.k) == Suffix(b)[2..];
      DecInjective(a.k, b.k);
    }
  }

  /** Different names are spelled differently, so reasoning about names is reasoning about SQL identifiers. */
  lemma SpellInjective(a: Name, b: Name)
    requires Spell(a) == Spell(b)
    ensures a == b
  {
    assert Spell(a)[0] == Spell(b)[0];
    if a.Birth? || a.Renamed? {
      SpellTableInjective(a, b);
    } else if a.Index? {
      assert Dec(a.n) == Spell(a)[1..] && Dec(b.n) == Spell(b)[1..];
      DecInjective(a.n, b.n);
    } else {
      assert Dec(a.n) == Spell(a)[2..] && Dec(b.n) == Spell(b)[2..];
      DecInjective(a.n, b.n);
    }
  }

  function Number(a: Name): nat {
    match a
    case Birth(n) => n
    case Renamed(b, _) => b
    case Index(n) => n
    case Foreign(n) => n
  }

  function Suffix(a: Name): string {
    if a.Renamed? then "_r" + Dec(a.k) else ""
  }

  // ---- the database ------------------------------------------------------------------

  datatype DbTable = DbTable(keys: set<int>, indexes: set<Name>)

  datatype Db = Db(tables: map<Name, DbTable>, foreign: set<Name>, ext: bool, srv: bool)

  datatype Stmt =
    | CreateTable(name: Name)
    | CreateIndex(index: Name, on: Name)
    | DropIndex(index: Name)
    | Analyze(on: Name)
    | RenameTable(on: Name, to: Name)
    | DropTable(on: Name)
    | CreateExtension
    | CreateServer
    | CopyOut
    | CreateForeign(name: Name)
    | Insert(on: Name, lo: int, hi: int)
    | Update(on: Name, key: int)
    | Delete(on: Name, key: int)
    | Truncate(on: Name)
    | Merge(on: Name, key: int, deletes: bool)
    | Query(names: set<Name>)

  /** Tables, indexes and foreign tables share one name space. */
  predicate NameFree(db: Db, n: Name) {
    n !in db.tables && n !in db.foreign && forall t :: t in db.tables ==> n !in db.tables[t].indexes
  }

  predicate HasIndex(db: Db, i: Name) {
    exists t :: t in db.tables && i in db.tables[t].indexes
  }

  predicate Between(lo: int, k: int, hi: int) {
    lo <= k <= hi
  }

  /** The integers from `lo` to `hi`. */
  function Span(lo: int, hi: int): (s: set<int>)
    ensures forall k :: k in s <==> Between(lo, k, hi)
  {
    set k | lo <= k <= hi && Between(lo, k, hi)
  }

  /** What one statement does, or None when the server would reject it. */
  function Exec(db: Db, st: Stmt): Option<Db> {
    match st
    case CreateTable(n) =>
      if NameFree(db, n) then Some(db.(tables := db.tables[n := DbTable({}, {})])) else None
    case CreateIndex(i, on) =>
      if on in db.tables && NameFree(db, i) then
        Some(db.(tables := db.tables[on := db.tables[on].(indexes := db.tables[on].indexes + {i})]))
      else None
    case DropIndex(i) =>
      if HasIndex(db, i) then
        Some(db.(tables := map t | t in db.tables :: db.tables[t].(indexes := db.tables[t].indexes - {i})))
      else None
    case Analyze(on) => if on in db.tables then Some(db) else None
    case RenameTable(on, to) =>
      if on in db.tables && NameFree(db, to) then
        Some(db.(tables := (db.tables - {on})[to := db.tables[on]]))
      else None
    case DropTable(on) =>
      if on in db.tables then Some(db.(tables := db.tables - {on})) else None
    case CreateExtension => Some(db.(ext := true))
    case CreateServer => if db.ext then Some(db.(srv := true)) else None
    case CopyOut => Some(db)
    case CreateForeign(n) =>
      if db.srv && NameFree(db, n) then Some(db.(foreign := db.foreign + {n})) else None
    case Insert(on, lo, hi) =>
      if on in db.tables && db.tables[on].keys !! Span(lo, hi) then
        Some(db.(tables := db.tables[on := db.tables[on].(keys := db.tables[on].keys + Span(lo, hi))]))
      else None
    case Update(on, _) => if on in db.tables then Some(db) else None
    case Delete(on, k) =>
      if on in db.tables then
        Some(db.(tables := db.tables[on := db.tables[on].(keys := db.tables[on].keys - {k})]))
      else None
    case Truncate(on) =>
      if on in db.tables then Some(db.(tables := db.tables[on := db.tables[on].(keys := {})])) else None
    case Merge(on, k, deletes) =>
      if on !in db.tables then None
      else if deletes then Some(db.(tables := db.tables[on := db.tables[on].(keys := db.tables[on].keys - {k})]))
      else Some(db)
    case Query(names) => if names <= db.tables.Keys + db.foreign then Some(db) else None
  }

  function ExecAll(db: Db, sts: seq<Stmt>): Option<Db>
    decreases |sts|
  {
    if sts == [] then Some(db)
    else
      var r := Exec(db, sts[0]);
      if r.None? then None else ExecAll(r.value, sts[1..])
  }

  /** The name a statement brings into being. */
  function CreatedBy(st: Stmt): seq<Name> {
    match st
    case CreateTable(n) => [n]
    case CreateIndex(i, _) => [i]
    case RenameTable(_, to) => [to]
    case CreateForeign(n) => [n]
    case _ => []
  }

  function Created(sts: seq<Stmt>): seq<Name>
    decreases |sts|
  {
    if sts == [] then [] else CreatedBy(sts[0]) + Created(sts[1..])
  }

  // ---- the model --------------------------------------------------------------------------

  datatype Table = Table(birth: nat, cur: Name, cols: nat, nextKey: int, indexes: seq<Name>)

  /** The transactional part of the model, captured and restored as a whole. */
  datatype Live = Live(tables: seq<Table>, foreign: seq<Name>, ext: bool, srv: bool)

  /** Name counters; never rolled back. */
  datatype Counters = Counters(table: nat, index: nat, rename: nat, foreign: nat)

  datatype State = State(live: Live, counters: Counters)

  const MAX_FOREIGN_TABLES := 2

  const EMPTY := State(Live([], [], false, false), Counters(0, 0, 0, 0))

  predicate Within(n: Name, c: Counters) {
    match n
    case Birth(k) => k <= c.table
    case Renamed(_, k) => k <= c.rename
    case Index(k) => k <= c.index
    case Foreign(k) => k <= c.foreign
  }

  predicate AtMost(c: Counters, c': Counters) {
    c.table <= c'.table && c.index <= c'.index && c.rename <= c'.rename && c.foreign <= c'.foreign
  }

  // ---- the model tracks the database -----------------------------------------------------------

  /** A model table and the database table of its name: no live key at or above the insert counter, same indexes. */
  ghost predicate TableTracks(t: Table, db: Db) {
    && t.cur in db.tables
    && (forall k :: k in db.tables[t.cur].keys ==> k < t.nextKey)
    && (forall i :: i in t.indexes <==> i in db.tables[t.cur].indexes)
  }

  ghost predicate IsNamed(tables: seq<Table>, n: Name) {
    exists i :: 0 <= i < |tables| && tables[i].cur == n
  }

  predicate NoRepeats<T(==)>(s: seq<T>) {
    forall i, j :: 0 <= i < j < |s| ==> s[i] != s[j]
  }

  /** Two model tables differ in name and share no index. */
  predicate Apart(t: Table, u: Table) {
    t.cur != u.cur && forall x :: x in t.indexes ==> x !in u.indexes
  }

  predicate AllApart(ts: seq<Table>) {
    forall i, j :: 0 <= i < |ts| && 0 <= j < |ts| && i != j ==> Apart(ts[i], ts[j])
  }

  predicate TableWithin(t: Table, c: Counters) {
    && !t.cur.Index? && !t.cur.Foreign? && Within(t.cur, c)
    && NoRepeats(t.indexes)
    && (forall x :: x in t.indexes ==> x.Index? && Within(x, c))
  }

  ghost predicate AllTrack(ts: seq<Table>, c: Counters, db: Db) {
    forall i :: 0 <= i < |ts| ==> TableTracks(ts[i], db) && TableWithin(ts[i], c)
  }

  ghost predicate AllNamed(ts: seq<Table>, db: Db) {
    forall n :: n in db.tables ==> IsNamed(ts, n)
  }

  ghost predicate ForeignTracks(s: State, db: Db) {
    && (forall n :: n in s.live.foreign <==> n in db.foreign)
    && (forall n :: n in s.live.foreign ==> n.Foreign? && Within(n, s.counters))
    && (s.live.ext ==> db.ext)
    && (s.live.srv ==> db.srv)
  }

  ghost predicate Tracks(s: State, db: Db) {
    && AllTrack(s.live.tables, s.counters, db)
    && AllNamed(s.live.tables, db)
    && AllApart(s.live.tables)
    && ForeignTracks(s, db)
  }

  /** Counters only grow, so an older snapshot still tracks its database under newer counters. */
  lemma TracksUnderLaterCounters(live: Live, c: Counters, c': Counters, db: Db)
    requires Tracks(State(live, c), db)
    requires AtMost(c, c')
    ensures Tracks(State(live, c'), db)
  {
    forall i | 0 <= i < |live.tables|
      ensures TableTracks(live.tables[i], db) && TableWithin(live.tables[i], c')
    {
      assert TableTracks(live.tables[i], db) && TableWithin(live.tables[i], c);
    }
  }

  /** A name beyond the counters is free. */
  lemma BeyondCountersIsFree(s: State, db: Db, n: Name)
    requires Tracks(s, db)
    requires !Within(n, s.counters)
    ensures NameFree(db, n)
  {
    forall t | t in db.tables
      ensures n != t && n !in db.tables[t].indexes
    {
      assert IsNamed(s.live.tables, t);
      var i :| 0 <= i < |s.live.tables| && s.live.tables[i].cur == t;
      assert TableTracks(s.live.tables[i], db) && TableWithin(s.live.tables[i], s.counters);
    }
  }

  // ---- DDL decisions -------------------------------------------------------------------------------

  datatype DdlChoice =
    | AddTable(cols: nat)
    | AddIndex(ti: nat)
    | AddAndDropIndex(ti: nat)
    | RemoveIndex(ti: nat, ii: nat)
    | Refresh(ti: nat)
    | ForeignChain
    | Rename(ti: nat)
    | RemoveTable(ti: nat, cols: nat)
    | IndexPair(ti: nat)

  predicate DdlEnabled(s: State, c: DdlChoice) {
    match c
    case AddTable(_) => true
    case AddIndex(ti) => ti < |s.live.tables|
    case AddAndDropIndex(ti) =>
      ti < |s.live.tables| && forall i :: 0 <= i < |s.live.tables| ==> s.live.tables[i].indexes == []
    case RemoveIndex(ti, ii) => ti < |s.live.tables| && ii < |s.live.tables[ti].indexes|
    case Refresh(ti) => ti < |s.live.tables|
    case ForeignChain => |s.live.foreign| < MAX_FOREIGN_TABLES
    case Rename(ti) => ti < |s.live.tables|
    case RemoveTable(ti, _) => ti < |s.live.tables|
    case IndexPair(ti) => ti < |s.live.tables| && s.live.tables[ti].cols >= 2
  }

  function WithTable(s: State, ti: nat, t: Table): State
    requires ti < |s.live.tables|
  {
    s.(live := s.live.(tables := s.live.tables[ti := t]))
  }

  /** A fresh table under the next birth name. */
  function NewTable(s: State, cols: nat): (State, Stmt) {
    var n := s.counters.table + 1;
    var t := Table(n, Birth(n), cols, 1, []);
    (State(s.live.(tables := s.live.tables + [t]), s.counters.(table := n)), CreateTable(Birth(n)))
  }

  function NewIndex(s: State, ti: nat): (State, Stmt)
    requires ti < |s.live.tables|
  {
    var n := s.counters.index + 1;
    var t := s.live.tables[ti];
    (WithTable(s, ti, t.(indexes := t.indexes + [Index(n)])).(counters := s.counters.(index := n)),
     CreateIndex(Index(n), t.cur))
  }

  function RemoveAt<T>(s: seq<T>, i: nat): seq<T>
    requires i < |s|
  {
    s[..i] + s[i + 1..]
  }

  function DropTableAt(s: State, ti: nat): (State, Stmt)
    requires ti < |s.live.tables|
  {
    (s.(live := s.live.(tables := RemoveAt(s.live.tables, ti))), DropTable(s.live.tables[ti].cur))
  }

  /** The model and the statements of one DDL decision. */
  function DdlEffect(s: State, c: DdlChoice): (State, seq<Stmt>)
    requires DdlEnabled(s, c)
  {
    match c
    case AddTable(cols) =>
      var (s', st) := NewTable(s, cols);
      (s', [st])
    case AddIndex(ti) =>
      var (s', st) := NewIndex(s, ti);
      (s', [st])
    case AddAndDropIndex(ti) =>
      var n := s.counters.index + 1;
      (s.(counters := s.counters.(index := n)),
       [CreateIndex(Index(n), s.live.tables[ti].cur), DropIndex(Index(n))])
    case RemoveIndex(ti, ii) =>
      var t := s.live.tables[ti];
      (WithTable(s, ti, t.(indexes := RemoveAt(t.indexes, ii))), [DropIndex(t.indexes[ii])])
    case Refresh(ti) => (s, [Analyze(s.live.tables[ti].cur)])
    case ForeignChain =>
      var n := s.counters.foreign + 1;
      (State(s.live.(foreign := s.live.foreign + [Foreign(n)], ext := true, srv := true), s.counters.(foreign := n)),
       (if s.live.ext then [] else [CreateExtension]) + (if s.live.srv then [] else [CreateServer])
       + [CopyOut, CreateForeign(Foreign(n))])
    case Rename(ti) =>
      var k := s.counters.rename + 1;
      var t := s.live.tables[ti];
      var to := Renamed(t.birth, k);
      (WithTable(s, ti, t.(cur := to)).(counters := s.counters.(rename := k)), [RenameTable(t.cur, to)])
    case RemoveTable(ti, cols) =>
      var (s1, drop) := DropTableAt(s, ti);
      if |s.live.tables| > 1 then (s1, [drop])
      else
        var (s2, create) := NewTable(s1, cols);
        (s2, [drop, create])
    case IndexPair(ti) =>
      var (s1, a) := NewIndex(s, ti);
      var (s2, b) := NewIndex(s1, ti);
      (s2, [a, b, Analyze(s.live.tables[ti].cur)])
  }

  /** The statement succeeds and the new model tracks the new database. */
  ghost predicate StaysInStep(s': State, db: Db, st: Stmt) {
    Exec(db, st).Some? && Tracks(s', Exec(db, st).value)
  }

  lemma NewTableTracks(s: State, db: Db, cols: nat)
    requires Tracks(s, db)
    ensures StaysInStep(NewTable(s, cols).0, db, NewTable(s, cols).1)
  {
    hide AllTrack, AllNamed, AllApart;
    var n := Birth(s.counters.table + 1);
    BeyondCountersIsFree(s, db, n);
    var (s', st) := NewTable(s, cols);
    var db' := Exec(db, st).value;
    TracksUnderLaterCounters(s.live, s.counters, s'.counters, db);
    MoreTablesTrack(s.live.tables, s'.live.tables, s'.counters, db, db', n);
    MoreTablesNamed(s.live.tables, s'.live.tables, db, db', n);
    MoreTablesApart(s.live.tables, s'.live.tables, s'.counters, db, n);
  }

  lemma MoreTablesTrack(ts: seq<Table>, ts': seq<Table>, c: Counters, db: Db, db': Db, n: Name)
    requires AllTrack(ts, c, db) && |ts'| == |ts| + 1 && ts'[..|ts|] == ts
    requires n !in db.tables && n in db'.tables && db' == db.(tables := db.tables[n := db'.tables[n]])
    requires TableTracks(ts'[|ts|], db') && TableWithin(ts'[|ts|], c)
    ensures AllTrack(ts', c, db')
  {
    forall i | 0 <= i < |ts'|
      ensures TableTracks(ts'[i], db') && TableWithin(ts'[i], c)
    {
      if i < |ts| { assert ts'[i] == ts[i] && TableTracks(ts[i], db) && TableWithin(ts[i], c); }
    }
  }

  lemma MoreTablesNamed(ts: seq<Table>, ts': seq<Table>, db: Db, db': Db, n: Name)
    requires AllNamed(ts, db) && |ts'| == |ts| + 1 && ts'[..|ts|] == ts && ts'[|ts|].cur == n
    requires n in db'.tables && db'.tables == db.tables[n := db'.tables[n]]
    ensures AllNamed(ts', db')
  {
    forall m | m in db'.tables
      ensures IsNamed(ts', m)
    {
      if m == n {
        assert ts'[|ts|].cur == m;
      } else {
        assert IsNamed(ts, m);
        var i :| 0 <= i < |ts| && ts[i].cur == m;
        assert ts'[i] == ts[i];
      }
    }
  }

  lemma MoreTablesApart(ts: seq<Table>, ts': seq<Table>, c: Counters, db: Db, n: Name)
    requires AllApart(ts) && AllTrack(ts, c, db) && |ts'| == |ts| + 1 && ts'[..|ts|] == ts
    requires n !in db.tables && ts'[|ts|].cur == n && ts'[|ts|].indexes == []
    ensures AllApart(ts')
  {
    forall i, j | 0 <= i < |ts'| && 0 <= j < |ts'| && i != j
      ensures Apart(ts'[i], ts'[j])
    {
      if i < |ts| && j < |ts| {
        assert ts'[i] == ts[i] && ts'[j] == ts[j] && Apart(ts[i], ts[j]);
      } else if i < |ts| {
        assert ts'[i] == ts[i] && TableTracks(ts[i], db);
      } else {
        assert ts'[j] == ts[j] && TableTracks(ts[j], db);
      }
    }
  }

  /** Tables keep their names: every database table is still named. */
  lemma SameNames(ts: seq<Table>, ts': seq<Table>, db: Db, db': Db)
    requires |ts| == |ts'| && forall i :: 0 <= i < |ts| ==> ts[i].cur == ts'[i].cur
    requires db.tables.Keys == db'.tables.Keys
    requires AllNamed(ts, db)
    ensures AllNamed(ts', db')
  {
    forall n | n in db'.tables
      ensures IsNamed(ts', n)
    {
      assert IsNamed(ts, n);
      var i :| 0 <= i < |ts| && ts[i].cur == n;
      assert ts'[i].cur == n;
    }
  }

  lemma TableExists(s: State, db: Db, ti: nat)
    requires Tracks(s, db)
    requires ti < |s.live.tables|
    ensures TableTracks(s.live.tables[ti], db) && TableWithin(s.live.tables[ti], s.counters)
    ensures s.live.tables[ti].cur in db.tables
  {
  }

  /** May `t'` stand for the database table `d'` in place of `t`, once the counters are `c'`? */
  ghost predicate Replaces(t: Table, t': Table, d': DbTable, c: Counters, c': Counters) {
    && t'.cur == t.cur
    && AtMost(c, c')
    && (forall k :: k in d'.keys ==> k < t'.nextKey)
    && (forall x :: x in t'.indexes <==> x in d'.indexes)
    && (forall x :: x in t'.indexes ==> x in t.indexes || !Within(x, c))
    && TableWithin(t', c')
  }

  /** Changing one table on both sides, under the same name, keeps the model in step. */
  lemma ReplaceTracks(s: State, db: Db, ti: nat, t': Table, d': DbTable, c': Counters)
    requires Tracks(s, db)
    requires ti < |s.live.tables|
    requires Replaces(s.live.tables[ti], t', d', s.counters, c')
    ensures Tracks(WithTable(s, ti, t').(counters := c'), db.(tables := db.tables[t'.cur := d']))
  {
    var db' := db.(tables := db.tables[t'.cur := d']);
    var ts' := s.live.tables[ti := t'];
    assert AllTrack(ts', c', db') by { ReplaceAllTrack(s, db, ti, t', d', c'); }
    assert AllApart(ts') by { ReplaceApart(s, db, ti, t', d', c'); }
    assert AllNamed(ts', db') by {
      TableExists(s, db, ti);
      SameNames(s.live.tables, ts', db, db');
    }
  }

  lemma ReplaceAllTrack(s: State, db: Db, ti: nat, t': Table, d': DbTable, c': Counters)
    requires AllTrack(s.live.tables, s.counters, db) && AllApart(s.live.tables)
    requires ti < |s.live.tables|
    requires Replaces(s.live.tables[ti], t', d', s.counters, c')
    ensures AllTrack(s.live.tables[ti := t'], c', db.(tables := db.tables[t'.cur := d']))
  {
    var ts := s.live.tables;
    forall i | 0 <= i < |ts| && i != ti
      ensures TableTracks(ts[i], db.(tables := db.tables[t'.cur := d'])) && TableWithin(ts[i], c')
    {
      assert TableTracks(ts[i], db) && TableWithin(ts[i], s.counters);
      assert Apart(ts[i], ts[ti]);
    }
  }

  lemma ReplaceApart(s: State, db: Db, ti: nat, t': Table, d': DbTable, c': Counters)
    requires AllTrack(s.live.tables, s.counters, db) && AllApart(s.live.tables)
    requires ti < |s.live.tables|
    requires Replaces(s.live.tables[ti], t', d', s.counters, c')
    ensures AllApart(s.live.tables[ti := t'])
  {
    var ts := s.live.tables;
    var ts' := ts[ti := t'];
    forall i, j | 0 <= i < |ts'| && 0 <= j < |ts'| && i != j
      ensures Apart(ts'[i], ts'[j])
    {
      assert Apart(ts[i], ts[j]);
      assert TableWithin(ts[i], s.counters) && TableWithin(ts[j], s.counters);
    }
  }

  lemma NewIndexReplaces(t: Table, d: DbTable, c: Counters)
    requires TableWithin(t, c)
    requires forall k :: k in d.keys ==> k < t.nextKey
    requires forall x :: x in t.indexes <==> x in d.indexes
    ensures
      var x := Index(c.index + 1);
      Replaces(t, t.(indexes := t.indexes + [x]), d.(indexes := d.indexes + {x}), c, c.(index := c.index + 1))
  {
  }

  lemma NewIndexTracks(s: State, db: Db, ti: nat)
    requires Tracks(s, db)
    requires ti < |s.live.tables|
    ensures StaysInStep(NewIndex(s, ti).0, db, NewIndex(s, ti).1)
    ensures Exec(db, NewIndex(s, ti).1).value.tables.Keys == db.tables.Keys
  {
    hide Tracks;
    var x := Index(s.counters.index + 1);
    BeyondCountersIsFree(s, db, x);
    TableExists(s, db, ti);
    var t := s.live.tables[ti];
    var d := db.tables[t.cur];
    NewIndexReplaces(t, d, s.counters);
    ReplaceTracks(s, db, ti, t.(indexes := t.indexes + [x]), d.(indexes := d.indexes + {x}),
                  s.counters.(index := s.counters.index + 1));
  }

  lemma DropTableTracks(s: State, db: Db, ti: nat)
    requires Tracks(s, db)
    requires ti < |s.live.tables|
    ensures StaysInStep(DropTableAt(s, ti).0, db, DropTableAt(s, ti).1)
  {
    hide AllTrack, AllApart;
    TableExists(s, db, ti);
    var ts := s.live.tables;
    var ts' := RemoveAt(ts, ti);
    var db' := db.(tables := db.tables - {ts[ti].cur});
    DroppedTablesTrack(s, db, ti);
    forall m | m in db'.tables
      ensures IsNamed(ts', m)
    {
      assert IsNamed(ts, m);
      var i :| 0 <= i < |ts| && ts[i].cur == m;
      assert ts'[if i < ti then i else i - 1].cur == m;
    }
  }

  lemma RemovedAt<T>(s: seq<T>, i: nat)
    requires i < |s|
    ensures |RemoveAt(s, i)| == |s| - 1
    ensures forall k :: 0 <= k < |s| - 1 ==> RemoveAt(s, i)[k] == s[if k < i then k else k + 1]
  {
  }

  /** A table tracks its own entry, whatever happens to another one. */
  lemma TracksWithout(t: Table, u: Table, db: Db)
    requires TableTracks(t, db) && Apart(t, u)
    ensures TableTracks(t, db.(tables := db.tables - {u.cur}))
  {
  }

  lemma DroppedTablesTrack(s: State, db: Db, ti: nat)
    requires Tracks(s, db)
    requires ti < |s.live.tables|
    ensures
      var ts' := RemoveAt(s.live.tables, ti);
      AllTrack(ts', s.counters, db.(tables := db.tables - {s.live.tables[ti].cur})) && AllApart(ts')
  {
    hide TableTracks, TableWithin, Apart, AllNamed, ForeignTracks, RemoveAt;
    var ts := s.live.tables;
    var ts' := RemoveAt(ts, ti);
    var db' := db.(tables := db.tables - {ts[ti].cur});
    RemovedAt(ts, ti);
    forall i | 0 <= i < |ts'|
      ensures TableTracks(ts'[i], db') && TableWithin(ts'[i], s.counters)
    {
      var o := if i < ti then i else i + 1;
      assert ts'[i] == ts[o] && TableTracks(ts[o], db) && Apart(ts[o], ts[ti]);
      TracksWithout(ts[o], ts[ti], db);
    }
    forall i, j | 0 <= i < |ts'| && 0 <= j < |ts'| && i != j
      ensures Apart(ts'[i], ts'[j])
    {
      assert Apart(ts[if i < ti then i else i + 1], ts[if j < ti then j else j + 1]);
    }
  }

  lemma RenameTracks(s: State, db: Db, ti: nat)
    requires Tracks(s, db)
    requires ti < |s.live.tables|
    ensures var (s', sts) := DdlEffect(s, Rename(ti)); |sts| == 1 && StaysInStep(s', db, sts[0])
  {
    hide AllTrack, AllNamed, AllApart;
    var (s', sts) := DdlEffect(s, Rename(ti));
    var ts, ts' := s.live.tables, s'.live.tables;
    var to := ts'[ti].cur;
    BeyondCountersIsFree(s, db, to);
    TableExists(s, db, ti);
    var db' := Exec(db, sts[0]).value;
    assert AllTrack(ts', s'.counters, db') && AllApart(ts') by { RenamedTablesTrack(s, db, ti); }
    assert AllNamed(ts', db') by { RenamedTablesNamed(ts, db, ti, to); }
  }

  lemma RenamedTablesNamed(ts: seq<Table>, db: Db, ti: nat, to: Name)
    requires AllNamed(ts, db)
    requires ti < |ts| && ts[ti].cur in db.tables
    ensures AllNamed(ts[ti := ts[ti].(cur := to)], db.(tables := (db.tables - {ts[ti].cur})[to := db.tables[ts[ti].cur]]))
  {
    var ts' := ts[ti := ts[ti].(cur := to)];
    forall m | m in (db.tables - {ts[ti].cur})[to := db.tables[ts[ti].cur]]
      ensures IsNamed(ts', m)
    {
      if m == to {
        assert ts'[ti].cur == m;
      } else {
        assert IsNamed(ts, m);
        var i :| 0 <= i < |ts| && ts[i].cur == m;
        assert ts'[i].cur == m;
      }
    }
  }

  lemma RenamedTablesTrack(s: State, db: Db, ti: nat)
    requires Tracks(s, db)
    requires ti < |s.live.tables|
    ensures
      var t := s.live.tables[ti];
      var to := Renamed(t.birth, s.counters.rename + 1);
      var ts' := s.live.tables[ti := t.(cur := to)];
      && t.cur in db.tables
      && AllTrack(ts', s.counters.(rename := s.counters.rename + 1), db.(tables := (db.tables - {t.cur})[to := db.tables[t.cur]]))
      && AllApart(ts')
  {
    TableExists(s, db, ti);
    var ts := s.live.tables;
    var t := ts[ti];
    var to := Renamed(t.birth, s.counters.rename + 1);
    var ts' := ts[ti := t.(cur := to)];
    var c' := s.counters.(rename := s.counters.rename + 1);
    var db' := db.(tables := (db.tables - {t.cur})[to := db.tables[t.cur]]);
    forall i | 0 <= i < |ts'|
      ensures TableTracks(ts'[i], db') && TableWithin(ts'[i], c')
    {
      assert TableTracks(ts[i], db) && TableWithin(ts[i], s.counters);
      if i != ti { assert Apart(ts[i], ts[ti]); }
    }
    forall i, j | 0 <= i < |ts'| && 0 <= j < |ts'| && i != j
      ensures Apart(ts'[i], ts'[j])
    {
      assert Apart(ts[i], ts[j]) && TableWithin(ts[i], s.counters) && TableWithin(ts[j], s.counters);
    }
  }

  /** Removing one entry of a list without repeats removes exactly that element. */
  lemma RemoveAtRemoves(xs: seq<Name>, ii: nat)
    requires ii < |xs| && NoRepeats(xs)
    ensures NoRepeats(RemoveAt(xs, ii))
    ensures forall y :: y in RemoveAt(xs, ii) <==> y in xs && y != xs[ii]
  {
    var xs' := RemoveAt(xs, ii);
    forall a | 0 <= a < |xs'|
      ensures xs'[a] == xs[if a < ii then a else a + 1] && xs'[a] != xs[ii]
    {
    }
    forall y | y in xs && y != xs[ii]
      ensures y in xs'
    {
      var a :| 0 <= a < |xs| && xs[a] == y;
      assert xs'[if a < ii then a else a - 1] == y;
    }
  }

  /** No other table has this table's index. */
  lemma OthersLack(s: State, db: Db, ti: nat, x: Name, t: Name)
    requires AllTrack(s.live.tables, s.counters, db) && AllNamed(s.live.tables, db) && AllApart(s.live.tables)
    requires ti < |s.live.tables| && x in s.live.tables[ti].indexes && t in db.tables && t != s.live.tables[ti].cur
    ensures x !in db.tables[t].indexes
  {
    hide TableWithin;
    var ts := s.live.tables;
    assert IsNamed(ts, t);
    var i :| 0 <= i < |ts| && ts[i].cur == t;
    assert Apart(ts[ti], ts[i]) && TableTracks(ts[i], db);
  }

  /** Dropping an index that one table has changes that table. */
  lemma DropIndexEffect(db: Db, cur: Name, x: Name)
    requires cur in db.tables && x in db.tables[cur].indexes
    requires forall t :: t in db.tables && t != cur ==> x !in db.tables[t].indexes
    ensures Exec(db, DropIndex(x))
            == Some(db.(tables := db.tables[cur := db.tables[cur].(indexes := db.tables[cur].indexes - {x})]))
  {
    var tables' := map t | t in db.tables :: db.tables[t].(indexes := db.tables[t].indexes - {x});
    forall t | t in db.tables && t != cur
      ensures tables'[t] == db.tables[t]
    {
      assert db.tables[t].indexes - {x} == db.tables[t].indexes;
    }
    assert tables' == db.tables[cur := db.tables[cur].(indexes := db.tables[cur].indexes - {x})];
  }

  /** An index belongs to one table, so dropping it touches that table only. */
  lemma DropIndexTouchesOwner(s: State, db: Db, ti: nat, x: Name)
    requires Tracks(s, db)
    requires ti < |s.live.tables| && x in s.live.tables[ti].indexes
    ensures
      var cur := s.live.tables[ti].cur;
      && cur in db.tables
      && Exec(db, DropIndex(x))
         == Some(db.(tables := db.tables[cur := db.tables[cur].(indexes := db.tables[cur].indexes - {x})]))
  {
    hide TableWithin, ForeignTracks;
    TableExists(s, db, ti);
    var ts := s.live.tables;
    var cur := ts[ti].cur;
    forall t | t in db.tables && t != cur
      ensures x !in db.tables[t].indexes
    {
      OthersLack(s, db, ti, x, t);
    }
    DropIndexEffect(db, cur, x);
  }

  lemma RemoveIndexTracks(s: State, db: Db, ti: nat, ii: nat)
    requires Tracks(s, db)
    requires DdlEnabled(s, RemoveIndex(ti, ii))
    ensures var (s', sts) := DdlEffect(s, RemoveIndex(ti, ii)); |sts| == 1 && StaysInStep(s', db, sts[0])
  {
    var t := s.live.tables[ti];
    var x := t.indexes[ii];
    TableExists(s, db, ti);
    RemoveAtRemoves(t.indexes, ii);
    DropIndexTouchesOwner(s, db, ti, x);
    var d := db.tables[t.cur];
    var t' := t.(indexes := RemoveAt(t.indexes, ii));
    assert Replaces(t, t', d.(indexes := d.indexes - {x}), s.counters, s.counters);
    ReplaceTracks(s, db, ti, t', d.(indexes := d.indexes - {x}), s.counters);
  }

  /** An index created under a free name and dropped again leaves no trace. */
  lemma AddedAndDropped(db: Db, on: Name, x: Name)
    requires on in db.tables && NameFree(db, x)
    ensures Exec(db, CreateIndex(x, on)).Some?
    ensures Exec(Exec(db, CreateIndex(x, on)).value, DropIndex(x)) == Some(db)
  {
    var d := db.tables[on];
    var db1 := db.(tables := db.tables[on := d.(indexes := d.indexes + {x})]);
    FreeIsNoIndex(db, x);
    DropIndexEffect(db1, on, x);
    assert (d.indexes + {x}) - {x} == d.indexes;
    assert db1.tables[on := d] == db.tables;
  }

  lemma FreeIsNoIndex(db: Db, x: Name)
    requires NameFree(db, x)
    ensures forall t :: t in db.tables ==> x !in db.tables[t].indexes
  {
  }

  lemma AddAndDropTracks(s: State, db: Db, ti: nat)
    requires Tracks(s, db)
    requires DdlEnabled(s, AddAndDropIndex(ti))
    ensures
      var (s', sts) := DdlEffect(s, AddAndDropIndex(ti));
      && |sts| == 2
      && Exec(db, sts[0]).Some?
      && Exec(Exec(db, sts[0]).value, sts[1]) == Some(db)
      && Tracks(s', db)
  {
    hide TableWithin, ForeignTracks, Exec, NameFree;
    var (s', sts) := DdlEffect(s, AddAndDropIndex(ti));
    var x := Index(s.counters.index + 1);
    BeyondCountersIsFree(s, db, x);
    TableExists(s, db, ti);
    AddedAndDropped(db, s.live.tables[ti].cur, x);
    TracksUnderLaterCounters(s.live, s.counters, s'.counters, db);
  }

  /** What the chain of foreign-table statements does to the database. */
  function AfterChain(s: State, db: Db): Db {
    db.(ext := db.ext || !s.live.ext, srv := db.srv || !s.live.srv, foreign := db.foreign + {Foreign(s.counters.foreign + 1)})
  }

  lemma ForeignChainRuns(s: State, db: Db)
    requires Tracks(s, db) && DdlEnabled(s, ForeignChain)
    ensures ExecAll(db, DdlEffect(s, ForeignChain).1) == Some(AfterChain(s, db))
  {
    hide AllTrack, AllNamed, AllApart;
    var n := Foreign(s.counters.foreign + 1);
    BeyondCountersIsFree(s, db, n);
    var sts := DdlEffect(s, ForeignChain).1;
    var db1 := db.(ext := db.ext || !s.live.ext);
    var db2 := db1.(srv := db.srv || !s.live.srv);
    var rest := [CopyOut, CreateForeign(n)];
    var middle := (if s.live.srv then [] else [CreateServer]) + rest;
    ExecTwo(db2, CopyOut, CreateForeign(n));
    if s.live.srv {
      assert middle == rest;
    } else {
      assert middle[1..] == rest;
    }
    assert ExecAll(db1, middle) == ExecAll(db2, rest);
    if s.live.ext {
      assert sts == middle;
    } else {
      assert sts[1..] == middle;
    }
  }

  lemma ForeignChainTracks(s: State, db: Db)
    requires Tracks(s, db)
    requires DdlEnabled(s, ForeignChain)
    ensures
      var (s', sts) := DdlEffect(s, ForeignChain);
      ExecAll(db, sts).Some? && Tracks(s', ExecAll(db, sts).value)
  {
    hide ExecAll;
    ForeignChainRuns(s, db);
    var s' := DdlEffect(s, ForeignChain).0;
    var db' := AfterChain(s, db);
    TracksUnderLaterCounters(s.live, s.counters, s'.counters, db);
    forall i | 0 <= i < |s.live.tables|
      ensures TableTracks(s.live.tables[i], db') && TableWithin(s.live.tables[i], s'.counters)
    {
      assert TableTracks(s.live.tables[i], db) && TableWithin(s.live.tables[i], s'.counters);
    }
  }

  lemma ExecOne(db: Db, a: Stmt)
    ensures ExecAll(db, [a]) == Exec(db, a)
  {
    assert [a][1..] == [];
  }

  lemma ExecTwo(db: Db, a: Stmt, b: Stmt)
    requires Exec(db, a).Some?
    ensures ExecAll(db, [a, b]) == Exec(Exec(db, a).value, b)
  {
    assert [a, b][1..] == [b];
    ExecOne(Exec(db, a).value, b);
  }

  lemma ExecThree(db: Db, a: Stmt, b: Stmt, c: Stmt)
    requires Exec(db, a).Some? && Exec(Exec(db, a).value, b).Some?
    ensures ExecAll(db, [a, b, c]) == Exec(Exec(Exec(db, a).value, b).value, c)
  {
    assert [a, b, c][1..] == [b, c];
    ExecTwo(Exec(db, a).value, b, c);
  }

  lemma IndexPairTracks(s: State, db: Db, ti: nat)
    requires Tracks(s, db)
    requires DdlEnabled(s, IndexPair(ti))
    ensures
      var (s', sts) := DdlEffect(s, IndexPair(ti));
      ExecAll(db, sts).Some? && Tracks(s', ExecAll(db, sts).value)
  {
    var (s1, a) := NewIndex(s, ti);
    var (s2, b) := NewIndex(s1, ti);
    assert StaysInStep(s1, db, a) by { NewIndexTracks(s, db, ti); }
    var db1 := Exec(db, a).value;
    assert StaysInStep(s2, db1, b) by { NewIndexTracks(s1, db1, ti); }
    var db2 := Exec(db1, b).value;
    assert s2.live.tables[ti].cur == s.live.tables[ti].cur;
    assert StaysInStep(s2, db2, Analyze(s.live.tables[ti].cur)) by { NoEffectTracks(s2, db2, ti, 0); }
    ExecThree(db, a, b, Analyze(s.live.tables[ti].cur));
  }

  /** Dropping the last table: a fresh one follows at once. */
  lemma ReplaceLastTableTracks(s: State, db: Db, cols: nat)
    requires Tracks(s, db)
    requires |s.live.tables| == 1
    ensures
      var (s1, drop) := DropTableAt(s, 0);
      var (s2, create) := NewTable(s1, cols);
      Exec(db, drop).Some? && StaysInStep(s2, Exec(db, drop).value, create)
  {
    DropTableTracks(s, db, 0);
    NewTableTracks(DropTableAt(s, 0).0, Exec(db, DropTableAt(s, 0).1).value, cols);
  }

  lemma RemoveTableTracks(s: State, db: Db, ti: nat, cols: nat)
    requires Tracks(s, db)
    requires ti < |s.live.tables|
    ensures
      var (s', sts) := DdlEffect(s, RemoveTable(ti, cols));
      ExecAll(db, sts).Some? && Tracks(s', ExecAll(db, sts).value)
  {
    var (s1, drop) := DropTableAt(s, ti);
    if |s.live.tables| == 1 {
      var (s2, create) := NewTable(s1, cols);
      ReplaceLastTableTracks(s, db, cols);
      ExecTwo(db, drop, create);
    } else {
      DropTableTracks(s, db, ti);
      ExecOne(db, drop);
    }
  }

  /** Every DDL decision's statements succeed, and the model stays in step. */
  lemma DdlTracks(s: State, db: Db, c: DdlChoice)
    requires Tracks(s, db)
    requires DdlEnabled(s, c)
    ensures
      var (s', sts) := DdlEffect(s, c);
      ExecAll(db, sts).Some? && Tracks(s', ExecAll(db, sts).value)
  {
    var (s', sts) := DdlEffect(s, c);
    match c
    case AddTable(cols) => NewTableTracks(s, db, cols); ExecOne(db, sts[0]);
    case AddIndex(ti) => NewIndexTracks(s, db, ti); ExecOne(db, sts[0]);
    case AddAndDropIndex(ti) => AddAndDropTracks(s, db, ti); ExecTwo(db, sts[0], sts[1]);
    case RemoveIndex(ti, ii) => RemoveIndexTracks(s, db, ti, ii); ExecOne(db, sts[0]);
    case Refresh(ti) =>
      assert TableTracks(s.live.tables[ti], db);
      ExecOne(db, sts[0]);
    case ForeignChain => ForeignChainTracks(s, db);
    case Rename(ti) => RenameTracks(s, db, ti); ExecOne(db, sts[0]);
    case RemoveTable(ti, cols) => RemoveTableTracks(s, db, ti, cols);
    case IndexPair(ti) => IndexPairTracks(s, db, ti);
  }

  lemma CreatedOne(a: Stmt)
    ensures Created([a]) == CreatedBy(a)
  {
    assert [a][1..] == [];
  }

  lemma CreatedTwo(a: Stmt, b: Stmt)
    ensures Created([a, b]) == CreatedBy(a) + CreatedBy(b)
  {
    assert [a, b][1..] == [b];
    CreatedOne(b);
  }

  lemma CreatedThree(a: Stmt, b: Stmt, c: Stmt)
    ensures Created([a, b, c]) == CreatedBy(a) + CreatedBy(b) + CreatedBy(c)
  {
    assert [a, b, c][1..] == [b, c];
    CreatedTwo(b, c);
  }

  lemma ForeignCreated(s: State)
    requires DdlEnabled(s, ForeignChain)
    ensures Created(DdlEffect(s, ForeignChain).1) == [Foreign(s.counters.foreign + 1)]
  {
    var sts := DdlEffect(s, ForeignChain).1;
    var n := Foreign(s.counters.foreign + 1);
    CreatedTwo(CopyOut, CreateForeign(n));
    var rest := [CopyOut, CreateForeign(n)];
    var middle := (if s.live.srv then [] else [CreateServer]) + rest;
    if s.live.srv { assert middle == rest; } else { assert middle[1..] == rest; }
    assert Created(middle) == [n];
    if s.live.ext { assert sts == middle; } else { assert sts[1..] == middle; }
  }

  /** Names beyond some counters and within others. */
  ghost predicate Fresh(names: seq<Name>, c: Counters, c': Counters) {
    NoRepeats(names) && forall i :: 0 <= i < |names| ==> !Within(names[i], c) && Within(names[i], c')
  }

  lemma NoneFresh(c: Counters, c': Counters)
    ensures Fresh([], c, c')
  {
  }

  lemma OneFresh(n: Name, c: Counters, c': Counters)
    requires !Within(n, c) && Within(n, c')
    ensures Fresh([n], c, c')
  {
  }

  lemma TwoFresh(n: Name, m: Name, c: Counters, c': Counters)
    requires n != m && !Within(n, c) && Within(n, c') && !Within(m, c) && Within(m, c')
    ensures Fresh([n, m], c, c')
  {
  }

  /** Every name a decision creates lies beyond the counters before it and within the counters after it. */
  lemma DdlNamesFresh(s: State, c: DdlChoice)
    requires DdlEnabled(s, c)
    ensures
      var (s', sts) := DdlEffect(s, c);
      && AtMost(s.counters, s'.counters)
      && sts != []
      && NoRepeats(Created(sts))
      && forall i :: 0 <= i < |Created(sts)| ==> !Within(Created(sts)[i], s.counters) && Within(Created(sts)[i], s'.counters)
  {
    hide NoRepeats, Created;
    var (s', sts) := DdlEffect(s, c);
    var k := s.counters;
    match c
    case AddTable(cols) =>
      CreatedOne(sts[0]);
      OneFresh(Birth(k.table + 1), k, s'.counters);
    case AddIndex(ti) =>
      CreatedOne(sts[0]);
      OneFresh(Index(k.index + 1), k, s'.counters);
    case AddAndDropIndex(ti) =>
      CreatedTwo(sts[0], sts[1]);
      assert Created(sts) == [Index(k.index + 1)];
      OneFresh(Index(k.index + 1), k, s'.counters);
    case RemoveIndex(ti, ii) =>
      CreatedOne(sts[0]);
      NoneFresh(k, s'.counters);
    case Refresh(ti) =>
      CreatedOne(sts[0]);
      NoneFresh(k, s'.counters);
    case Rename(ti) =>
      CreatedOne(sts[0]);
      OneFresh(Renamed(s.live.tables[ti].birth, k.rename + 1), k, s'.counters);
    case RemoveTable(ti, cols) =>
      if |s.live.tables| == 1 {
        CreatedTwo(sts[0], sts[1]);
        assert Created(sts) == [Birth(k.table + 1)];
        OneFresh(Birth(k.table + 1), k, s'.counters);
      } else {
        CreatedOne(sts[0]);
        NoneFresh(k, s'.counters);
      }
    case IndexPair(ti) =>
      CreatedThree(sts[0], sts[1], sts[2]);
      assert Created(sts) == [Index(k.index + 1), Index(k.index + 2)];
      TwoFresh(Index(k.index + 1), Index(k.index + 2), k, s'.counters);
    case ForeignChain =>
      ForeignCreated(s);
      OneFresh(Foreign(k.foreign + 1), k, s'.counters);
  }

  // ---- DML decisions ---------------------------------------------------------------------------------

  datatype DmlChoice =
    | InsertOne(ti: nat)
    | UpdateKey(ti: nat, key: int)
    | DeleteKey(ti: nat, key: int)
    | Empty(ti: nat)
    | MergeKey(ti: nat, key: int)
    | InsertMany(ti: nat, n: nat)

  predicate DmlEnabled(s: State, c: DmlChoice) {
    c.ti < |s.live.tables| && (c.InsertMany? ==> c.n > 0)
  }

  /** The model and the statement, if any, of one DML decision. */
  function DmlEffect(s: State, c: DmlChoice): (State, Option<Stmt>)
    requires DmlEnabled(s, c)
  {
    var t := s.live.tables[c.ti];
    match c
    case InsertOne(ti) => (WithTable(s, ti, t.(nextKey := t.nextKey + 1)), Some(Insert(t.cur, t.nextKey, t.nextKey)))
    case UpdateKey(_, key) => (s, if t.cols == 0 then None else Some(Update(t.cur, key)))
    case DeleteKey(_, key) => (s, Some(Delete(t.cur, key)))
    case Empty(_) => (s, Some(Truncate(t.cur)))
    case MergeKey(_, key) => (s, Some(Merge(t.cur, key, t.cols == 0)))
    case InsertMany(ti, n) =>
      (WithTable(s, ti, t.(nextKey := t.nextKey + n)), Some(Insert(t.cur, t.nextKey, t.nextKey + n - 1)))
  }

  /** Changing one database table's keys, below the table's possibly raised insert counter, keeps the model in step. */
  lemma KeysTrack(s: State, db: Db, ti: nat, nextKey: int, keys: set<int>)
    requires Tracks(s, db)
    requires ti < |s.live.tables|
    requires forall k :: k in keys ==> k < nextKey
    ensures
      var t := s.live.tables[ti];
      && t.cur in db.tables
      && Tracks(WithTable(s, ti, t.(nextKey := nextKey)), db.(tables := db.tables[t.cur := db.tables[t.cur].(keys := keys)]))
  {
    TableExists(s, db, ti);
    var t := s.live.tables[ti];
    var d' := db.tables[t.cur].(keys := keys);
    assert Replaces(t, t.(nextKey := nextKey), d', s.counters, s.counters);
    ReplaceTracks(s, db, ti, t.(nextKey := nextKey), d', s.counters);
  }

  lemma SameTable(s: State, ti: nat)
    requires ti < |s.live.tables|
    ensures WithTable(s, ti, s.live.tables[ti].(nextKey := s.live.tables[ti].nextKey)) == s
  {
    assert s.live.tables[ti := s.live.tables[ti]] == s.live.tables;
  }

  /** Inserting keys from the counter upwards meets no live key. */
  lemma InsertTracks(s: State, db: Db, ti: nat, n: nat)
    requires Tracks(s, db)
    requires ti < |s.live.tables| && n > 0
    ensures
      var t := s.live.tables[ti];
      StaysInStep(WithTable(s, ti, t.(nextKey := t.nextKey + n)), db, Insert(t.cur, t.nextKey, t.nextKey + n - 1))
  {
    hide Tracks, Span;
    var t := s.live.tables[ti];
    TableExists(s, db, ti);
    KeysTrack(s, db, ti, t.nextKey + n, db.tables[t.cur].keys + Span(t.nextKey, t.nextKey + n - 1));
  }

  /** Removing keys keeps the model in step as it is. */
  lemma RemovalTracks(s: State, db: Db, ti: nat, keys: set<int>)
    requires Tracks(s, db)
    requires ti < |s.live.tables|
    ensures
      var t := s.live.tables[ti];
      && t.cur in db.tables
      && Tracks(s, db.(tables := db.tables[t.cur := db.tables[t.cur].(keys := db.tables[t.cur].keys - keys)]))
  {
    var t := s.live.tables[ti];
    TableExists(s, db, ti);
    KeysTrack(s, db, ti, t.nextKey, db.tables[t.cur].keys - keys);
    SameTable(s, ti);
  }

  lemma DeleteTracks(s: State, db: Db, ti: nat, key: int)
    requires Tracks(s, db)
    requires ti < |s.live.tables|
    ensures StaysInStep(s, db, Delete(s.live.tables[ti].cur, key))
    ensures StaysInStep(s, db, Merge(s.live.tables[ti].cur, key, true))
  {
    RemovalTracks(s, db, ti, {key});
  }

  lemma NoEffectTracks(s: State, db: Db, ti: nat, key: int)
    requires Tracks(s, db)
    requires ti < |s.live.tables|
    ensures StaysInStep(s, db, Update(s.live.tables[ti].cur, key))
    ensures StaysInStep(s, db, Merge(s.live.tables[ti].cur, key, false))
    ensures StaysInStep(s, db, Analyze(s.live.tables[ti].cur))
  {
    TableExists(s, db, ti);
  }

  lemma TruncateTracks(s: State, db: Db, ti: nat)
    requires Tracks(s, db)
    requires ti < |s.live.tables|
    ensures StaysInStep(s, db, Truncate(s.live.tables[ti].cur))
  {
    TableExists(s, db, ti);
    var keys := db.tables[s.live.tables[ti].cur].keys;
    RemovalTracks(s, db, ti, keys);
    assert keys - keys == {};
  }

  ghost predicate DmlInStep(s: State, db: Db, c: DmlChoice)
    requires DmlEnabled(s, c)
  {
    var (s', st) := DmlEffect(s, c);
    if st.None? then s' == s else StaysInStep(s', db, st.value)
  }

  lemma InsertManyInStep(s: State, db: Db, ti: nat, n: nat)
    requires Tracks(s, db)
    requires ti < |s.live.tables| && n > 0
    ensures DmlInStep(s, db, InsertMany(ti, n))
  {
    hide Tracks, Exec;
    InsertTracks(s, db, ti, n);
  }

  lemma InsertOneInStep(s: State, db: Db, ti: nat)
    requires Tracks(s, db)
    requires ti < |s.live.tables|
    ensures DmlInStep(s, db, InsertOne(ti))
  {
    hide Tracks, Exec;
    assert DmlEffect(s, InsertOne(ti)) == DmlEffect(s, InsertMany(ti, 1));
    InsertManyInStep(s, db, ti, 1);
  }

  lemma MergeInStep(s: State, db: Db, ti: nat, key: int)
    requires Tracks(s, db)
    requires ti < |s.live.tables|
    ensures DmlInStep(s, db, MergeKey(ti, key))
  {
    hide Tracks;
    if s.live.tables[ti].cols == 0 {
      DeleteTracks(s, db, ti, key);
    } else {
      NoEffectTracks(s, db, ti, key);
    }
  }

  /** Every DML decision's statement succeeds, in particular no INSERT meets a live key, and the model stays in step. */
  lemma DmlTracks(s: State, db: Db, c: DmlChoice)
    requires Tracks(s, db)
    requires DmlEnabled(s, c)
    ensures DmlInStep(s, db, c)
  {
    hide Tracks, Exec;
    match c
    case InsertOne(ti) => InsertOneInStep(s, db, ti);
    case InsertMany(ti, n) => InsertManyInStep(s, db, ti, n);
    case Empty(ti) => TruncateTracks(s, db, ti);
    case UpdateKey(ti, key) => NoEffectTracks(s, db, ti, key);
    case DeleteKey(ti, key) => DeleteTracks(s, db, ti, key);
    case MergeKey(ti, key) => MergeInStep(s, db, ti, key);
  }
}
