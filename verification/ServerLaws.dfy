/** What the reference server refuses and what it undoes: the yardstick generated plans are held to. */
module ServerLaws {
  import opened Common
  import opened Generator

  /** The tables a statement needs. */
  function Needs(st: S.Stmt): set<S.Name> {
    match st
    case CreateIndex(_, on) => {on}
    case Analyze(on) => {on}
    case RenameTable(on, _) => {on}
    case DropTable(on) => {on}
    case Insert(on, _, _) => {on}
    case Update(on, _) => {on}
    case Delete(on, _) => {on}
    case Truncate(on) => {on}
    case Merge(on, _, _) => {on}
    case Query(names) => names
    case _ => {}
  }

  /** No name is created twice, be it as a table, an index, a foreign table or the new name of a table. */
  lemma CreatedTwice(db: S.Db, a: S.Stmt, b: S.Stmt, n: S.Name)
    requires S.CreatedBy(a) == S.CreatedBy(b) == [n] && S.Exec(db, a).Some?
    ensures S.NameFree(db, n) && !S.NameFree(S.Exec(db, a).value, n) && S.Exec(S.Exec(db, a).value, b).None?
  {
    assert S.CreatedBy(a)[0] == S.CreatedBy(b)[0] == n;
    var db' := S.Exec(db, a).value;
    if a.CreateIndex? { assert n in db'.tables[a.on].indexes; }
    assert !S.NameFree(db', n);
  }

  /** A statement runs only if everything it needs is there. */
  lemma MissingIsRefused(db: S.Db, st: S.Stmt, n: S.Name)
    requires n in Needs(st) && n !in db.tables && n !in db.foreign
    ensures S.Exec(db, st).None?
  {
  }

  /** What was dropped or renamed is gone, with its indexes if it was dropped. */
  lemma GoneIsGone(db: S.Db, n: S.Name, to: S.Name)
    requires n in db.tables && n !in db.foreign
    ensures var d := S.Exec(db, S.DropTable(n));
            d.Some? && n !in d.value.tables && forall t :: t in d.value.tables <==> t in db.tables && t != n
    ensures var r := S.Exec(db, S.RenameTable(n, to));
            r.Some? ==> n !in r.value.tables && to in r.value.tables && r.value.tables[to] == db.tables[n]
  {
  }

  /** Keys of a table are inserted once; deleting a key, or all of them, makes room again. */
  lemma KeysOnce(db: S.Db, n: S.Name, lo: int, hi: int, k: int)
    requires n in db.tables && lo <= k <= hi
    ensures k in db.tables[n].keys ==> S.Exec(db, S.Insert(n, lo, hi)).None?
    ensures S.Exec(db, S.Insert(n, lo, hi)).Some? ==> k in S.Exec(db, S.Insert(n, lo, hi)).value.tables[n].keys
    ensures S.Exec(db, S.Truncate(n)).Some? && S.Exec(S.Exec(db, S.Truncate(n)).value, S.Insert(n, lo, hi)).Some?
    ensures S.Exec(db, S.Delete(n, k)).Some? && S.Exec(S.Exec(db, S.Delete(n, k)).value, S.Insert(n, k, k)).Some?
  {
    var gone := S.Exec(db, S.Delete(n, k)).value;
    assert S.Span(k, k) == {k} && k !in gone.tables[n].keys;
  }

  /** A foreign table needs its server, and that its extension. */
  lemma ForeignNeeds(db: S.Db, n: S.Name)
    ensures S.Exec(db, S.CreateServer).Some? <==> db.ext
    ensures S.Exec(db, S.CreateForeign(n)).Some? <==> db.srv && S.NameFree(db, n)
    ensures S.Exec(db, S.CreateExtension).Some? && S.Exec(db, S.CreateExtension).value.ext
    ensures db.ext ==> S.Exec(db, S.CreateServer).value.srv
  {
  }

  // ---- transactions ------------------------------------------------------------------------------------------------

  /** Items that leave the transaction they are in open. */
  predicate Inside(it: Item) { !(it.Begin? || it.Commit? || it.Rollback? || it.Disconnect? || it.Reconnect?) }

  predicate AllInside(items: seq<Item>) { forall i :: 0 <= i < |items| ==> Inside(items[i]) }

  lemma {:induction false} StartKept(clears: Env, s: Server, items: seq<Item>)
    requires s.tx.Some? && s.up && AllInside(items) && ServeAll(clears, s, items).Some?
    ensures var t := ServeAll(clears, s, items).value; t.up && t.tx.Some? && t.tx.value.start == s.tx.value.start
    decreases |items|
  {
    if items != [] {
      assert Inside(items[0]);
      StartKept(clears, Serve(clears, s, items[0]).value, items[1..]);
    }
  }

  /** Whatever a transaction did, rolling it back or losing the connection leaves the database as before BEGIN. */
  lemma RollbackUndoes(clears: Env, s: Server, items: seq<Item>)
    requires s.up && s.tx.None? && AllInside(items) && ServeAll(clears, s, [Begin] + items).Some?
    ensures var t := ServeAll(clears, s, [Begin] + items).value;
            && Serve(clears, t, Rollback) == Some(s)
            && Serve(clears, t, Commit) == Some(t.(tx := None))
            && Serve(clears, t, Disconnect) == Some(Server(s.db, {}, None, false))
  {
    var all := [Begin] + items;
    assert all[0] == Begin && all[1..] == items;
    StartKept(clears, Serve(clears, s, Begin).value, items);
  }

  /** One transaction at a time, none to end where none is open, no property block inside one. */
  lemma TxDiscipline(clears: Env, s: Server, n: nat, name: string, steps: seq<P.Step>)
    requires s.up
    ensures Serve(clears, s, Begin).Some? <==> s.tx.None?
    ensures Serve(clears, s, Commit).Some? <==> s.tx.Some?
    ensures Serve(clears, s, Rollback).Some? <==> s.tx.Some?
    ensures Serve(clears, s, Savepoint(n)).Some? <==> s.tx.Some?
    ensures Serve(clears, s, RollbackTo(n)).Some?
       <==> s.tx.Some? && exists i :: 0 <= i < |s.tx.value.saves| && s.tx.value.saves[i].0 == n
    ensures Serve(clears, s, Property(name, n, steps)).Some? <==> s.tx.None?
  {
  }

  /** Back to a savepoint: the database and settings of then, the savepoint still there. */
  lemma SavepointRestores(clears: Env, s: Server, n: nat, items: seq<Item>)
    requires s.up && s.tx.Some? && AllInside(items)
    requires forall i :: 0 <= i < |items| ==> !items[i].Savepoint? && !items[i].RollbackTo?
    requires ServeAll(clears, s, [Savepoint(n)] + items).Some?
    ensures var t := ServeAll(clears, s, [Savepoint(n)] + items).value;
            Serve(clears, t, RollbackTo(n)) == Serve(clears, s, Savepoint(n))
  {
    var all := [Savepoint(n)] + items;
    assert all[0] == Savepoint(n) && all[1..] == items;
    var saved := Serve(clears, s, Savepoint(n)).value;
    SavesKept(clears, saved, items);
    hide ServeAll;
    BackTo(clears, s, ServeAll(clears, saved, items).value, n);
  }

  lemma BackTo(clears: Env, s: Server, t: Server, n: nat)
    requires s.up && s.tx.Some? && t.up && t.tx == Serve(clears, s, Savepoint(n)).value.tx
    ensures Serve(clears, t, RollbackTo(n)) == Serve(clears, s, Savepoint(n))
  {
    var saves := t.tx.value.saves;
    assert saves == s.tx.value.saves + [(n, Saved(s.db, s.gucs))];
    assert Newest(saves, n) == |saves| - 1;
    assert saves[..|saves|] == saves;
  }

  lemma {:induction false} SavesKept(clears: Env, s: Server, items: seq<Item>)
    requires s.up && s.tx.Some? && AllInside(items) && ServeAll(clears, s, items).Some?
    requires forall i :: 0 <= i < |items| ==> !items[i].Savepoint? && !items[i].RollbackTo?
    ensures var t := ServeAll(clears, s, items).value; t.up && t.tx == s.tx
    decreases |items|
  {
    if items != [] {
      assert Inside(items[0]);
      SavesKept(clears, Serve(clears, s, items[0]).value, items[1..]);
    }
  }

  /** A server that is down answers nothing but the next connection. */
  lemma DownIsDown(clears: Env, s: Server, it: Item)
    ensures !s.up ==> (Serve(clears, s, it).Some? <==> it.Reconnect?)
    ensures s.up ==> Serve(clears, s, Reconnect).None?
  {
  }
}
