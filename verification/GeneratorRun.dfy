/** The generator object: one decision at a time, each consuming budget, until the cleanup tail. */
module GeneratorRun {
  import opened Common
  import opened Budget
  import opened Choice
  import opened Generator
  import L = Alignment
  import P = Plan
  import S = Schema

  /** What the generator knows of a property: its name, its expected footprint, its weight, and the steps and noise
      queries it comes up with on a draw. */
  datatype PropGen =
    PropGen(name: string, footprint: Footprint, weight: nat, make: nat -> seq<L.PStep>, noise: (nat, nat) -> P.Sql)

  /** How texts are classified when steps are lowered. */
  datatype Lowering = Lowering(isJson: string -> bool, kind: string -> nat)

  /** A recorded instance: the property and its steps as the oracle will follow them. */
  datatype Instance = Instance(name: string, steps: seq<L.PStep>)

  datatype Block = Block(name: string, seq': nat, steps: seq<P.Step>)

  // ---- names and properties of a plan ---------------------------------------------------------

  function CreatedIn(items: seq<Item>): seq<S.Name>
    decreases |items|
  {
    if items == [] then [] else (if items[0].Sql? then S.CreatedBy(items[0].st) else []) + CreatedIn(items[1..])
  }

  function PropsIn(items: seq<Item>): seq<Block>
    decreases |items|
  {
    if items == [] then []
    else (if items[0].Property? then [BlockOf(items[0])] else []) + PropsIn(items[1..])
  }

  function BlockOf(it: Item): Block
    requires it.Property?
  {
    Block(it.name, it.seq', it.steps)
  }

  /** A block is the recorded instance of its number, step for step. */
  ghost predicate IsInstance(b: Block, inst: Instance, i: nat) {
    b.name == inst.name && b.seq' == i + 1 && L.Aligned(b.steps, inst.steps)
  }

  /** The blocks are the recorded instances, in order. */
  ghost predicate Records(props: seq<Block>, log: seq<Instance>) {
    |props| == |log| && forall i :: 0 <= i < |props| ==> IsInstance(props[i], log[i], i)
  }

  /** An instance a property came up with on some draw, its noise slots filled. */
  ghost predicate MadeBy(p: PropGen, draw: nat, inst: Instance) {
    inst.name == p.name && L.Filled(p.make(draw), inst.steps)
  }

  ghost predicate FromRegistry(registry: seq<PropGen>, inst: Instance) {
    exists j, draw :: 0 <= j < |registry| && MadeBy(registry[j], draw, inst)
  }

  ghost predicate AllFrom(registry: seq<PropGen>, log: seq<Instance>) {
    forall i :: 0 <= i < |log| ==> FromRegistry(registry, log[i])
  }

  lemma {:induction false} CreatedConcat(a: seq<Item>, b: seq<Item>)
    ensures CreatedIn(a + b) == CreatedIn(a) + CreatedIn(b)
    decreases |a|
  {
    if a == [] {
      assert a + b == b;
    } else {
      assert (a + b)[1..] == a[1..] + b;
      CreatedConcat(a[1..], b);
    }
  }

  lemma {:induction false} PropsConcat(a: seq<Item>, b: seq<Item>)
    ensures PropsIn(a + b) == PropsIn(a) + PropsIn(b)
    decreases |a|
  {
    if a == [] {
      assert a + b == b;
    } else {
      assert (a + b)[0] == a[0] && (a + b)[1..] == a[1..] + b;
      PropsConcat(a[1..], b);
      var first := if a[0].Property? then [BlockOf(a[0])] else [];
      assert first + (PropsIn(a[1..]) + PropsIn(b)) == first + PropsIn(a[1..]) + PropsIn(b);
    }
  }

  lemma {:induction false} SqlItemsCreate(sts: seq<S.Stmt>)
    ensures CreatedIn(SqlItems(sts)) == S.Created(sts)
    ensures PropsIn(SqlItems(sts)) == []
    decreases |sts|
  {
    if sts != [] {
      assert SqlItems(sts)[1..] == SqlItems(sts[1..]);
      SqlItemsCreate(sts[1..]);
    }
  }

  /** One statement that creates nothing. */
  lemma PlainSql(st: S.Stmt)
    requires S.CreatedBy(st) == []
    ensures CreatedIn([Sql(st)]) == [] && PropsIn([Sql(st)]) == []
  {
    assert [Sql(st)][1..] == [];
    assert CreatedIn([Sql(st)]) == S.CreatedBy(st) + CreatedIn([]);
    assert PropsIn([Sql(st)]) == [] + PropsIn([]);
  }

  lemma {:induction false} QuietItems(items: seq<Item>)
    requires forall i :: 0 <= i < |items| ==> !items[i].Sql? && !items[i].Property?
    ensures CreatedIn(items) == [] && PropsIn(items) == []
    decreases |items|
  {
    if items != [] { QuietItems(items[1..]); }
  }

  // ---- what has been emitted so far -------------------------------------------------------------

  /** No name created twice, all of them within the counters, and the property blocks are the recorded instances, in order. */
  ghost predicate Recorded(all: seq<Item>, c: S.Counters, log: seq<Instance>) {
    && S.NoRepeats(CreatedIn(all))
    && (forall i :: 0 <= i < |CreatedIn(all)| ==> S.Within(CreatedIn(all)[i], c))
    && Records(PropsIn(all), log)
  }

  /** New items whose names lie beyond the old counters extend the record. */
  lemma RecordedExtend(all: seq<Item>, c: S.Counters, log: seq<Instance>, items: seq<Item>, c': S.Counters)
    requires Recorded(all, c, log)
    requires S.AtMost(c, c')
    requires S.NoRepeats(CreatedIn(items)) && PropsIn(items) == []
    requires forall i :: 0 <= i < |CreatedIn(items)| ==> !S.Within(CreatedIn(items)[i], c) && S.Within(CreatedIn(items)[i], c')
    ensures Recorded(all + items, c', log)
  {
    CreatedConcat(all, items);
    PropsConcat(all, items);
    var a, b := CreatedIn(all), CreatedIn(items);
    forall i | 0 <= i < |a + b|
      ensures S.Within((a + b)[i], c')
    {
      if i < |a| { assert S.Within(a[i], c); }
    }
    forall i, j | 0 <= i < j < |a + b|
      ensures (a + b)[i] != (a + b)[j]
    {
      if i < |a| && j >= |a| { assert S.Within(a[i], c) && !S.Within(b[j - |a|], c); }
    }
  }

  lemma RecordedProperty(all: seq<Item>, c: S.Counters, log: seq<Instance>, inst: Instance, steps: seq<P.Step>)
    requires Recorded(all, c, log) && L.Aligned(steps, inst.steps)
    ensures Recorded(all + [Property(inst.name, |log| + 1, steps)], c, log + [inst])
  {
    hide L.Aligned;
    var it := Property(inst.name, |log| + 1, steps);
    CreatedConcat(all, [it]);
    PropsConcat(all, [it]);
    PropsOfOne(it);
    assert CreatedIn(all) + [] == CreatedIn(all);
    RecordsSnoc(PropsIn(all), log, BlockOf(it), inst);
  }

  lemma RecordsSnoc(props: seq<Block>, log: seq<Instance>, b: Block, inst: Instance)
    requires Records(props, log) && IsInstance(b, inst, |log|)
    ensures Records(props + [b], log + [inst])
  {
    hide IsInstance;
  }

  lemma PropsOfOne(it: Item)
    ensures PropsIn([it]) == if it.Property? then [BlockOf(it)] else []
    ensures !it.Sql? ==> CreatedIn([it]) == []
  {
    assert [it][1..] == [];
  }

  lemma DmlCreates(s: S.State, c: S.DmlChoice)
    requires S.DmlEnabled(s, c)
    ensures S.DmlEffect(s, c).1.Some? ==> S.CreatedBy(S.DmlEffect(s, c).1.value) == []
  {
  }

  lemma CleanupCounters(m: Model)
    requires m.session.inTx ==> TxEnabled(m.session, TxRollback)
    ensures CleanupEffect(m).0.schema.counters == m.schema.counters
    ensures forall i :: 0 <= i < |CleanupEffect(m).1| ==> !CleanupEffect(m).1[i].Sql? && !CleanupEffect(m).1[i].Property?
  {
  }

  /** A property is offered only while its expected footprint fits every budget. */
  predicate Fits(budget: seq<nat>, fp: Footprint)
    requires |budget| == N_KINDS
  {
    && budget[PROPERTY] >= 1 && budget[DDL] >= fp.ddl && budget[DML] >= fp.dml && budget[QUERY] >= fp.query
    && budget[TX] >= fp.tx && budget[ARM] >= fp.arm && budget[FAULT] >= fp.fault
  }

  /** A footprint fits if and only if consuming it takes all of it off the budgets, none running out. */
  lemma FitsIff(budget: seq<nat>, fp: Footprint)
    requires |budget| == N_KINDS
    ensures Fits(budget, fp)
       <==> Sum(budget) == Sum(ConsumeFootprint(budget, fp)) + 1 + fp.ddl + fp.dml + fp.query + fp.tx + fp.arm + fp.fault
  {
    hide Sum;
    SumSeven(budget);
    SumSeven(ConsumeFootprint(budget, fp));
  }

  lemma NothingYet(clears: Env, server0: Server, c: S.Counters, registry: seq<PropGen>)
    ensures ServeAll(clears, server0, []) == Some(server0) && Recorded([], c, []) && AllFrom(registry, [])
  {
  }

  /** A property block outside a transaction is served after what went before, and keeps the model in step. */
  lemma BlockServed(clears: Env, server0: Server, all: seq<Item>, m: Model, s: Server, it: Item)
    requires ServeAll(clears, server0, all) == Some(s) && InStep(m, s) && !m.session.inTx && it.Property?
    ensures ServeAll(clears, s, [it]).Some? && ServeAll(clears, server0, all + [it]) == ServeAll(clears, s, [it])
    ensures InStep(m, ServeAll(clears, s, [it]).value)
  {
    hide ServeAll, InStep;
    PropertyKeepsStep(clears, m, s, it.name, it.seq', it.steps);
    ServeConcat(clears, server0, all, [it]);
  }

  // ---- the object -----------------------------------------------------------------------------------

  class GeneratorObject {
    var schema: S.State
    var session: Session
    var budget: seq<nat>
    var pending: seq<Item>
    var emittedFirst: bool
    var finished: bool
    /** The oracle's log of property instances, one entry per successful instantiation. */
    var log: seq<Instance>
    var nextSeq: nat
    const lowering: Lowering
    const armSets: seq<seq<string>>
    const registry: seq<PropGen>

    ghost const clears: Env
    ghost const server0: Server
    /** Everything handed out, then everything pending; and the server after all of it. */
    ghost var all: seq<Item>
    ghost var server: Server

    ghost predicate Valid()
      reads this
    {
      && |budget| == N_KINDS && nextSeq == |log| + 1 && AllFrom(registry, log)
      && ServeAll(clears, server0, all) == Some(server)
      && InStep(Model(schema, session), server)
      && Recorded(all, schema.counters, log)
      && |pending| <= |all| && pending == all[|all| - |pending|..]
      && (finished ==> !session.inTx && !session.gucsSet)
    }

    constructor (lowering: Lowering, allocation: seq<nat>, armSets: seq<seq<string>>, registry: seq<PropGen>, ghost clears: Env, ghost server0: Server)
      requires |allocation| == N_KINDS
      requires InStep(Model(S.EMPTY, FRESH_SESSION), server0)
      ensures Valid() && all == [] && pending == [] && !finished
      ensures this.clears == clears && this.server0 == server0 && this.registry == registry
    {
      hide ServeAll, InStep, Recorded, AllFrom;
      schema, session, budget := S.EMPTY, FRESH_SESSION, allocation;
      pending, emittedFirst, finished, log, nextSeq := [], false, false, [], 1;
      this.lowering := lowering;
      this.armSets, this.registry := armSets, registry;
      this.clears, this.server0 := clears, server0;
      all, server := [], server0;
      NothingYet(clears, server0, S.EMPTY.counters, registry);
    }

    /** Adopt a decision: the new model, and its items queued. */
    method Adopt(m': Model, items: seq<Item>)
      requires Valid() && !finished
      requires KeepsStep(clears, m', server, items)
      requires Recorded(all + items, m'.schema.counters, log)
      modifies this`schema, this`session, this`pending, this`all, this`server
      ensures Valid()
      ensures schema == m'.schema && session == m'.session
      ensures all == old(all) + items && pending == old(pending) + items
    {
      hide ServeAll, InStep, Recorded;
      ServeConcat(clears, server0, all, items);
      server := ServeAll(clears, server, items).value;
      schema, session := m'.schema, m'.session;
      all := all + items;
      pending := pending + items;
    }

    method AdoptQuiet(m': Model, items: seq<Item>)
      requires Valid() && !finished
      requires KeepsStep(clears, m', server, items)
      requires m'.schema.counters == schema.counters
      requires CreatedIn(items) == [] && PropsIn(items) == []
      modifies this`schema, this`session, this`pending, this`all, this`server
      ensures Valid()
      ensures schema == m'.schema && session == m'.session
      ensures all == old(all) + items && pending == old(pending) + items
    {
      RecordedExtend(all, schema.counters, log, items, m'.schema.counters);
      Adopt(m', items);
    }

    method AdoptDdl(c: S.DdlChoice)
      requires Valid() && !finished
      requires S.DdlEnabled(schema, c)
      modifies this`schema, this`session, this`pending, this`all, this`server
      ensures Valid()
      ensures exists sts: seq<S.Stmt> :: sts != [] && all == old(all) + SqlItems(sts) && pending == old(pending) + SqlItems(sts)
    {
      var (schema', sts) := S.DdlEffect(schema, c);
      DdlKeepsStep(clears, Model(schema, session), server, c);
      S.DdlNamesFresh(schema, c);
      SqlItemsCreate(sts);
      RecordedExtend(all, schema.counters, log, SqlItems(sts), schema'.counters);
      assert Model(schema, session).(schema := schema') == Model(schema', session);
      Adopt(Model(schema', session), SqlItems(sts));
    }

    /** Hand out the front of the queue. */
    method Pop() returns (it: Item)
      requires Valid() && pending != []
      modifies this`pending
      ensures Valid()
      ensures it == old(pending)[0] && pending == old(pending)[1..]
    {
      it := pending[0];
      pending := pending[1..];
    }

    // ---- draws -----------------------------------------------------------------------------------

    method PickTable() returns (ti: nat)
      requires schema.live.tables != []
      ensures ti < |schema.live.tables|
    {
      ti := RangeIncl(0, |schema.live.tables| - 1);
    }

    /** A DDL variant of positive weight, with its operands drawn. */
    method DrawDdl() returns (c: S.DdlChoice)
      ensures S.DdlEnabled(schema, c)
    {
      var ts := schema.live.tables;
      var has := ts != [];
      var wide := exists i :: 0 <= i < |ts| && ts[i].cols >= 2;
      var weights: seq<nat> := [
        4,
        if has then 3 + 2 + 1 + 1 + 1 else 0, // the five single-index variants have one effect on the model
        if has then 2 else 0,
        if has then 3 else 0,
        if |schema.live.foreign| < S.MAX_FOREIGN_TABLES then 2 else 0,
        if has then 2 else 0,
        if has then 2 else 0,
        if wide then 3 else 0];
      assert weights[0] > 0;
      SumAtLeast(weights, 0);
      var choice := WeightedIndex(weights);
      var cols := AnyNat();
      match choice.value
      case 0 => c := S.AddTable(cols);
      case 1 =>
        var ti := PickTable();
        c := S.AddIndex(ti);
      case 2 =>
        c := DrawDropIndex();
      case 3 =>
        var ti := PickTable();
        c := S.Refresh(ti);
      case 4 => c := S.ForeignChain;
      case 5 =>
        var ti := PickTable();
        c := S.Rename(ti);
      case 6 =>
        var ti := PickTable();
        c := S.RemoveTable(ti, cols);
      case _ =>
        var ti :| 0 <= ti < |ts| && ts[ti].cols >= 2;
        c := S.IndexPair(ti);
    }

    /** Drop an existing index, or create one and drop it at once when there is none. */
    method DrawDropIndex() returns (c: S.DdlChoice)
      requires schema.live.tables != []
      ensures S.DdlEnabled(schema, c)
    {
      var ts := schema.live.tables;
      if exists i :: 0 <= i < |ts| && ts[i].indexes != [] {
        var ti :| 0 <= ti < |ts| && ts[ti].indexes != [];
        var ii := RangeIncl(0, |ts[ti].indexes| - 1);
        c := S.RemoveIndex(ti, ii);
      } else {
        var ti := PickTable();
        c := S.AddAndDropIndex(ti);
      }
    }

    method DrawDml() returns (c: S.DmlChoice)
      requires schema.live.tables != []
      ensures S.DmlEnabled(schema, c)
    {
      var ti := PickTable();
      var weights := [5, 3, 2, 1, 2, 2];
      SumAtLeast(weights, 0);
      var choice := WeightedIndex(weights);
      var key: int := *;
      match choice.value
      case 0 => c := S.InsertOne(ti);
      case 1 => c := S.UpdateKey(ti, key);
      case 2 => c := S.DeleteKey(ti, key);
      case 3 => c := S.Empty(ti);
      case 4 => c := S.MergeKey(ti, key);
      case _ =>
        var n := AnyNat();
        c := S.InsertMany(ti, n + 1);
    }

    method DrawTx() returns (c: TxChoice)
      requires Valid() && session.inTx
      ensures TxEnabled(session, c)
    {
      var choice := WeightedIndex([3, 1, 2, if session.savepoints != [] then 2 else 0]);
      SumAtLeast([3, 1, 2, if session.savepoints != [] then 2 else 0], 0);
      match choice.value
      case 0 => c := TxCommit;
      case 1 => c := TxRollback;
      case 2 => c := TxSavepoint;
      case _ =>
        var i := RangeIncl(0, |session.savepoints| - 1);
        c := TxRollbackTo(i);
    }

    // ---- decisions ---------------------------------------------------------------------------------

    method DecideDdl()
      requires Valid() && !finished && pending == [] && budget[DDL] > 0
      modifies this
      ensures Valid() && pending != [] && finished == old(finished) && emittedFirst == old(emittedFirst)
      ensures all == old(all) + pending
      ensures Sum(budget) < Sum(old(budget))
    {
      var c := DrawDdl();
      AdoptDdl(c);
      ConsumeLowers(budget, DDL, |pending|);
      budget := Consume(budget, DDL, |pending|);
    }

    method DecideDml()
      requires Valid() && !finished && pending == [] && budget[DML] > 0 && schema.live.tables != []
      modifies this
      ensures Valid() && finished == old(finished) && emittedFirst == old(emittedFirst)
      ensures all == old(all) + pending
      ensures Sum(budget) < Sum(old(budget))
    {
      var c := DrawDml();
      AdoptDml(c);
      ConsumeLowers(budget, DML, 1);
      budget := Consume(budget, DML, 1);
    }

    method AdoptDml(c: S.DmlChoice)
      requires Valid() && !finished && pending == []
      requires S.DmlEnabled(schema, c)
      modifies this`schema, this`session, this`pending, this`all, this`server
      ensures Valid()
      ensures all == old(all) + pending
    {
      hide KeepsStep, ServeAll, InStep, Recorded, CreatedIn, PropsIn, S.DmlEffect;
      var (schema', st) := S.DmlEffect(schema, c);
      if st.Some? {
        var items := [Sql(st.value)];
        var m' := Model(schema', session);
        assert KeepsStep(clears, m', server, items) by {
          DmlKeepsStep(clears, Model(schema, session), server, c);
          assert Model(schema, session).(schema := schema') == m';
        }
        DmlCreates(schema, c);
        PlainSql(st.value);
        DmlCounters(schema, c);
        AdoptQuiet(m', items);
      } else {
        assert all + [] == all;
      }
    }

    method DecideQuery()
      requires Valid() && !finished && pending == [] && budget[QUERY] > 0
      modifies this
      ensures Valid() && finished == old(finished) && emittedFirst == old(emittedFirst)
      ensures all == old(all) + pending
      ensures Sum(budget) < Sum(old(budget))
    {
      var some: bool := *;
      if some {
        var names := PickRelations();
        AdoptQuery(names);
      }
      ConsumeLowers(budget, QUERY, 1);
      budget := Consume(budget, QUERY, 1);
    }

    /** The relations a query may name: any of the live ones. */
    method PickRelations() returns (names: set<S.Name>)
      ensures forall n :: n in names ==> S.IsNamed(schema.live.tables, n) || n in schema.live.foreign
    {
      names := *;
      if exists n :: n in names && n !in schema.live.foreign && !(exists i :: 0 <= i < |schema.live.tables| && schema.live.tables[i].cur == n) {
        names := {};
      }
    }

    method AdoptQuery(names: set<S.Name>)
      requires Valid() && !finished && pending == []
      requires forall n :: n in names ==> S.IsNamed(schema.live.tables, n) || n in schema.live.foreign
      modifies this`schema, this`session, this`pending, this`all, this`server
      ensures Valid()
      ensures all == old(all) + pending
    {
      var items := [Sql(S.Query(names))];
      assert KeepsStep(clears, Model(schema, session), server, items) by {
        QueryKeepsStep(clears, Model(schema, session), server, names);
      }
      PlainSql(S.Query(names));
      AdoptQuiet(Model(schema, session), items);
    }

    method DecideTx()
      requires Valid() && !finished && pending == [] && budget[TX] > 0
      modifies this
      ensures Valid() && pending != [] && finished == old(finished) && emittedFirst == old(emittedFirst)
      ensures all == old(all) + pending
      ensures Sum(budget) < Sum(old(budget))
    {
      hide KeepsStep, ServeAll, InStep, Recorded, CreatedIn, PropsIn, Sum, Consume;
      ConsumeLowers(budget, TX, 1);
      budget := Consume(budget, TX, 1);
      var m := Model(schema, session);
      if !session.inTx {
        BeginKeepsStep(clears, m, server);
        QuietItems([Begin]);
        AdoptQuiet(BeginEffect(m), [Begin]);
      } else {
        var c := DrawTx();
        TxKeepsStep(clears, m, server, c);
        var (m', it) := TxEffect(m, c);
        QuietItems([it]);
        AdoptQuiet(m', [it]);
      }
    }

    method DecideArm()
      requires Valid() && !finished && pending == [] && budget[ARM] > 0 && armSets != []
      modifies this
      ensures Valid() && pending != [] && finished == old(finished) && emittedFirst == old(emittedFirst)
      ensures all == old(all) + pending
      ensures Sum(budget) < Sum(old(budget))
    {
      hide KeepsStep, ServeAll, InStep, Recorded, CreatedIn, PropsIn, Sum, Consume;
      ConsumeLowers(budget, ARM, 1);
      budget := Consume(budget, ARM, 1);
      var m := Model(schema, session);
      var i := RangeIncl(0, |armSets| - 1);
      var reset: bool := *;
      if (session.gucsSet && reset) || armSets[i] == [] {
        ResetKeepsStep(clears, m, server);
        QuietItems([ResetAll]);
        AdoptQuiet(m.(session := session.(gucsSet := false)), [ResetAll]);
      } else {
        ArmKeepsStep(clears, m, server, armSets[i]);
        QuietItems(ArmItems(armSets[i]));
        AdoptQuiet(m.(session := session.(gucsSet := true)), ArmItems(armSets[i]));
      }
    }

    method DecideFault()
      requires Valid() && !finished && pending == [] && budget[FAULT] > 0
      modifies this
      ensures Valid() && pending != [] && finished == old(finished) && emittedFirst == old(emittedFirst)
      ensures all == old(all) + pending
      ensures Sum(budget) < Sum(old(budget))
    {
      hide KeepsStep, ServeAll, InStep, Recorded, CreatedIn, PropsIn, Sum, Consume;
      ConsumeLowers(budget, FAULT, 2);
      budget := Consume(budget, FAULT, 2);
      var m := Model(schema, session);
      FaultKeepsStep(clears, m, server);
      QuietItems([Disconnect, Reconnect]);
      AdoptQuiet(FaultEffect(m), [Disconnect, Reconnect]);
    }

    /** A property wants autocommit: commit what is open, then instantiate; instantiation may fail. */
    method DecideProperty(p: PropGen)
      requires Valid() && !finished && pending == [] && budget[PROPERTY] > 0 && p in registry
      modifies this
      ensures Valid() && finished == old(finished) && emittedFirst == old(emittedFirst)
      ensures all == old(all) + pending
      ensures Sum(budget) < Sum(old(budget))
    {
      hide KeepsStep, ServeAll, InStep, Recorded, CreatedIn, PropsIn, Sum, ConsumeFootprint;
      var m := Model(schema, session);
      if session.inTx {
        CommitKeepsStep(clears, m, server);
        QuietItems([Commit]);
        AdoptQuiet(m.(session := CloseTx(session)), [Commit]);
      }
      ConsumeFootprintLowers(budget, p.footprint);
      budget := ConsumeFootprint(budget, p.footprint);
      var made := InstantiateProperty(p);
    }

    /** Lower what the property comes up with; if that works, number the block and record the instance. */
    method InstantiateProperty(p: PropGen) returns (made: Option<(Instance, seq<P.Step>)>)
      requires Valid() && !finished && !session.inTx && p in registry
      modifies this`pending, this`all, this`server, this`log, this`nextSeq
      ensures Valid()
      ensures made.None? ==> log == old(log) && all == old(all) && pending == old(pending)
      ensures made.Some? ==>
                var (inst, steps) := made.value;
                var it := Property(p.name, old(nextSeq), steps);
                && inst.name == p.name && L.Aligned(steps, inst.steps) && FromRegistry(registry, inst)
                && log == old(log) + [inst] && all == old(all) + [it] && pending == old(pending) + [it]
    {
      hide ServeAll, InStep, Recorded, L.Aligned, L.Filled, KeepsStep;
      var draw := AnyNat();
      var low := L.Lower(lowering.isJson, lowering.kind, p.make(draw), (i: nat) => p.noise(draw, i));
      if low.None? {
        return None;
      }
      var inst, items := Instance(p.name, low.value.1), [Property(p.name, nextSeq, low.value.0)];
      BlockServed(clears, server0, all, Model(schema, session), server, items[0]);
      RecordedProperty(all, schema.counters, log, inst, low.value.0);
      server := ServeAll(clears, server, items).value;
      assert FromRegistry(registry, inst) by { ghost var j :| 0 <= j < |registry| && registry[j] == p; assert MadeBy(registry[j], draw, inst); }
      log, nextSeq := log + [inst], nextSeq + 1;
      all := all + items;
      pending := pending + items;
      made := Some((inst, low.value.0));
    }

    method Cleanup()
      requires Valid() && !finished && pending == []
      modifies this
      ensures Valid() && finished && emittedFirst == old(emittedFirst)
      ensures all == old(all) + pending && budget == old(budget)
    {
      hide KeepsStep, ServeAll, InStep, Recorded, CreatedIn, PropsIn, CleanupEffect;
      var m := Model(schema, session);
      CleanupKeepsStep(clears, m, server);
      var (m', items) := CleanupEffect(m);
      CleanupCounters(m);
      QuietItems(items);
      AdoptQuiet(m', items);
      finished := true;
    }

    /** Weights of the seven kinds right now: what is left of each, zero where it cannot be generated. */
    method KindWeights(eligible: bool) returns (w: seq<nat>)
      requires |budget| == N_KINDS
      ensures |w| == N_KINDS
      ensures forall k :: 0 <= k < N_KINDS && w[k] > 0 ==> w[k] == budget[k]
      ensures w[DDL] == budget[DDL] && w[TX] == budget[TX]
      ensures w[DML] > 0 <==> budget[DML] > 0 && schema.live.tables != []
      ensures w[QUERY] > 0 <==> budget[QUERY] > 0 && schema.live.tables != []
      ensures w[ARM] > 0 <==> budget[ARM] > 0 && armSets != []
      ensures w[FAULT] > 0 <==> budget[FAULT] >= 2
      ensures w[PROPERTY] > 0 <==> budget[PROPERTY] > 0 && eligible
    {
      var has := schema.live.tables != [];
      w := [
        budget[DDL],
        if has then budget[DML] else 0,
        if has then budget[QUERY] else 0,
        budget[TX],
        if armSets == [] then 0 else budget[ARM],
        if budget[FAULT] >= 2 then budget[FAULT] else 0,
        if eligible then budget[PROPERTY] else 0];
    }

    /** The forced first statement. */
    method FirstTable()
      requires Valid() && pending == [] && !finished && !emittedFirst
      modifies this
      ensures Valid() && pending != [] && emittedFirst && finished == old(finished)
      ensures all == old(all) + pending
    {
      emittedFirst := true;
      var cols := AnyNat();
      AdoptDdl(S.AddTable(cols));
      budget := Consume(budget, DDL, 1);
    }

    /** The next plan item, or none once the tail is out. */
    method NextItem() returns (r: Option<Item>)
      requires Valid()
      modifies this
      ensures Valid()
      ensures r.None? ==> finished && old(pending) == [] && pending == [] && all == old(all)
      ensures r.Some? ==> old(all[..|all| - |pending|]) + [r.value] == all[..|all| - |pending|]
      ensures r.Some? ==>
                || (!old(finished) && finished)
                || (finished == old(finished) && !old(emittedFirst) && emittedFirst)
                || (finished == old(finished) && emittedFirst == old(emittedFirst)
                    && (Sum(budget) < Sum(old(budget)) || (budget == old(budget) && |pending| < |old(pending)|)))
    {
      hide ServeAll, InStep, Recorded, Sum;
      if pending == [] && !finished {
        if !emittedFirst {
          FirstTable();
        } else {
          Decide();
        }
      }
      if pending == [] {
        return None;
      }
      assert all[..|all| - |pending|] == old(all[..|all| - |pending|]);
      ghost var n := |all| - |pending|;
      assert all[..n + 1] == all[..n] + [all[n]];
      var it := Pop();
      r := Some(it);
    }

    /** Draw kinds until something is queued or nothing can be drawn any more. */
    method Decide()
      requires Valid() && pending == [] && !finished && emittedFirst
      modifies this
      ensures Valid() && emittedFirst
      ensures all == old(all) + pending
      ensures finished || pending != []
      ensures !finished ==> Sum(budget) < Sum(old(budget))
    {
      hide ServeAll, InStep, Recorded;
      while true
        invariant Valid() && pending == [] && !finished && emittedFirst
        invariant all == old(all)
        invariant Sum(budget) <= Sum(old(budget))
        decreases Sum(budget)
      {
        var p := PickEligible();
        var w := KindWeights(p.Some?);
        var k := WeightedIndex(w);
        if k.None? {
          Cleanup();
          return;
        }
        if k.value == DDL {
          DecideDdl();
        } else if k.value == DML {
          DecideDml();
        } else if k.value == QUERY {
          DecideQuery();
        } else if k.value == TX {
          DecideTx();
        } else if k.value == ARM {
          DecideArm();
        } else if k.value == FAULT {
          DecideFault();
        } else {
          DecideProperty(p.value);
        }
        if pending != [] {
          return;
        }
      }
    }

    /** A property whose weight is positive and whose footprint fits what is left, if the draw finds one. */
    method PickEligible() returns (p: Option<PropGen>)
      requires |budget| == N_KINDS
      ensures p.Some? ==> p.value in registry && p.value.weight > 0 && Fits(budget, p.value.footprint)
    {
      if |registry| == 0 {
        return None;
      }
      var i := RangeIncl(0, |registry| - 1);
      var capable: bool := *;
      if registry[i].weight > 0 && capable && Fits(budget, registry[i].footprint) {
        p := Some(registry[i]);
      } else {
        p := None;
      }
    }
  }

  /** Generate a whole plan. For every draw, every allocation and every way property blocks treat the session's GUCs:
      the plan runs on a fresh server without a rejected statement (no nested BEGIN, no dead savepoint, no missing
      relation, no duplicate key), ends connected with no transaction open and no GUC set, never creates a name
      twice, and its property blocks are the recorded instances, numbered in order. */
  method GeneratePlan(lowering: Lowering, allocation: seq<nat>, armSets: seq<seq<string>>, registry: seq<PropGen>, ghost clears: Env, ghost server0: Server)
    returns (plan: seq<Item>, log: seq<Instance>)
    requires |allocation| == N_KINDS
    requires InStep(Model(S.EMPTY, FRESH_SESSION), server0)
    ensures ServeAll(clears, server0, plan).Some?
    ensures
      var end := ServeAll(clears, server0, plan).value;
      end.up && end.tx.None? && end.gucs == {}
    ensures S.NoRepeats(CreatedIn(plan))
    ensures Records(PropsIn(plan), log) && AllFrom(registry, log)
  {
    var g := new GeneratorObject(lowering, allocation, armSets, registry, clears, server0);
    plan := [];
    while true
      invariant g.Valid() && fresh(g)
      invariant g.clears == clears && g.server0 == server0 && g.registry == registry
      invariant plan == g.all[..|g.all| - |g.pending|]
      decreases if g.finished then 0 else 1, if g.emittedFirst then 0 else 1, Sum(g.budget), |g.pending|
    {
      var it := g.NextItem();
      if it.None? {
        break;
      }
      plan := plan + [it.value];
    }
    assert plan == g.all;
    log := g.log;
  }

  /** Reading on in a plan whose blocks are the recorded instances: the next one is the next instance. */
  lemma NextInstance(front: seq<Item>, it: Item, rest: seq<Item>, log: seq<Instance>)
    requires Records(PropsIn(front + [it] + rest), log)
    ensures var n := |PropsIn(front)|;
            && n <= |log|
            && (it.Property? ==> n < |log| && IsInstance(BlockOf(it), log[n], n) && |PropsIn(front + [it])| == n + 1)
            && (!it.Property? ==> |PropsIn(front + [it])| == n)
  {
    hide PropsIn, IsInstance;
    PropsConcat(front + [it], rest);
    PropsConcat(front, [it]);
    PropsOfOne(it);
    if it.Property? {
      var props := PropsIn(front) + [BlockOf(it)] + PropsIn(rest);
      assert props[|PropsIn(front)|] == BlockOf(it);
    }
  }

  /** Every block has its own instance under its number. */
  ghost predicate Covered(plan: seq<Item>, bySeq: map<nat, Instance>) {
    forall i :: 0 <= i < |plan| && plan[i].Property? ==> CoveredAt(plan[i], bySeq)
  }

  ghost predicate CoveredAt(it: Item, bySeq: map<nat, Instance>)
    requires it.Property?
  {
    it.seq' in bySeq && bySeq[it.seq'].name == it.name && L.Aligned(it.steps, bySeq[it.seq'].steps)
  }

  /** Pair the property items with the recorded instances in order: each block gets the instance of its own name and
      number, with steps that correspond to its own; none is missing and none is left. */
  method PairInstances(plan: seq<Item>, log: seq<Instance>) returns (bySeq: map<nat, Instance>)
    requires Records(PropsIn(plan), log)
    ensures forall k :: k in bySeq <==> 1 <= k <= |log|
    ensures forall k :: 0 <= k < |log| ==> bySeq[k + 1] == log[k]
    ensures Covered(plan, bySeq)
  {
    hide PropsIn, Records, L.Aligned;
    bySeq := map[];
    var n := 0;
    NoProps(plan, log);
    for i := 0 to |plan|
      invariant n == |PropsIn(plan[..i])| <= |log|
      invariant forall k :: k in bySeq <==> 1 <= k <= n
      invariant forall k :: 0 <= k < n ==> bySeq[k + 1] == log[k]
      invariant forall j :: 0 <= j < i && plan[j].Property? ==> CoveredAt(plan[j], bySeq)
    {
      assert plan == plan[..i] + [plan[i]] + plan[i + 1..] && plan[..i + 1] == plan[..i] + [plan[i]];
      NextInstance(plan[..i], plan[i], plan[i + 1..], log);
      if plan[i].Property? {
        bySeq := bySeq[plan[i].seq' := log[n]];
        n := n + 1;
      }
    }
    assert plan[..|plan|] == plan;
  }

  lemma NoProps(plan: seq<Item>, log: seq<Instance>)
    requires Records(PropsIn(plan), log)
    ensures |PropsIn(plan[..0])| == 0 && |PropsIn(plan)| == |log|
  {
  }

  /** The plan with its oracle context. */
  method GenerateWithContext(lowering: Lowering, allocation: seq<nat>, armSets: seq<seq<string>>, registry: seq<PropGen>,
                             ghost clears: Env, ghost server0: Server)
    returns (plan: seq<Item>, bySeq: map<nat, Instance>)
    requires |allocation| == N_KINDS
    requires InStep(Model(S.EMPTY, FRESH_SESSION), server0)
    ensures ServeAll(clears, server0, plan).Some?
    ensures Covered(plan, bySeq) && |bySeq| == |PropsIn(plan)|
    ensures forall k :: k in bySeq ==> FromRegistry(registry, bySeq[k])
  {
    hide Covered, ServeAll, InStep, FromRegistry;
    var log;
    plan, log := GeneratePlan(lowering, allocation, armSets, registry, clears, server0);
    bySeq := PairInstances(plan, log);
    NoProps(plan, log);
    CountKeys(bySeq, |log|);
    forall k | k in bySeq
      ensures FromRegistry(registry, bySeq[k])
    {
      assert bySeq[(k - 1) + 1] == log[k - 1];
    }
  }

  lemma {:induction false} CountKeys(m: map<nat, Instance>, n: nat)
    requires forall k :: k in m <==> 1 <= k <= n
    ensures |m| == n
    decreases n
  {
    if n == 0 {
      assert m == map[];
    } else {
      var m' := m - {n};
      CountKeys(m', n - 1);
      assert m.Keys == m'.Keys + {n};
    }
  }
}
