/** Parsing what was printed gives the plan back. */
module PlanRoundTrip {
  import opened Common
  import opened Strings
  import opened Decimal
  import opened Plan
  import opened PlanText

  /** A run of lines found at a position. */
  predicate At(lines: seq<string>, pos: nat, chunk: seq<string>) {
    pos + |chunk| <= |lines| && lines[pos..pos + |chunk|] == chunk
  }

  lemma AtIndex(lines: seq<string>, pos: nat, chunk: seq<string>, i: nat)
    requires At(lines, pos, chunk) && i < |chunk|
    ensures lines[pos + i] == chunk[i]
  {
    assert lines[pos..pos + |chunk|][i] == chunk[i];
  }

  lemma AtSplit(lines: seq<string>, pos: nat, a: seq<string>, b: seq<string>)
    requires At(lines, pos, a + b)
    ensures At(lines, pos, a) && At(lines, pos + |a|, b)
  {
    var ab := lines[pos..pos + |a + b|];
    assert ab[..|a|] == a && ab[|a|..] == b;
    assert lines[pos..pos + |a|] == ab[..|a|] && lines[pos + |a|..pos + |a| + |b|] == ab[|a|..];
  }

  // ---- marks -------------------------------------------------------------------------------------------

  lemma MarkRoundTrip(mark: Mark)
    ensures ParseMark(MarkText(mark)) == Some(mark) && ' ' !in MarkText(mark)
  {
    assert "read" != "mutation" && "read" != "passthrough" && "mutation" != "passthrough" by {
      assert |"read"| == 4 && |"mutation"| == 8 && |"passthrough"| == 11;
    }
  }

  lemma FlagsRoundTrip(flags: SqlFlags, strict: bool)
    ensures ParseFlags(FlagWords(flags), SqlFlags(false, false), strict) == Some(flags)
  {
    assert |ORDER_FLAG| == 21 && |FLOAT_FLAG| == 13;
    assert [ORDER_FLAG, FLOAT_FLAG][1..] == [FLOAT_FLAG];
    assert [FLOAT_FLAG][1..] == [] && [ORDER_FLAG][1..] == [];
    var float := SqlFlags(false, true);
    assert ParseFlags([FLOAT_FLAG], SqlFlags(false, false), strict) == ParseFlags([], float, strict);
    assert ParseFlags([FLOAT_FLAG], SqlFlags(true, false), strict) == ParseFlags([], SqlFlags(true, true), strict);
  }

  lemma MarkWordsPlain(sql: Sql)
    ensures forall i :: 0 <= i < |MarkWords(sql)| ==> ' ' !in MarkWords(sql)[i]
  {
    MarkRoundTrip(sql.mark);
    assert ' ' !in ORDER_FLAG && ' ' !in FLOAT_FLAG;
  }

  lemma JoinThree(a: string, b: string, c: string)
    ensures Strings.Join([a, b, c], ' ') == a + " " + b + " " + c
  {
    assert [a, b, c][1..] == [b, c] && [b, c][1..] == [c];
    assert Strings.Join([b, c], ' ') == b + " " + c;
  }

  lemma MarkLineRoundTrip(sql: Sql, strict: bool)
    ensures ParseMarkLine(MarkLine(sql), strict) == Some((sql.mark, sql.flags))
  {
    var words := MarkWords(sql);
    StripOwn("-- MARK ", Strings.Join(words, ' '));
    MarkWordsPlain(sql);
    SplitJoin(words, ' ');
    MarkRoundTrip(sql.mark);
    assert words[1..] == FlagWords(sql.flags);
    FlagsRoundTrip(sql.flags, strict);
    if sql.flags == SqlFlags(true, true) { JoinThree(MarkText(sql.mark), ORDER_FLAG, FLOAT_FLAG); }
  }

  lemma MarkedSqlRoundTrip(lines: seq<string>, pos: nat, strict: bool, sql: Sql)
    requires At(lines, pos, [MarkLine(sql), sql.text]) && SqlOk(sql.text)
    ensures ParseMarkedSql(lines, pos, strict) == Success((sql, pos + 2))
  {
    AtIndex(lines, pos, [MarkLine(sql), sql.text], 0);
    AtIndex(lines, pos, [MarkLine(sql), sql.text], 1);
    MarkLineRoundTrip(sql, strict);
  }

  // ---- one-line steps ----------------------------------------------------------------------------------

  lemma TxRoundTrip(tx: TxCtl)
    ensures ParseTx(TxText(tx)) == Some(tx)
  {
    var t := TxText(tx);
    if tx.Savepoint? {
      StripOwn("savepoint ", tx.name);
    } else {
      NotPrefix("savepoint ", t, 0);
      if tx.RollbackTo? {
        StripOwn("rollback-to ", tx.name);
      } else if tx.Rollback? {
        NotPrefix("rollback-to ", t, 8);
        assert |t| == 8 && t[0] == 'r' && "begin-rc"[0] == 'b' && "begin-rr"[0] == 'b';
      } else {
        NotPrefix("rollback-to ", t, 0);
        assert "begin-rc"[7] == 'c' && "begin-rr"[7] == 'r';
        assert |"begin-ser"| == 9 && |"commit"| == 6 && |"begin-rc"| == 8 && |"begin-rr"| == 8;
      }
    }
  }

  lemma KeyHasNoEquals(k: string)
    requires IsIdent(DotsToUnderscores(k))
    ensures '=' !in k
  {
    forall i | 0 <= i < |k|
      ensures k[i] != '='
    {
      assert IsIdentChar(DotsToUnderscores(k)[i]);
    }
  }

  lemma ArmRoundTrip(arm: ArmCtl)
    requires ValidStep(Arm(arm))
    ensures ParseArm(ArmText(arm)) == Some(arm)
  {
    match arm
    case ResetAll =>
    case SetGuc(k, v) =>
      var kv := k + "=" + v;
      assert ArmText(arm) == "set " + kv;
      assert ArmText(arm)[0] == 's' && "reset-all"[0] == 'r';
      StripOwn("set ", kv);
      KeyHasNoEquals(k);
      SplitOnceAt(k, "=", v);
  }

  lemma FaultRoundTrip(fault: FaultPoint)
    ensures ParseFault(FaultText(fault)) == Some(fault)
  {
    var f := FaultText(fault);
    if fault.Crash? {
      StripOwn("crash ", fault.point);
    } else {
      NotPrefix("crash ", f, 0);
      if fault.Env? {
        StripOwn("env ", fault.point);
      } else {
        NotPrefix("env ", f, 0);
        assert |"disconnect"| == 10 && |"reconnect-server"| == 16 && |"torn-write"| == 10;
        assert "disconnect"[0] == 'd' && "torn-write"[0] == 't';
      }
    }
  }

  lemma SessionIdRoundTrip(op: string, id: nat)
    requires id <= MAX_SESSION_ID
    ensures StripPrefix(op + Dec(id), op) == Some(Dec(id)) && ParseUnsigned(Dec(id), U32_MAX) == Some(id)
  {
    StripOwn(op, Dec(id));
    ParseOfDec(id, U32_MAX);
  }

  // ---- steps ---------------------------------------------------------------------------------------------

  /** Every step starts with its tag, so it is no block border and no blank or bare line. */
  lemma StepHead(step: Step)
    ensures var l := StepLines(step)[0];
            && "--" <= l && |l| > 4 && (l[3] == 'S' || l[3] == 'T' || l[3] == 'A' || l[3] == 'F')
            && l != "" && !("-- begin property " <= l) && !("-- end property seq=" <= l)
  {
    hide TxText, ArmText, FaultText, MarkLine, Dec;
    var l := StepLines(step)[0];
    assert |l| > 4 && l[0] == '-' && l[1] == '-' && (l[3] == 'S' || l[3] == 'T' || l[3] == 'A' || l[3] == 'F');
    NotPrefix("-- begin property ", l, 3);
    NotPrefix("-- end property seq=", l, 3);
  }

  lemma NotSession(line: string)
    requires |line| > 4 && (line[3] != 'S' || line[4] != 'E')
    ensures line != "-- SESSION" && !("-- SESSION " <= line)
  {
    assert "-- SESSION"[3] == 'S' && "-- SESSION"[4] == 'E';
    NotPrefix("-- SESSION ", line, if line[3] != 'S' then 3 else 4);
  }

  lemma NotStep(line: string)
    requires |line| > 3 && line[3] != 'S'
    ensures !("-- STEP " <= line)
  {
    NotPrefix("-- STEP ", line, 3);
  }

  lemma NotTx(line: string)
    requires |line| > 3 && line[3] != 'T'
    ensures !("-- TX " <= line)
  {
    NotPrefix("-- TX ", line, 3);
  }

  lemma NotArm(line: string)
    requires |line| > 4 && (line[3] != 'A' || line[4] != 'R')
    ensures !("-- ARM " <= line)
  {
    NotPrefix("-- ARM ", line, if line[3] != 'A' then 3 else 4);
  }

  lemma NotCheck(line: string)
    requires |line| > 3 && line[3] != 'A'
    ensures !("-- ASSUME " <= line) && !("-- ASSERT " <= line)
  {
    NotPrefix("-- ASSUME ", line, 3);
    NotPrefix("-- ASSERT ", line, 3);
  }

  function KindOf(step: Step): string
    requires step.Ddl? || step.Dml? || step.Query?
  {
    if step.Ddl? then "ddl" else if step.Dml? then "dml" else "query"
  }

  lemma SqlKindRoundTrip(lines: seq<string>, pos: nat, step: Step)
    requires step.Ddl? || step.Dml? || step.Query?
    requires pos < |lines| && ParseMarkedSql(lines, pos + 1, true) == Success((step.sql, pos + 3))
    ensures ParseSqlStep(lines, pos, KindOf(step)) == Success((step, pos + 3))
  {
    assert "ddl"[1] == 'd' && "dml"[1] == 'm' && |"query"| == 5;
  }

  lemma SqlStepLines(step: Step)
    requires step.Ddl? || step.Dml? || step.Query?
    ensures StepLines(step) == ["-- STEP " + KindOf(step)] + [MarkLine(step.sql), step.sql.text]
  {
    hide MarkLine;
  }

  lemma StatementLine(isJson: string -> bool, lines: seq<string>, pos: nat, v2: bool, kind: string)
    requires pos < |lines| && lines[pos] == "-- STEP " + kind
    ensures ParseStep(isJson, lines, pos, v2) == ParseSqlStep(lines, pos, kind)
  {
    hide ParseSqlStep;
    var line := lines[pos];
    assert line[3] == 'S' && line[4] == 'T';
    NotSession(line);
    StripOwn("-- STEP ", kind);
  }

  lemma SqlStepRoundTrip(isJson: string -> bool, lines: seq<string>, pos: nat, v2: bool, step: Step)
    requires step.Ddl? || step.Dml? || step.Query?
    requires At(lines, pos, StepLines(step)) && TypedStep(isJson, step)
    ensures ParseStep(isJson, lines, pos, v2) == Success((step, pos + |StepLines(step)|))
  {
    hide ParseMarkedSql, ParseSqlStep, ParseStep, MarkLine, SqlOk, KindOf;
    var line := "-- STEP " + KindOf(step);
    var tail := [MarkLine(step.sql), step.sql.text];
    SqlStepLines(step);
    AtSplit(lines, pos, [line], tail);
    AtIndex(lines, pos, [line], 0);
    MarkedSqlRoundTrip(lines, pos + 1, true, step.sql);
    SqlKindRoundTrip(lines, pos, step);
    StatementLine(isJson, lines, pos, v2, KindOf(step));
  }

  lemma TxStepRoundTrip(isJson: string -> bool, lines: seq<string>, pos: nat, v2: bool, step: Step)
    requires step.Tx? && ValidStep(step) && At(lines, pos, StepLines(step))
    ensures ParseStep(isJson, lines, pos, v2) == Success((step, pos + |StepLines(step)|))
  {
    hide TxText, ParseTx, ValidStep;
    var line := "-- TX " + TxText(step.tx);
    AtIndex(lines, pos, [line], 0);
    NotSession(line);
    NotStep(line);
    StripOwn("-- TX ", TxText(step.tx));
    TxRoundTrip(step.tx);
  }

  lemma ArmStepRoundTrip(isJson: string -> bool, lines: seq<string>, pos: nat, v2: bool, step: Step)
    requires step.Arm? && ValidStep(step) && At(lines, pos, StepLines(step))
    ensures ParseStep(isJson, lines, pos, v2) == Success((step, pos + |StepLines(step)|))
  {
    hide ArmText, ParseArm, ValidStep;
    var line := "-- ARM " + ArmText(step.arm);
    AtIndex(lines, pos, [line], 0);
    NotSession(line);
    NotStep(line);
    NotTx(line);
    StripOwn("-- ARM ", ArmText(step.arm));
    ArmRoundTrip(step.arm);
  }

  lemma CheckStepRoundTrip(isJson: string -> bool, lines: seq<string>, pos: nat, v2: bool, step: Step)
    requires step.Assumption? || step.Assertion?
    requires TypedStep(isJson, step) && At(lines, pos, StepLines(step))
    ensures ParseStep(isJson, lines, pos, v2) == Success((step, pos + |StepLines(step)|))
  {
    var tag := if step.Assumption? then "-- ASSUME " else "-- ASSERT ";
    var line := tag + step.json;
    AtIndex(lines, pos, [line], 0);
    NotSession(line);
    NotStep(line);
    NotTx(line);
    NotArm(line);
    StripOwn(tag, step.json);
    if step.Assertion? { NotPrefix("-- ASSUME ", line, 6); }
  }

  lemma FaultStepRoundTrip(isJson: string -> bool, lines: seq<string>, pos: nat, v2: bool, step: Step)
    requires step.Fault? && ValidStep(step) && At(lines, pos, StepLines(step))
    ensures ParseStep(isJson, lines, pos, v2) == Success((step, pos + |StepLines(step)|))
  {
    hide FaultText, ParseFault, ValidStep;
    var line := "-- FAULT " + FaultText(step.fault);
    AtIndex(lines, pos, [line], 0);
    NotSession(line);
    NotStep(line);
    NotTx(line);
    NotArm(line);
    NotCheck(line);
    StripOwn("-- FAULT ", FaultText(step.fault));
    FaultRoundTrip(step.fault);
  }

  lemma SwitchLines(step: Step)
    requires step.Session? || step.Join?
    ensures var op := if step.Session? then "switch " else "join ";
            StepLines(step) == ["-- SESSION " + (op + Dec(step.id))]
  {
    hide Dec;
    assert "-- SESSION switch " == "-- SESSION " + "switch " && "-- SESSION join " == "-- SESSION " + "join ";
    var d := Dec(step.id);
    assert "-- SESSION " + "switch " + d == "-- SESSION " + ("switch " + d);
    assert "-- SESSION " + "join " + d == "-- SESSION " + ("join " + d);
  }

  lemma SwitchBody(lines: seq<string>, pos: nat, step: Step)
    requires (step.Session? || step.Join?) && ValidStep(step) && pos < |lines|
    ensures ParseSession(lines, pos, (if step.Session? then "switch " else "join ") + Dec(step.id)) == Success((step, pos + 1))
  {
    hide Dec, ParseUnsigned;
    var op := if step.Session? then "switch " else "join ";
    SessionIdRoundTrip(op, step.id);
    if step.Join? { NotPrefix("switch ", op + Dec(step.id), 0); }
  }

  lemma SwitchRoundTrip(isJson: string -> bool, lines: seq<string>, pos: nat, step: Step)
    requires (step.Session? || step.Join?) && ValidStep(step) && At(lines, pos, StepLines(step))
    ensures ParseStep(isJson, lines, pos, true) == Success((step, pos + |StepLines(step)|))
  {
    hide Dec, ParseUnsigned, ParseStep, ParseSession, StepLines, ValidStep;
    var op := if step.Session? then "switch " else "join ";
    var body := op + Dec(step.id);
    SwitchLines(step);
    AtIndex(lines, pos, StepLines(step), 0);
    SessionLine(isJson, lines, pos, body);
    SwitchBody(lines, pos, step);
  }

  lemma SessionLine(isJson: string -> bool, lines: seq<string>, pos: nat, body: string)
    requires pos < |lines| && lines[pos] == "-- SESSION " + body
    ensures ParseStep(isJson, lines, pos, true) == ParseSession(lines, pos, body)
  {
    hide ParseSession;
    StripOwn("-- SESSION ", body);
  }

  lemma SessionBody(lines: seq<string>, pos: nat, step: Step)
    requires (step.AsyncDml? || step.WaitUntil?) && pos < |lines|
    requires ParseMarkedSql(lines, pos + 1, false) == Success((step.sql, pos + 3))
    ensures ParseSession(lines, pos, if step.AsyncDml? then "async-dml" else "wait-until") == Success((step, pos + 3))
  {
    hide ParseMarkedSql, Checked;
    var body := if step.AsyncDml? then "async-dml" else "wait-until";
    NotPrefix("switch ", body, 0);
    NotPrefix("join ", body, 0);
    assert |"async-dml"| == 9 && |"wait-until"| == 10;
  }

  lemma SessionSqlLines(step: Step)
    requires step.AsyncDml? || step.WaitUntil?
    ensures var body := if step.AsyncDml? then "async-dml" else "wait-until";
            StepLines(step) == ["-- SESSION " + body] + [MarkLine(step.sql), step.sql.text]
  {
    hide MarkLine;
    assert "-- SESSION async-dml" == "-- SESSION " + "async-dml";
    assert "-- SESSION wait-until" == "-- SESSION " + "wait-until";
  }

  lemma SessionSqlRoundTrip(isJson: string -> bool, lines: seq<string>, pos: nat, step: Step)
    requires (step.AsyncDml? || step.WaitUntil?) && TypedStep(isJson, step) && At(lines, pos, StepLines(step))
    ensures ParseStep(isJson, lines, pos, true) == Success((step, pos + |StepLines(step)|))
  {
    hide ParseMarkedSql, ParseSession, ParseStep, MarkLine, SqlOk, StepLines;
    var body := if step.AsyncDml? then "async-dml" else "wait-until";
    var tail := [MarkLine(step.sql), step.sql.text];
    SessionSqlLines(step);
    AtSplit(lines, pos, ["-- SESSION " + body], tail);
    AtIndex(lines, pos, ["-- SESSION " + body], 0);
    MarkedSqlRoundTrip(lines, pos + 1, false, step.sql);
    SessionLine(isJson, lines, pos, body);
    SessionBody(lines, pos, step);
  }

  lemma StepRoundTrip(isJson: string -> bool, lines: seq<string>, pos: nat, v2: bool, step: Step)
    requires ValidStep(step) && TypedStep(isJson, step) && (IsV2(step) ==> v2)
    requires At(lines, pos, StepLines(step))
    ensures ParseStep(isJson, lines, pos, v2) == Success((step, pos + |StepLines(step)|))
  {
    hide ParseStep, StepLines, ValidStep, TypedStep;
    match step
    case Ddl(_) => SqlStepRoundTrip(isJson, lines, pos, v2, step);
    case Dml(_) => SqlStepRoundTrip(isJson, lines, pos, v2, step);
    case Query(_) => SqlStepRoundTrip(isJson, lines, pos, v2, step);
    case Tx(_) => TxStepRoundTrip(isJson, lines, pos, v2, step);
    case Arm(_) => ArmStepRoundTrip(isJson, lines, pos, v2, step);
    case Assumption(_) => CheckStepRoundTrip(isJson, lines, pos, v2, step);
    case Assertion(_) => CheckStepRoundTrip(isJson, lines, pos, v2, step);
    case Fault(_) => FaultStepRoundTrip(isJson, lines, pos, v2, step);
    case Session(_) => SwitchRoundTrip(isJson, lines, pos, step);
    case Join(_) => SwitchRoundTrip(isJson, lines, pos, step);
    case AsyncDml(_) => SessionSqlRoundTrip(isJson, lines, pos, step);
    case WaitUntil(_) => SessionSqlRoundTrip(isJson, lines, pos, step);
  }

  // ---- property blocks and the header ---------------------------------------------------------------------

  lemma IdentAvoids(s: string, c: char)
    requires IsIdent(s) && !IsIdentChar(c)
    ensures c !in s
  {
  }

  lemma DigitsAvoid(s: string, c: char)
    requires Digits(s) && !IsDigit(c)
    ensures c !in s
  {
  }

  lemma TablesRoundTrip(tables: seq<string>)
    requires tables != [] && Ascending(tables) && forall i :: 0 <= i < |tables| ==> IsIdent(tables[i])
    ensures ParseTables(Some(Strings.Join(tables, ','))) == Some(tables)
  {
    forall i | 0 <= i < |tables|
      ensures ',' !in tables[i]
    {
      IdentAvoids(tables[i], ',');
    }
    SplitJoin(tables, ',');
    assert Split("", ',') == [""] && tables != [""];
  }

  lemma NumberAndTables(seqno: nat, tables: seq<string>)
    ensures SplitOnce(Dec(seqno) + TablesText(tables), " tables=")
         == if tables == [] then None else Some((Dec(seqno), Strings.Join(tables, ',')))
  {
    DigitsAvoid(Dec(seqno), ' ');
    if tables == [] {
      assert Dec(seqno) + "" == Dec(seqno);
      SplitOnceNever(Dec(seqno), " tables=");
    } else {
      var list := Strings.Join(tables, ',');
      assert Dec(seqno) + (" tables=" + list) == Dec(seqno) + " tables=" + list;
      SplitOnceAt(Dec(seqno), " tables=", list);
    }
  }

  lemma BeginSplit(name: string, seqno: nat, tables: seq<string>)
    ensures BeginLine(name, seqno, tables)
            == "-- begin property '" + (name + "'" + (" seq=" + (Dec(seqno) + TablesText(tables))))
    ensures tables == [] ==> Dec(seqno) + TablesText(tables) == Dec(seqno)
  {
    hide Dec;
    assert "' seq=" == "'" + " seq=";
  }

  lemma NameHasNoQuote(name: string, tables: seq<string>)
    requires ValidProperty(name, tables)
    ensures '\'' !in name
  {
  }

  lemma TableNames(name: string, tables: seq<string>)
    requires ValidProperty(name, tables)
    ensures forall i :: 0 <= i < |tables| ==> IsIdent(tables[i])
  {
  }

  lemma BeginRoundTrip(name: string, seqno: nat, tables: seq<string>)
    requires ValidProperty(name, tables) && Ascending(tables) && seqno <= U32_MAX
    ensures ParseBegin(BeginLine(name, seqno, tables)) == Some((name, seqno, tables))
  {
    hide Dec, TablesText, BeginLine, Ascending, ValidProperty, SplitOnce, ParseUnsigned;
    var number := Dec(seqno) + TablesText(tables);
    var afterName := " seq=" + number;
    var rest := name + "'" + afterName;
    BeginSplit(name, seqno, tables);
    NameHasNoQuote(name, tables);
    StripOwn("-- begin property '", rest);
    SplitOnceAt(name, "'", afterName);
    StripOwn(" seq=", number);
    NumberAndTables(seqno, tables);
    ParseOfDec(seqno, U32_MAX);
    if tables != [] { TableNames(name, tables); TablesRoundTrip(tables); }
  }

  lemma WordAvoids(s: string, c: char)
    requires NoWs(s) && IsWhitespace(c)
    ensures c !in s
  {
  }

  lemma HeaderWordsPlain(h: PlanHeader)
    requires ValidHeader(h)
    ensures forall i :: 0 <= i < |HeaderWords(h)| ==> ' ' !in HeaderWords(h)[i]
  {
    var w := HeaderWords(h);
    assert ' ' !in w[0] by { DigitsAvoid(Dec(h.seed), ' '); }
    assert ' ' !in w[1] && ' ' !in w[3] && ' ' !in w[5];
    assert ' ' !in w[2] by { WordAvoids(h.profile, ' '); }
    assert ' ' !in w[4];
    assert ' ' !in w[6] by { WordAvoids(h.generator, ' '); }
  }

  lemma HeaderRoundTrip(lines: seq<string>, h: PlanHeader, v2: bool)
    requires ValidHeader(h) && h.seed <= U64_MAX
    requires |lines| >= 2 && lines[0] == (if v2 then HEADER_V2 else HEADER_V1) && lines[1] == HeaderLine(h)
    ensures ParseHeader(lines) == Success((h, v2))
  {
    hide Strings.Join, Split, Dec, ParseUnsigned, ValidHeader;
    var w := HeaderWords(h);
    StripOwn("-- seed: ", Strings.Join(w, ' '));
    HeaderWordsPlain(h);
    SplitJoin(w, ' ');
    ParseOfDec(h.seed, U64_MAX);
    assert HEADER_V1[20] == '1' && HEADER_V2[20] == '2';
  }
}
