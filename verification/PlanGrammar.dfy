/** Which lines spell which step, block and plan, and that the parser accepts exactly those. */
module PlanGrammar {
  import opened Common
  import opened Strings
  import opened Decimal
  import opened Plan
  import opened PlanText
  import opened PlanRoundTrip
  import opened PlanFile

  // ---- spellings ---------------------------------------------------------------------------------------------------

  /** Flag words in any order and number, and the flags they set. */
  predicate FlagsSet(words: seq<string>, flags: SqlFlags) {
    && (forall i :: 0 <= i < |words| ==> words[i] == ORDER_FLAG || words[i] == FLOAT_FLAG)
    && (flags.orderUnderdetermined <==> ORDER_FLAG in words)
    && (flags.floatLenient <==> FLOAT_FLAG in words)
  }

  /** A mark line: as printed where the format is strict, with its flags in any order elsewhere. */
  ghost predicate Marked(line: string, sql: Sql, strict: bool) {
    if strict then line == MarkLine(sql)
    else exists words ::
        FlagsSet(words, sql.flags) && line == "-- MARK " + Strings.Join([MarkText(sql.mark)] + words, ' ')
  }

  /** A tag and a number. */
  ghost predicate Tagged(line: string, tag: string, n: nat) {
    exists s :: Numeral(s, n) && line == tag + s
  }

  ghost predicate MarkedSql(lines: seq<string>, sql: Sql, strict: bool) {
    |lines| == 2 && Marked(lines[0], sql, strict) && lines[1] == sql.text
  }

  /** The lines of a step. Only session steps have more than one spelling. */
  ghost predicate Spelled(lines: seq<string>, step: Step) {
    match step
    case Session(id) => |lines| == 1 && Tagged(lines[0], "-- SESSION switch ", id)
    case Join(id) => |lines| == 1 && Tagged(lines[0], "-- SESSION join ", id)
    case AsyncDml(sql) => |lines| == 3 && lines[0] == "-- SESSION async-dml" && MarkedSql(lines[1..], sql, false)
    case WaitUntil(sql) => |lines| == 3 && lines[0] == "-- SESSION wait-until" && MarkedSql(lines[1..], sql, false)
    case _ => lines == StepLines(step)
  }

  // ---- marks -------------------------------------------------------------------------------------------------------

  lemma ParseMarkIff(word: string, mark: Mark)
    ensures ParseMark(word) == Some(mark) <==> word == MarkText(mark)
  {
    MarkRoundTrip(mark);
  }

  predicate Adds(before: SqlFlags, words: seq<string>, after: SqlFlags) {
    && (forall i :: 0 <= i < |words| ==> words[i] == ORDER_FLAG || words[i] == FLOAT_FLAG)
    && (after.orderUnderdetermined <==> before.orderUnderdetermined || ORDER_FLAG in words)
    && (after.floatLenient <==> before.floatLenient || FLOAT_FLAG in words)
  }

  lemma FlagsDiffer()
    ensures ORDER_FLAG != FLOAT_FLAG
  {
    assert ORDER_FLAG[0] == 'o' && FLOAT_FLAG[0] == 'f';
  }

  lemma {:induction false} LooseFlagsIff(words: seq<string>, before: SqlFlags, after: SqlFlags)
    ensures ParseFlags(words, before, false) == Some(after) <==> Adds(before, words, after)
    decreases |words|
  {
    FlagsDiffer();
    if words != [] {
      assert words == [words[0]] + words[1..];
      if words[0] == ORDER_FLAG {
        LooseFlagsIff(words[1..], before.(orderUnderdetermined := true), after);
      } else if words[0] == FLOAT_FLAG {
        LooseFlagsIff(words[1..], before.(floatLenient := true), after);
      }
    }
  }

  /** Without a repeated flag there are at most two words. */
  lemma StrictFlags(words: seq<string>, flags: SqlFlags)
    requires ParseFlags(words, SqlFlags(false, false), true) == Some(flags)
    ensures words == FlagWords(flags) || (flags == SqlFlags(true, true) && words == [FLOAT_FLAG, ORDER_FLAG])
  {
    FlagsDiffer();
    if |words| > 0 {
      var first := if words[0] == ORDER_FLAG then SqlFlags(true, false) else SqlFlags(false, true);
      assert ParseFlags(words[1..], first, true) == Some(flags);
      if |words| > 1 {
        assert ParseFlags(words[1..][1..], SqlFlags(true, true), true) == Some(flags);
        assert words[1..][1..] == [];
        assert words == [words[0], words[1]];
      } else {
        assert words == [words[0]];
      }
    }
  }

  lemma StripIff(s: string, p: string, t: string)
    ensures StripPrefix(s, p) == Some(t) <==> s == p + t
  {
    if s == p + t { StripOwn(p, t); }
  }

  lemma LooseMark(line: string, sql: Sql)
    requires Marked(line, sql, false)
    ensures ParseMarkLine(line, false) == Some((sql.mark, sql.flags))
  {
    hide Strings.Join, Split, MarkText, ParseMark;
    var flags :| FlagsSet(flags, sql.flags) && line == "-- MARK " + Strings.Join([MarkText(sql.mark)] + flags, ' ');
    var words := [MarkText(sql.mark)] + flags;
    MarkRoundTrip(sql.mark);
    assert ' ' !in ORDER_FLAG && ' ' !in FLOAT_FLAG;
    SplitJoin(words, ' ');
    StripOwn("-- MARK ", Strings.Join(words, ' '));
    assert words[1..] == flags;
    LooseFlagsIff(flags, SqlFlags(false, false), sql.flags);
  }

  /** A mark line taken apart. */
  lemma MarkParts(line: string, sql: Sql, strict: bool) returns (flags: seq<string>)
    requires ParseMarkLine(line, strict) == Some((sql.mark, sql.flags))
    ensures line == "-- MARK " + Strings.Join([MarkText(sql.mark)] + flags, ' ')
    ensures ParseFlags(flags, SqlFlags(false, false), strict) == Some(sql.flags)
    ensures strict && sql.flags == SqlFlags(true, true) ==> line == MarkLine(sql)
  {
    hide Strings.Join, Split, MarkText, ParseMark, ParseFlags;
    var words := Split(line[8..], ' ');
    assert line == "-- MARK " + line[8..];
    JoinSplit(line[8..], ' ');
    ParseMarkIff(words[0], sql.mark);
    flags := words[1..];
    assert words == [MarkText(sql.mark)] + flags;
    JoinThree(MarkText(sql.mark), ORDER_FLAG, FLOAT_FLAG);
    assert sql.flags == SqlFlags(true, true) ==> MarkWords(sql) == [MarkText(sql.mark), ORDER_FLAG, FLOAT_FLAG];
  }

  lemma MarkLineIff(line: string, sql: Sql, strict: bool)
    ensures ParseMarkLine(line, strict) == Some((sql.mark, sql.flags)) <==> Marked(line, sql, strict)
  {
    hide ParseMarkLine, ParseFlags, Strings.Join, MarkText;
    if ParseMarkLine(line, strict) == Some((sql.mark, sql.flags)) {
      var flags := MarkParts(line, sql, strict);
      if strict {
        StrictFlags(flags, sql.flags);
      } else {
        LooseFlagsIff(flags, SqlFlags(false, false), sql.flags);
      }
    }
    if Marked(line, sql, strict) {
      if strict { MarkLineRoundTrip(sql, true); } else { LooseMark(line, sql); }
    }
  }

  /** In a session step the printed mark line is not the only one that is read: its flags may be swapped or repeated. A
      strict step refuses that. */
  lemma SwappedFlags(sql: Sql)
    requires sql.flags == SqlFlags(true, true)
    ensures var line := "-- MARK " + Strings.Join([MarkText(sql.mark), FLOAT_FLAG, ORDER_FLAG], ' ');
            && ParseMarkLine(line, false) == Some((sql.mark, sql.flags)) && line != MarkLine(sql)
            && ParseMarkLine(line, true) != Some((sql.mark, sql.flags))
  {
    hide ParseMarkLine, MarkText, Split;
    var swapped, printed := [MarkText(sql.mark), FLOAT_FLAG, ORDER_FLAG], MarkWords(sql);
    var line := "-- MARK " + Strings.Join(swapped, ' ');
    assert swapped == [MarkText(sql.mark)] + [FLOAT_FLAG, ORDER_FLAG];
    assert [FLOAT_FLAG, ORDER_FLAG][0] == FLOAT_FLAG && [FLOAT_FLAG, ORDER_FLAG][1] == ORDER_FLAG;
    assert FlagsSet([FLOAT_FLAG, ORDER_FLAG], sql.flags);
    MarkLineIff(line, sql, false);
    MarkLineIff(line, sql, true);
    FlagsDiffer();
    assert swapped != printed by { assert swapped[1] != printed[1]; }
    MarkWordsPlain(sql);
    assert ' ' !in FLOAT_FLAG && ' ' !in ORDER_FLAG && ' ' !in MarkText(sql.mark) by { assert printed[0] == MarkText(sql.mark); }
    SplitJoin(swapped, ' ');
    SplitJoin(printed, ' ');
    assert line[8..] == Strings.Join(swapped, ' ') && MarkLine(sql)[8..] == Strings.Join(printed, ' ');
  }

  /** A marked statement is accepted exactly where it is spelled. */
  lemma MarkedSqlIff(lines: seq<string>, pos: nat, strict: bool, sql: Sql, next: nat)
    ensures ParseMarkedSql(lines, pos, strict) == Success((sql, next))
       <==> next == pos + 2 <= |lines| && MarkedSql(lines[pos..next], sql, strict) && SqlOk(sql.text)
  {
    hide ParseMarkLine, Marked;
    if pos < |lines| {
      MarkLineIff(lines[pos], sql, strict);
    }
  }

  // ---- steps -------------------------------------------------------------------------------------------------------

  lemma TxSpelled(t: string, tx: TxCtl)
    requires ParseTx(t) == Some(tx)
    ensures t == TxText(tx)
  {
  }

  lemma ArmSpelled(a: string, arm: ArmCtl)
    requires ParseArm(a) == Some(arm)
    ensures a == ArmText(arm)
  {
    if arm.SetGuc? {
      StripIff(a, "set ", a[4..]);
      SplitOnceParts(a[4..], "=");
      assert a == "set " + (arm.key + "=" + arm.value);
    }
  }

  lemma FaultSpelled(f: string, fault: FaultPoint)
    requires ParseFault(f) == Some(fault)
    ensures f == FaultText(fault)
  {
  }

  lemma SqlStepSpelled(lines: seq<string>, pos: nat, kind: string, step: Step, next: nat)
    requires pos < |lines| && lines[pos] == "-- STEP " + kind
    requires ParseSqlStep(lines, pos, kind) == Success((step, next))
    ensures next <= |lines| && lines[pos..next] == StepLines(step) && !IsV2(step)
  {
    hide ParseMarkedSql, MarkLine, SqlOk;
    MarkedSqlIff(lines, pos + 1, true, step.sql, next);
    SqlStepLines(step);
  }

  lemma NumberSpelled(line: string, tag: string, s: string, n: nat)
    requires line == tag + s && ParseUnsigned(s, U32_MAX) == Some(n)
    ensures Tagged(line, tag, n)
  {
    ParsesIff(s, U32_MAX, n);
  }

  lemma SwitchSpelled(lines: seq<string>, pos: nat, body: string, step: Step, next: nat)
    requires pos < |lines| && lines[pos] == "-- SESSION " + body && (step.Session? || step.Join?)
    requires ParseSession(lines, pos, body) == Success((step, next))
    ensures next == pos + 1
    ensures Tagged(lines[pos], if step.Session? then "-- SESSION switch " else "-- SESSION join ", step.id)
  {
    hide ParseMarkedSql, ParseUnsigned, Tagged;
    if "switch " <= body {
      assert lines[pos] == "-- SESSION switch " + body[7..];
      NumberSpelled(lines[pos], "-- SESSION switch ", body[7..], step.id);
    } else {
      assert lines[pos] == "-- SESSION join " + body[5..];
      NumberSpelled(lines[pos], "-- SESSION join ", body[5..], step.id);
    }
  }

  lemma SessionSqlSpelled(lines: seq<string>, pos: nat, body: string, step: Step, next: nat)
    requires pos < |lines| && lines[pos] == "-- SESSION " + body && (step.AsyncDml? || step.WaitUntil?)
    requires ParseSession(lines, pos, body) == Success((step, next))
    ensures next == pos + 3 <= |lines| && MarkedSql(lines[pos + 1..next], step.sql, false)
    ensures lines[pos] == if step.AsyncDml? then "-- SESSION async-dml" else "-- SESSION wait-until"
  {
    hide ParseMarkedSql, ParseUnsigned, SqlOk, MarkedSql;
    MarkedSqlIff(lines, pos + 1, false, step.sql, next);
  }

  lemma SessionSpelled(lines: seq<string>, pos: nat, body: string, step: Step, next: nat)
    requires pos < |lines| && lines[pos] == "-- SESSION " + body
    requires ParseSession(lines, pos, body) == Success((step, next))
    ensures next <= |lines| && Spelled(lines[pos..next], step)
  {
    SessionKinds(lines, pos, body);
    hide ParseSession, MarkedSql, Tagged, StepLines;
    if step.AsyncDml? || step.WaitUntil? {
      SessionSqlSpelled(lines, pos, body, step, next);
      assert lines[pos..next][1..] == lines[pos + 1..next];
    } else {
      SwitchSpelled(lines, pos, body, step, next);
    }
  }

  lemma SessionKinds(lines: seq<string>, pos: nat, body: string)
    requires pos < |lines|
    ensures ParseSession(lines, pos, body).Success? ==> IsV2(ParseSession(lines, pos, body).value.0)
  {
  }

  /** A one-line step: what follows the tag. */
  lemma OneLineSpelled(isJson: string -> bool, lines: seq<string>, pos: nat, v2: bool, step: Step, next: nat)
    requires pos < |lines| && ParseStep(isJson, lines, pos, v2) == Success((step, next))
    requires lines[pos] != "-- SESSION" && !("-- SESSION " <= lines[pos]) && !("-- STEP " <= lines[pos])
    ensures next == pos + 1 && [lines[pos]] == StepLines(step) && !IsV2(step)
  {
    hide ParseTx, ParseArm, ParseFault, TxText, ArmText, FaultText, ValidStep, CheckOk;
    var line := lines[pos];
    if "-- TX " <= line {
      TxSpelled(line[6..], step.tx);
      assert line == "-- TX " + line[6..];
    } else if "-- ARM " <= line {
      ArmSpelled(line[7..], step.arm);
      assert line == "-- ARM " + line[7..];
    } else if "-- ASSUME " <= line {
      assert line == "-- ASSUME " + line[10..];
    } else if "-- ASSERT " <= line {
      assert line == "-- ASSERT " + line[10..];
    } else {
      FaultSpelled(line[9..], step.fault);
      assert line == "-- FAULT " + line[9..];
    }
  }

  /** Whatever is accepted as a step is a spelling of it. */
  lemma StepSpelled(isJson: string -> bool, lines: seq<string>, pos: nat, v2: bool, step: Step, next: nat)
    requires pos < |lines| && ParseStep(isJson, lines, pos, v2) == Success((step, next))
    ensures next <= |lines| && Spelled(lines[pos..next], step)
  {
    hide ParseSqlStep, ParseSession, ValidStep, CheckOk, Tagged, Marked, StepLines, Checked, ParseCheck;
    var line := lines[pos];
    if "-- SESSION " <= line {
      SessionSpelled(lines, pos, line[11..], step, next);
    } else if line == "-- SESSION" {
      NoBody(lines, pos);
    } else if "-- STEP " <= line {
      SqlStepSpelled(lines, pos, line[8..], step, next);
    } else {
      OneLineSpelled(isJson, lines, pos, v2, step, next);
      assert lines[pos..next] == [line];
    }
  }

  lemma StepIsValid(isJson: string -> bool, lines: seq<string>, pos: nat, v2: bool)
    requires pos < |lines|
    ensures ParseStep(isJson, lines, pos, v2).Success? ==> ValidStep(ParseStep(isJson, lines, pos, v2).value.0)
  {
    hide ParseTx, ParseArm, ParseFault, ParseMarkedSql, ParseUnsigned, CheckOk;
    hide IsIdent, NoWs, OneLine, DotsToUnderscores;
  }

  lemma NoBody(lines: seq<string>, pos: nat)
    requires pos < |lines|
    ensures ParseSession(lines, pos, "").Failure?
  {
    NotPrefix("switch ", "", 0);
    NotPrefix("join ", "", 0);
  }

  lemma SwitchReads(lines: seq<string>, pos: nat, body: string, step: Step, s: string)
    requires pos < |lines| && (step.Session? || step.Join?) && ValidStep(step) && Numeral(s, step.id)
    requires body == (if step.Session? then "switch " else "join ") + s
    ensures ParseSession(lines, pos, body) == Success((step, pos + 1))
  {
    hide ParseUnsigned, Numeral, ParseMarkedSql;
    ParsesIff(s, U32_MAX, step.id);
    StripOwn(if step.Session? then "switch " else "join ", s);
    if step.Join? { NotPrefix("switch ", body, 0); }
  }

  lemma SwitchLineReads(isJson: string -> bool, lines: seq<string>, pos: nat, step: Step)
    requires pos < |lines| && (step.Session? || step.Join?) && ValidStep(step)
    requires Tagged(lines[pos], if step.Session? then "-- SESSION switch " else "-- SESSION join ", step.id)
    ensures ParseStep(isJson, lines, pos, true) == Success((step, pos + 1))
  {
    hide ParseStep, ParseSession, Numeral, ValidStep;
    var op := if step.Session? then "switch " else "join ";
    var tag := if step.Session? then "-- SESSION switch " else "-- SESSION join ";
    var s :| Numeral(s, step.id) && lines[pos] == tag + s;
    assert tag == "-- SESSION " + op;
    assert lines[pos] == "-- SESSION " + (op + s);
    SessionLine(isJson, lines, pos, op + s);
    SwitchReads(lines, pos, op + s, step, s);
  }

  lemma SessionSqlReads(isJson: string -> bool, lines: seq<string>, pos: nat, step: Step)
    requires pos + 3 <= |lines| && (step.AsyncDml? || step.WaitUntil?) && TypedStep(isJson, step)
    requires lines[pos] == if step.AsyncDml? then "-- SESSION async-dml" else "-- SESSION wait-until"
    requires MarkedSql(lines[pos + 1..pos + 3], step.sql, false)
    ensures ParseStep(isJson, lines, pos, true) == Success((step, pos + 3))
  {
    hide ParseStep, ParseSession, ParseMarkedSql, MarkedSql, SqlOk;
    var body := if step.AsyncDml? then "async-dml" else "wait-until";
    assert "-- SESSION " + "async-dml" == "-- SESSION async-dml";
    assert "-- SESSION " + "wait-until" == "-- SESSION wait-until";
    SessionLine(isJson, lines, pos, body);
    MarkedSqlIff(lines, pos + 1, false, step.sql, pos + 3);
    SessionBody(lines, pos, step);
  }

  lemma SessionReads(isJson: string -> bool, lines: seq<string>, pos: nat, step: Step, next: nat)
    requires pos <= next <= |lines| && IsV2(step) && Spelled(lines[pos..next], step)
    requires ValidStep(step) && TypedStep(isJson, step)
    ensures ParseStep(isJson, lines, pos, true) == Success((step, next))
  {
    hide ParseStep, MarkedSql, Tagged, ValidStep, TypedStep, StepLines;
    assert lines[pos..next][0] == lines[pos];
    if step.Session? || step.Join? {
      SwitchLineReads(isJson, lines, pos, step);
    } else {
      assert lines[pos..next][1..] == lines[pos + 1..pos + 3];
      SessionSqlReads(isJson, lines, pos, step);
    }
  }

  /** The parser accepts as a step exactly the spellings of valid steps, session steps under the second header only. */
  lemma StepExact(isJson: string -> bool, lines: seq<string>, pos: nat, v2: bool, step: Step, next: nat)
    requires pos < |lines|
    ensures ParseStep(isJson, lines, pos, v2) == Success((step, next))
       <==> pos <= next <= |lines| && Spelled(lines[pos..next], step) && StepSound(isJson, step, v2)
  {
    hide ParseStep, Spelled, StepLines, ValidStep, TypedStep;
    if ParseStep(isJson, lines, pos, v2) == Success((step, next)) {
      StepSpelled(isJson, lines, pos, v2, step, next);
      StepIsTyped(isJson, lines, pos, v2);
      StepIsValid(isJson, lines, pos, v2);
    }
    if pos <= next <= |lines| && Spelled(lines[pos..next], step) && StepSound(isJson, step, v2) {
      if IsV2(step) {
        SessionReads(isJson, lines, pos, step, next);
      } else {
        SpelledAsPrinted(lines[pos..next], step);
        StepRoundTrip(isJson, lines, pos, v2, step);
      }
    }
  }

  lemma SpelledAsPrinted(lines: seq<string>, step: Step)
    requires Spelled(lines, step) && !IsV2(step)
    ensures lines == StepLines(step)
  {
    hide StepLines;
  }

  // ---- blocks ------------------------------------------------------------------------------------------------------

  /** Steps one after another, then the end line with the block's number. */
  ghost predicate BlockSpelled(lines: seq<string>, steps: seq<Step>, seqno: nat)
    decreases |steps|
  {
    if steps == [] then |lines| == 1 && Tagged(lines[0], END, seqno)
    else
      var n := |StepLines(steps[0])|;
      n <= |lines| && Spelled(lines[..n], steps[0]) && BlockSpelled(lines[n..], steps[1..], seqno)
  }

  lemma SpelledLength(lines: seq<string>, step: Step)
    requires Spelled(lines, step)
    ensures |lines| == |StepLines(step)| > 0
  {
    hide MarkLine, Dec, TxText, ArmText, FaultText, MarkedSql, Tagged;
  }

  lemma SpelledHead(lines: seq<string>, step: Step)
    requires Spelled(lines, step)
    ensures |lines| > 0 && StepLine(lines[0])
  {
    hide MarkedSql, Numeral, StepLines;
    if IsV2(step) {
      var l := lines[0];
      assert |l| > 4 && l[0] == '-' && l[1] == '-' && l[3] == 'S';
      NotPrefix(BEGIN, l, 3);
      NotPrefix(END, l, 3);
    } else {
      StepHead(step);
    }
  }

  lemma EndIff(line: string, seqno: nat)
    requires seqno <= U32_MAX
    ensures END <= line && ParseUnsigned(line[20..], U32_MAX) == Some(seqno) <==> Tagged(line, END, seqno)
  {
    hide ParseUnsigned, Numeral;
    if END <= line {
      assert line == END + line[20..];
      ParsesIff(line[20..], U32_MAX, seqno);
    }
    if Tagged(line, END, seqno) {
      var s :| Numeral(s, seqno) && line == END + s;
      StripOwn(END, s);
      assert line[20..] == s;
      ParsesIff(s, U32_MAX, seqno);
    }
  }

  lemma {:induction false} BlockIsSpelled(isJson: string -> bool, lines: seq<string>, pos: nat, v2: bool, seqno: nat,
                                          steps: seq<Step>, next: nat)
    requires ParseBlock(isJson, lines, pos, v2, seqno) == Success((steps, next)) && seqno <= U32_MAX
    ensures pos <= next <= |lines| && BlockSpelled(lines[pos..next], steps, seqno) && StepsSound(isJson, steps, v2)
    decreases |lines| - pos
  {
    hide ParseStep, Spelled, StepLines, ValidStep, TypedStep, ParseUnsigned, Tagged, StepSound;
    if END <= lines[pos] {
      EndIff(lines[pos], seqno);
    } else {
      var (step, mid) := ParseStep(isJson, lines, pos, v2).value;
      var rest := ParseBlock(isJson, lines, mid, v2, seqno).value.0;
      assert steps == [step] + rest && steps[1..] == rest;
      StepExact(isJson, lines, pos, v2, step, mid);
      SpelledLength(lines[pos..mid], step);
      BlockIsSpelled(isJson, lines, mid, v2, seqno, rest, next);
      assert lines[pos..next][..mid - pos] == lines[pos..mid] && lines[pos..next][mid - pos..] == lines[mid..next];
    }
  }

  lemma {:induction false} SpelledIsBlock(isJson: string -> bool, lines: seq<string>, pos: nat, v2: bool, seqno: nat,
                                          steps: seq<Step>, next: nat)
    requires pos <= next <= |lines| && BlockSpelled(lines[pos..next], steps, seqno) && StepsSound(isJson, steps, v2)
    requires seqno <= U32_MAX
    ensures ParseBlock(isJson, lines, pos, v2, seqno) == Success((steps, next))
    decreases |steps|
  {
    hide ParseStep, Spelled, StepLines, ValidStep, TypedStep, ParseUnsigned, Tagged, StepSound, ParseBlock;
    var chunk := lines[pos..next];
    if steps == [] {
      EndHere(isJson, lines, pos, v2, seqno);
    } else {
      var mid := pos + |StepLines(steps[0])|;
      assert chunk[..mid - pos] == lines[pos..mid] && chunk[mid - pos..] == lines[mid..next];
      SpelledHead(lines[pos..mid], steps[0]);
      assert lines[pos..mid][0] == lines[pos];
      StepExact(isJson, lines, pos, v2, steps[0], mid);
      SpelledIsBlock(isJson, lines, mid, v2, seqno, steps[1..], next);
      BlockCons(isJson, lines, pos, v2, seqno, steps[0], mid, steps[1..], next);
      assert steps == [steps[0]] + steps[1..];
    }
  }

  lemma EndHere(isJson: string -> bool, lines: seq<string>, pos: nat, v2: bool, seqno: nat)
    requires pos < |lines| && Tagged(lines[pos], END, seqno) && seqno <= U32_MAX
    ensures ParseBlock(isJson, lines, pos, v2, seqno) == Success(([], pos + 1))
  {
    hide ParseStep, ParseUnsigned, Tagged;
    EndIff(lines[pos], seqno);
  }

  /** The first line of a block. */
  ghost predicate BeginSpelled(line: string, name: string, seqno: nat, tables: seq<string>) {
    exists s :: Numeral(s, seqno) && line == "-- begin property '" + name + "' seq=" + s + TablesText(tables)
  }

  lemma NumeralPlain(s: string, n: nat, c: char)
    requires Numeral(s, n) && !IsDigit(c) && c != '+'
    ensures c !in s
  {
    var zeros: nat, plus: bool :| s == Padded(n, zeros, plus);
    DigitsAvoid(ZeroDigits(zeros), c);
    DigitsAvoid(Dec(n), c);
  }

  /** Number and table list, cut where they meet. */
  lemma NumberThenTables(s: string, n: nat, tables: seq<string>)
    requires Numeral(s, n)
    ensures SplitOnce(s + TablesText(tables), " tables=")
         == if tables == [] then None else Some((s, Strings.Join(tables, ',')))
  {
    hide Numeral, SplitOnce;
    NumeralPlain(s, n, ' ');
    if tables == [] {
      assert s + "" == s;
      SplitOnceNever(s, " tables=");
    } else {
      var list := Strings.Join(tables, ',');
      assert s + (" tables=" + list) == s + " tables=" + list;
      SplitOnceAt(s, " tables=", list);
    }
  }

  lemma BeginLineParts(name: string, s: string, tail: string)
    ensures "-- begin property '" + name + "' seq=" + s + tail
         == "-- begin property '" + (name + "'" + (" seq=" + (s + tail)))
  {
    assert "' seq=" == "'" + " seq=";
  }

  lemma BeginReads(line: string, name: string, seqno: nat, tables: seq<string>)
    requires BeginSpelled(line, name, seqno, tables)
    requires ValidProperty(name, tables) && Ascending(tables) && seqno <= U32_MAX
    ensures ParseBegin(line) == Some((name, seqno, tables))
  {
    hide Numeral, TablesText, Ascending, ValidProperty, SplitOnce, ParseUnsigned;
    var s :| Numeral(s, seqno) && line == "-- begin property '" + name + "' seq=" + s + TablesText(tables);
    var number := s + TablesText(tables);
    var rest := name + "'" + (" seq=" + number);
    BeginLineParts(name, s, TablesText(tables));
    NameHasNoQuote(name, tables);
    StripOwn("-- begin property '", rest);
    SplitOnceAt(name, "'", " seq=" + number);
    StripOwn(" seq=", number);
    NumberThenTables(s, seqno, tables);
    ParsesIff(s, U32_MAX, seqno);
    if tables != [] { TableNames(name, tables); TablesRoundTrip(tables); } else { EmptyTables(s); }
  }

  lemma EmptyTables(s: string)
    ensures s + TablesText([]) == s
  {
  }

  /** What is left after the name and the number. */
  lemma TablesSpelled(list: Option<string>, tables: seq<string>)
    requires ParseTables(list) == Some(tables)
    ensures list.None? ==> tables == []
    ensures list.Some? ==> tables != [] && list.value == Strings.Join(tables, ',')
  {
    if list.Some? { JoinSplit(list.value, ','); }
  }

  lemma BeginIsSpelled(line: string, name: string, seqno: nat, tables: seq<string>)
    requires ParseBegin(line) == Some((name, seqno, tables))
    ensures BeginSpelled(line, name, seqno, tables)
    ensures ValidProperty(name, tables) && Ascending(tables) && seqno <= U32_MAX
  {
    BeginIsTyped(line);
    hide Numeral, Ascending, ValidProperty, SplitOnce, ParseUnsigned, ParseTables, Strings.Join;
    var rest := line[19..];
    SplitOnceParts(rest, "'");
    var tail := SplitOnce(rest, "'").value.1[5..];
    assert line == "-- begin property '" + (name + "'" + (" seq=" + tail));
    var cut := SplitOnce(tail, " tables=");
    var s := if cut.None? then tail else cut.value.0;
    var list := if cut.None? then None else Some(cut.value.1);
    if cut.Some? { SplitOnceParts(tail, " tables="); }
    TablesSpelled(list, tables);
    assert tail == s + TablesText(tables);
    ParsesIff(s, U32_MAX, seqno);
    BeginLineParts(name, s, TablesText(tables));
  }

  // ---- items -------------------------------------------------------------------------------------------------------

  ghost predicate ItemSpelled(lines: seq<string>, item: PlanItem) {
    match item
    case Single(step) => Spelled(lines, step)
    case Property(name, seqno, tables, steps) =>
      lines != [] && BeginSpelled(lines[0], name, seqno, tables) && BlockSpelled(lines[1..], steps, seqno)
  }

  /** Items one after another, with any number of blank lines before, between and after them. */
  ghost predicate ItemsSpelled(lines: seq<string>, items: seq<PlanItem>)
    decreases |lines|
  {
    if lines == [] then items == []
    else if lines[0] == "" then ItemsSpelled(lines[1..], items)
    else
      && items != []
      && var n := |ItemLines(items[0])|;
         n <= |lines| && ItemSpelled(lines[..n], items[0]) && ItemsSpelled(lines[n..], items[1..])
  }

  lemma {:induction false} BlockLength(lines: seq<string>, steps: seq<Step>, seqno: nat)
    requires BlockSpelled(lines, steps, seqno)
    ensures |lines| == |StepsLines(steps)| + 1
    decreases |steps|
  {
    hide Spelled, StepLines, Tagged;
    if steps != [] { BlockLength(lines[|StepLines(steps[0])|..], steps[1..], seqno); }
  }

  lemma ItemLength(lines: seq<string>, item: PlanItem)
    requires ItemSpelled(lines, item)
    ensures |lines| == |ItemLines(item)|
  {
    hide Spelled, StepLines, BeginSpelled, BlockSpelled, BeginLine, EndLine;
    match item
    case Single(step) => SpelledLength(lines, step);
    case Property(_, seqno, _, steps) => BlockLength(lines[1..], steps, seqno);
  }

  lemma BeginSpelledHead(line: string, name: string, seqno: nat, tables: seq<string>)
    requires BeginSpelled(line, name, seqno, tables)
    ensures BEGIN <= line && line != ""
  {
    hide Numeral, TablesText;
    assert "-- begin property '" == BEGIN + "'";
    assert line[..18] == BEGIN;
  }

  lemma BlockSound(isJson: string -> bool, item: PlanItem, v2: bool)
    requires item.Property?
    ensures Sound(isJson, item, v2) <==> (&& ValidProperty(item.name, item.tables) && Ascending(item.tables)
                                          && item.seqno <= U32_MAX && StepsSound(isJson, item.steps, v2))
  {
    hide ValidProperty, Ascending, ValidStep, TypedStep, IsV2;
    assert AnyV2(item.steps) <==> exists i :: 0 <= i < |item.steps| && IsV2(item.steps[i]);
  }

  lemma ItemIsSpelled(isJson: string -> bool, lines: seq<string>, pos: nat, v2: bool, item: PlanItem, next: nat)
    requires pos < |lines| && ParseItem(isJson, lines, pos, v2) == Success((item, next))
    ensures pos <= next <= |lines| && ItemSpelled(lines[pos..next], item) && Sound(isJson, item, v2)
  {
    hide ParseStep, ParseBegin, ParseBlock, Spelled, BeginSpelled, BlockSpelled;
    hide StepsSound, TypedStep, ValidStep, ValidProperty;
    if BEGIN <= lines[pos] {
      BeginIsSpelled(lines[pos], item.name, item.seqno, item.tables);
      BlockIsSpelled(isJson, lines, pos + 1, v2, item.seqno, item.steps, next);
      assert lines[pos..next][0] == lines[pos] && lines[pos..next][1..] == lines[pos + 1..next];
      BlockSound(isJson, item, v2);
    } else {
      StepExact(isJson, lines, pos, v2, item.step, next);
    }
  }

  lemma SpelledIsItem(isJson: string -> bool, lines: seq<string>, pos: nat, v2: bool, item: PlanItem, next: nat)
    requires pos < next <= |lines| && ItemSpelled(lines[pos..next], item) && Sound(isJson, item, v2)
    ensures ParseItem(isJson, lines, pos, v2) == Success((item, next)) && lines[pos] != ""
  {
    hide ParseStep, ParseBegin, ParseBlock, Spelled, BeginSpelled, BlockSpelled;
    hide StepsSound, TypedStep, ValidStep, ValidProperty;
    assert lines[pos..next][0] == lines[pos];
    if item.Property? {
      BlockSound(isJson, item, v2);
      BeginSpelledHead(lines[pos], item.name, item.seqno, item.tables);
      BeginReads(lines[pos], item.name, item.seqno, item.tables);
      assert lines[pos..next][1..] == lines[pos + 1..next];
      SpelledIsBlock(isJson, lines, pos + 1, v2, item.seqno, item.steps, next);
    } else {
      SpelledHead(lines[pos..next], item.step);
      assert StepSound(isJson, item.step, v2);
      StepExact(isJson, lines, pos, v2, item.step, next);
    }
  }

  predicate AllSound(isJson: string -> bool, items: seq<PlanItem>, v2: bool) {
    forall i :: 0 <= i < |items| ==> Sound(isJson, items[i], v2)
  }

  lemma {:induction false} ItemsAreSpelled(isJson: string -> bool, lines: seq<string>, pos: nat, v2: bool,
                                           items: seq<PlanItem>)
    requires pos <= |lines| && ParseItems(isJson, lines, pos, v2) == Success(items)
    ensures ItemsSpelled(lines[pos..], items) && AllSound(isJson, items, v2)
    decreases |lines| - pos
  {
    hide ParseItem, ItemSpelled, Sound, ItemLines;
    var rest := lines[pos..];
    if pos < |lines| {
      if lines[pos] == "" {
        ItemsAreSpelled(isJson, lines, pos + 1, v2, items);
        assert rest[1..] == lines[pos + 1..];
      } else {
        var (item, next) := ParseItem(isJson, lines, pos, v2).value;
        var more := ParseItems(isJson, lines, next, v2).value;
        assert items == [item] + more && items[1..] == more;
        ItemIsSpelled(isJson, lines, pos, v2, item, next);
        ItemLength(lines[pos..next], item);
        ItemsAreSpelled(isJson, lines, next, v2, more);
        assert rest[..next - pos] == lines[pos..next] && rest[next - pos..] == lines[next..];
      }
    }
  }

  lemma {:induction false} SpelledAreItems(isJson: string -> bool, lines: seq<string>, pos: nat, v2: bool,
                                           items: seq<PlanItem>)
    requires pos <= |lines| && ItemsSpelled(lines[pos..], items) && AllSound(isJson, items, v2)
    ensures ParseItems(isJson, lines, pos, v2) == Success(items)
    decreases |lines| - pos
  {
    hide ParseItem, ItemSpelled, Sound, ItemLines;
    var rest := lines[pos..];
    if pos < |lines| {
      if lines[pos] == "" {
        assert rest[1..] == lines[pos + 1..];
        SpelledAreItems(isJson, lines, pos + 1, v2, items);
      } else {
        var next := pos + |ItemLines(items[0])|;
        assert rest[..next - pos] == lines[pos..next] && rest[next - pos..] == lines[next..];
        SpelledIsItem(isJson, lines, pos, v2, items[0], next);
        SpelledAreItems(isJson, lines, next, v2, items[1..]);
        assert items == [items[0]] + items[1..];
      }
    }
  }

  // ---- the header and the plan -------------------------------------------------------------------------------------

  /** The second line of the file. */
  ghost predicate HeaderSpelled(line: string, h: PlanHeader) {
    exists s :: Numeral(s, h.seed) && line == "-- seed: " + Strings.Join([s] + HeaderWords(h)[1..], ' ')
  }

  lemma HeaderReads(lines: seq<string>, h: PlanHeader)
    requires |lines| >= 2 && (lines[0] == HEADER_V1 || lines[0] == HEADER_V2) && HeaderSpelled(lines[1], h)
    requires ValidHeader(h) && h.seed <= U64_MAX
    ensures ParseHeader(lines) == Success((h, lines[0] == HEADER_V2))
  {
    hide Strings.Join, Split, Numeral, ParseUnsigned, ValidHeader, Dec;
    var s :| Numeral(s, h.seed) && lines[1] == "-- seed: " + Strings.Join([s] + HeaderWords(h)[1..], ' ');
    var w := [s] + HeaderWords(h)[1..];
    HeaderWordsPlain(h);
    NumeralPlain(s, h.seed, ' ');
    SplitJoin(w, ' ');
    StripOwn("-- seed: ", Strings.Join(w, ' '));
    ParsesIff(s, U64_MAX, h.seed);
  }

  lemma HeaderIsSpelled(lines: seq<string>, h: PlanHeader, v2: bool)
    requires ParseHeader(lines) == Success((h, v2))
    ensures |lines| >= 2 && lines[0] == (if v2 then HEADER_V2 else HEADER_V1) && HeaderSpelled(lines[1], h)
    ensures ValidHeader(h) && h.seed <= U64_MAX
  {
    SeedFits(lines);
    hide Strings.Join, Split, Numeral, ParseUnsigned, ValidHeader, Dec;
    var rest := lines[1][9..];
    var w := Split(rest, ' ');
    JoinSplit(rest, ' ');
    ParsesIff(w[0], U64_MAX, h.seed);
    assert w == [w[0]] + HeaderWords(h)[1..];
    assert lines[1] == "-- seed: " + rest;
  }

  /** A file: one of the two first lines, the header, the items. */
  ghost predicate PlanSpelled(lines: seq<string>, plan: Plan) {
    && |lines| >= 2 && HeaderSpelled(lines[1], plan.header) && ItemsSpelled(lines[2..], plan.items)
    && (lines[0] == HEADER_V2 || (lines[0] == HEADER_V1 && !PlanIsV2(plan)))
  }

  lemma SoundIff(isJson: string -> bool, plan: Plan, v2: bool)
    ensures (&& AllSound(isJson, plan.items, v2) && ValidHeader(plan.header) && plan.header.seed <= U64_MAX)
       <==> (Validate(plan) && Typed(isJson, plan) && (PlanIsV2(plan) ==> v2))
  {
    hide ValidItem, TypedItem, ItemIsV2, ValidHeader;
  }

  /** The parser accepts exactly the spellings of valid plans, and reads each as the plan it spells. */
  lemma PlanExact(isJson: string -> bool, text: string, plan: Plan)
    ensures ParsePlan(isJson, text) == Success(plan)
       <==> PlanSpelled(LinesOf(text), plan) && Validate(plan) && Typed(isJson, plan)
  {
    hide ParseHeader, ParseItems, LinesOf, Validate, Typed, PlanIsV2, ValidHeader;
    hide AllSound, ItemsSpelled, HeaderSpelled;
    var lines := LinesOf(text);
    if ParsePlan(isJson, text) == Success(plan) {
      var v2 := ParseHeader(lines).value.1;
      HeaderIsSpelled(lines, plan.header, v2);
      ItemsAreSpelled(isJson, lines, 2, v2, plan.items);
      SoundIff(isJson, plan, v2);
    }
    if PlanSpelled(lines, plan) && Validate(plan) && Typed(isJson, plan) {
      var v2 := lines[0] == HEADER_V2;
      SoundIff(isJson, plan, v2);
      HeaderReads(lines, plan.header);
      SpelledAreItems(isJson, lines, 2, v2, plan.items);
    }
  }
}
