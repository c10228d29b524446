/** Plan files known by their text. */
module PlanKnown {
  import opened Strings
  import opened Decimal
  import opened Plan
  import opened PlanText
  import opened PlanRoundTrip

  // ---- steps of one line -------------------------------------------------------------------------------------------

  lemma TransactionsKnown()
    ensures StepLines(Tx(Begin(ReadCommitted))) == ["-- TX begin-rc"]
    ensures StepLines(Tx(Begin(RepeatableRead))) == ["-- TX begin-rr"]
    ensures StepLines(Tx(Begin(Serializable))) == ["-- TX begin-ser"]
    ensures StepLines(Tx(Commit)) == ["-- TX commit"]
    ensures StepLines(Tx(Rollback)) == ["-- TX rollback"]
  {
    assert "-- TX " + "begin-rc" == "-- TX begin-rc";
    assert "-- TX " + "begin-rr" == "-- TX begin-rr";
    assert "-- TX " + "begin-ser" == "-- TX begin-ser";
    assert "-- TX " + "commit" == "-- TX commit";
    assert "-- TX " + "rollback" == "-- TX rollback";
  }

  lemma SavepointsKnown()
    ensures StepLines(Tx(Savepoint("s1"))) == ["-- TX savepoint s1"]
    ensures StepLines(Tx(RollbackTo("s1"))) == ["-- TX rollback-to s1"]
  {
    assert "savepoint " + "s1" == "savepoint s1" && "-- TX " + "savepoint s1" == "-- TX savepoint s1";
    assert "rollback-to " + "s1" == "rollback-to s1" && "-- TX " + "rollback-to s1" == "-- TX rollback-to s1";
  }

  lemma ArmsKnown()
    ensures StepLines(Arm(SetGuc("work.mem", "4MB"))) == ["-- ARM set work.mem=4MB"]
    ensures StepLines(Arm(ResetAll)) == ["-- ARM reset-all"]
  {
    assert "set " + "work.mem" + "=" + "4MB" == "set work.mem=4MB";
    assert "-- ARM " + "set work.mem=4MB" == "-- ARM set work.mem=4MB" && "-- ARM " + "reset-all" == "-- ARM reset-all";
  }

  lemma ChecksKnown()
    ensures StepLines(Assumption("{}")) == ["-- ASSUME {}"] && StepLines(Assertion("[1]")) == ["-- ASSERT [1]"]
  {
    assert "-- ASSUME " + "{}" == "-- ASSUME {}" && "-- ASSERT " + "[1]" == "-- ASSERT [1]";
  }

  lemma FaultsKnown()
    ensures StepLines(Fault(Disconnect)) == ["-- FAULT disconnect"]
    ensures StepLines(Fault(ReconnectServer)) == ["-- FAULT reconnect-server"]
    ensures StepLines(Fault(TornWrite)) == ["-- FAULT torn-write"]
  {
    assert "-- FAULT " + "disconnect" == "-- FAULT disconnect";
    assert "-- FAULT " + "reconnect-server" == "-- FAULT reconnect-server";
    assert "-- FAULT " + "torn-write" == "-- FAULT torn-write";
  }

  lemma FaultPointsKnown()
    ensures StepLines(Fault(Crash("walwrite-3"))) == ["-- FAULT crash walwrite-3"]
    ensures StepLines(Fault(Env("enospc"))) == ["-- FAULT env enospc"]
  {
    assert "crash " + "walwrite-3" == "crash walwrite-3";
    assert "-- FAULT " + "crash walwrite-3" == "-- FAULT crash walwrite-3";
    assert "env " + "enospc" == "env enospc" && "-- FAULT " + "env enospc" == "-- FAULT env enospc";
  }

  lemma SessionsKnown()
    ensures StepLines(Session(2)) == ["-- SESSION switch 2"] && StepLines(Step.Join(0)) == ["-- SESSION join 0"]
  {
    assert Dec(2) == "2" && Dec(0) == "0";
    assert "-- SESSION switch " + "2" == "-- SESSION switch 2" && "-- SESSION join " + "0" == "-- SESSION join 0";
  }

  // ---- statements --------------------------------------------------------------------------------------------------

  const CREATE := Sql("CREATE TABLE t1 (c0 INT);", Passthrough, SqlFlags(false, false))
  const DELETE := Sql("DELETE FROM t1;", Mutation, SqlFlags(true, false))
  const SELECT := Sql("SELECT c0 FROM t1;", Read, SqlFlags(true, true))
  const PROBE := Sql("SELECT 1.5;", Read, SqlFlags(false, true))

  lemma JoinTwo(a: string, b: string)
    ensures Strings.Join([a, b], ' ') == a + " " + b
  {
    assert [a, b][1..] == [b];
  }

  lemma PlainMarkKnown()
    ensures MarkLine(CREATE) == "-- MARK passthrough"
  {
    assert "-- MARK " + "passthrough" == "-- MARK passthrough";
  }

  lemma OrderMarkKnown()
    ensures MarkLine(DELETE) == "-- MARK mutation order-underdetermined"
  {
    JoinTwo("mutation", ORDER_FLAG);
    assert "mutation" + " " + "order-underdetermined" == "mutation order-underdetermined";
    assert "-- MARK " + "mutation order-underdetermined" == "-- MARK mutation order-underdetermined";
  }

  lemma FloatMarkKnown()
    ensures MarkLine(PROBE) == "-- MARK read float-lenient"
  {
    JoinTwo("read", FLOAT_FLAG);
    assert "read" + " " + "float-lenient" == "read float-lenient";
    assert "-- MARK " + "read float-lenient" == "-- MARK read float-lenient";
  }

  lemma BothMarksKnown()
    ensures MarkLine(SELECT) == "-- MARK " + "read order-underdetermined float-lenient"
  {
    JoinThree("read", ORDER_FLAG, FLOAT_FLAG);
    assert "read" + " " + "order-underdetermined" == "read order-underdetermined";
    assert "read order-underdetermined" + " " + "float-lenient" == "read order-underdetermined float-lenient";
  }

  lemma StatementsKnown()
    ensures StepLines(Ddl(CREATE)) == ["-- STEP ddl", "-- MARK passthrough", "CREATE TABLE t1 (c0 INT);"]
    ensures StepLines(Dml(DELETE)) == ["-- STEP dml", "-- MARK mutation order-underdetermined", "DELETE FROM t1;"]
    ensures StepLines(Query(PROBE)) == ["-- STEP query", "-- MARK read float-lenient", "SELECT 1.5;"]
  {
    hide MarkLine;
    PlainMarkKnown();
    OrderMarkKnown();
    FloatMarkKnown();
    assert "-- STEP " + "ddl" == "-- STEP ddl" && "-- STEP " + "dml" == "-- STEP dml";
    assert "-- STEP " + "query" == "-- STEP query";
  }

  lemma SessionStatementsKnown()
    ensures StepLines(AsyncDml(DELETE))
         == ["-- SESSION async-dml", "-- MARK mutation order-underdetermined", "DELETE FROM t1;"]
    ensures StepLines(WaitUntil(PROBE)) == ["-- SESSION wait-until", "-- MARK read float-lenient", "SELECT 1.5;"]
  {
    hide MarkLine;
    OrderMarkKnown();
    FloatMarkKnown();
  }

  // ---- files -------------------------------------------------------------------------------------------------------

  lemma BordersKnown()
    ensures BeginLine("tlp", 7, ["t1", "t2"]) == "-- begin property 'tlp' seq=7" + " tables=t1,t2"
    ensures BeginLine("tlp", 7, []) == "-- begin property 'tlp' seq=7"
    ensures EndLine(7) == "-- end property seq=7"
  {
    assert Dec(7) == "7";
    assert Strings.Join(["t1", "t2"], ',') == "t1,t2" by { assert ["t1", "t2"][1..] == ["t2"]; }
    assert " tables=" + "t1,t2" == " tables=t1,t2";
    assert "-- begin property '" + "tlp" == "-- begin property 'tlp";
    assert "-- begin property 'tlp" + "' seq=" == "-- begin property 'tlp' seq=";
    assert "-- begin property 'tlp' seq=" + "7" == "-- begin property 'tlp' seq=7";
    assert "-- end property seq=" + "7" == "-- end property seq=7";
  }

  const HEADER := PlanHeader(42, "p", "ab", "g")

  /** The header line, piece by piece. */
  lemma HeaderSpelledOut(h: PlanHeader)
    ensures HeaderLine(h) == "-- seed: " + Dec(h.seed) + " profile: " + h.profile + " profile-sha256: " + h.sha
                           + " generator: " + h.generator
  {
    hide Dec;
    JoinSeven(Dec(h.seed), "profile:", h.profile, "profile-sha256:", h.sha, "generator:", h.generator);
    SpacedWords();
  }

  lemma SpacedWords()
    ensures " profile: " == " " + "profile:" + " " && " profile-sha256: " == " " + "profile-sha256:" + " "
    ensures " generator: " == " " + "generator:" + " "
  {
  }

  lemma FortyTwo()
    ensures Dec(42) == "42"
  {
    assert Dec(4) == "4";
  }

  lemma HeaderKnown()
    ensures HeaderLine(HEADER)
         == "-- seed: " + "42" + " profile: " + "p" + " profile-sha256: " + "ab" + " generator: " + "g"
  {
    hide HeaderLine, Dec;
    HeaderSpelledOut(HEADER);
    FortyTwo();
  }

  lemma JoinSeven(a: string, b: string, c: string, d: string, e: string, f: string, g: string)
    ensures Strings.Join([a, b, c, d, e, f, g], ' ')
         == a + (" " + b) + (" " + c) + (" " + d) + (" " + e) + (" " + f) + (" " + g)
  {
    JoinFour(d, e, f, g);
    assert [a, b, c, d, e, f, g][1..] == [b, c, d, e, f, g] && [b, c, d, e, f, g][1..] == [c, d, e, f, g];
    assert [c, d, e, f, g][1..] == [d, e, f, g];
    assert Strings.Join([c, d, e, f, g], ' ') == c + " " + Strings.Join([d, e, f, g], ' ');
    assert Strings.Join([b, c, d, e, f, g], ' ') == b + " " + Strings.Join([c, d, e, f, g], ' ');
  }

  lemma JoinFour(a: string, b: string, c: string, d: string)
    ensures Strings.Join([a, b, c, d], ' ') == a + " " + b + " " + c + " " + d
  {
    JoinThree(b, c, d);
    assert [a, b, c, d][1..] == [b, c, d];
  }

  /** A file under the first header. */
  lemma SerialPlanKnown()
    ensures PlanLines(Plan(HEADER, [Single(Tx(Commit)), Property("tlp", 7, [], [Arm(ResetAll)])]))
         == ["-- simharness plan " + "v1 (serial single-session)",
             "-- seed: " + "42" + " profile: " + "p" + " profile-sha256: " + "ab" + " generator: " + "g",
             "",
             "-- TX commit",
             "",
             "-- begin property 'tlp' seq=7",
             "-- ARM reset-all",
             "-- end property seq=7"]
  {
    hide HeaderLine, BeginLine, EndLine, StepLines;
    HeaderKnown();
    TransactionsKnown();
    ArmsKnown();
    BordersKnown();
    TwoItems(Single(Tx(Commit)), Property("tlp", 7, [], [Arm(ResetAll)]));
    OneStep(Arm(ResetAll));
  }

  /** A session step anywhere brings the second header. */
  lemma SessionPlanKnown()
    ensures PlanLines(Plan(HEADER, [Single(Tx(Commit)), Property("tlp", 7, [], [Session(2)])]))
         == ["-- simharness plan " + "v2 (multi-session)",
             "-- seed: " + "42" + " profile: " + "p" + " profile-sha256: " + "ab" + " generator: " + "g",
             "",
             "-- TX commit",
             "",
             "-- begin property 'tlp' seq=7",
             "-- SESSION switch 2",
             "-- end property seq=7"]
  {
    hide HeaderLine, BeginLine, EndLine, StepLines;
    HeaderKnown();
    TransactionsKnown();
    SessionsKnown();
    BordersKnown();
    var block := Property("tlp", 7, [], [Session(2)]);
    TwoItems(Single(Tx(Commit)), block);
    OneStep(Session(2));
    assert IsV2([Session(2)][0]);
    assert ItemIsV2([Single(Tx(Commit)), block][1]);
  }

  lemma TwoItems(a: PlanItem, b: PlanItem)
    ensures ItemsLines([a, b]) == [""] + ItemLines(a) + ([""] + ItemLines(b))
  {
    hide ItemLines;
    assert [a, b][1..] == [b] && [b][1..] == [];
    assert ItemsLines([b]) == [""] + ItemLines(b) + ItemsLines([]);
  }

  lemma OneStep(step: Step)
    ensures StepsLines([step]) == StepLines(step)
  {
    hide StepLines;
    assert [step][1..] == [];
  }

  // ---- what is refused ---------------------------------------------------------------------------------------------

  /** A statement is one line, not empty, no comment, and ends in a semicolon. */
  lemma StatementsRefused()
    ensures !SqlOk("") && !SqlOk("SELECT 1") && !SqlOk("SELECT\n1;") && !SqlOk("SELECT\r1;") && !SqlOk("-- nope;")
    ensures SqlOk("SELECT 1;") && SqlOk(";") && SqlOk("- -;")
  {
    assert "SELECT 1"[7] == '1' && "SELECT\n1;"[6] == '\n' && "SELECT\r1;"[6] == '\r';
    StripOwn("--", " nope;");
    assert "--" + " nope;" == "-- nope;";
    NotPrefix("--", "SELECT 1;", 0);
    NotPrefix("--", ";", 0);
    NotPrefix("--", "- -;", 1);
    assert "SELECT 1;"[8] == ';' && "- -;"[3] == ';';
  }

  /** The ends of each range of identifier characters. */
  lemma IdentifierCharacters()
    ensures IsIdentChar('a') && IsIdentChar('z') && IsIdentChar('0') && IsIdentChar('9') && IsIdentChar('_')
    ensures !IsIdentChar('`') && !IsIdentChar('{') && !IsIdentChar('/') && !IsIdentChar(':') && !IsIdentChar('A')
    ensures IsLower('a') && IsLower('z') && !IsLower('`') && !IsLower('{') && !IsLower('0')
    ensures IsLowerHex('a') && IsLowerHex('f') && IsLowerHex('0') && IsLowerHex('9')
    ensures !IsLowerHex('`') && !IsLowerHex('g') && !IsLowerHex('/') && !IsLowerHex(':')
  {
  }

  lemma NamesRefused()
    ensures IsIdent("t1") && IsIdent("_9") && !IsIdent("") && !IsIdent("9a") && !IsIdent("tA") && !IsIdent("a.b")
    ensures ValidStep(Arm(SetGuc("a.b", "1"))) && !ValidStep(Arm(SetGuc("a b", "1")))
    ensures !ValidStep(Arm(SetGuc("a", ""))) && !ValidStep(Arm(SetGuc("a", "1 2")))
    ensures !ValidStep(Arm(SetGuc("a", "1\n")))
  {
    assert "9a"[0] == '9' && !IsIdentChar("tA"[1]) && !IsIdentChar("a.b"[1]);
    assert DotsToUnderscores("a.b") == "a_b" && DotsToUnderscores("a b")[1] == ' ';
    assert "1 2"[1] == ' ' && "1\n"[1] == '\n';
  }

  lemma StepsRefused()
    ensures ValidStep(Session(5)) && !ValidStep(Session(6)) && ValidStep(Step.Join(5)) && !ValidStep(Step.Join(6))
    ensures !ValidStep(Tx(Savepoint("S"))) && !ValidStep(Tx(RollbackTo("")))
    ensures !ValidStep(Fault(Crash(""))) && !ValidStep(Fault(Env("a b"))) && ValidStep(Fault(Env("a-b")))
  {
    assert "a b"[1] == ' ' && !IsLower("S"[0]);
  }

  lemma BlocksRefused()
    ensures !ValidProperty("", []) && !ValidProperty("a'b", []) && !ValidProperty("a\nb", [])
    ensures ValidProperty("A b", [])
    ensures !ValidProperty("a", ["T"]) && ValidProperty("a", ["t"])
  {
    assert "a'b"[1] == '\'' && "a\nb"[1] == '\n';
    assert !IsIdent(["T"][0]) && IsIdent(["t"][0]);
  }

  lemma HeadersRefused()
    ensures !ValidHeader(PlanHeader(1, "", "ab", "g")) && !ValidHeader(PlanHeader(1, "p", "", "g"))
    ensures !ValidHeader(PlanHeader(1, "p q", "ab", "g")) && !ValidHeader(PlanHeader(1, "p", "AB", "g"))
    ensures !ValidHeader(PlanHeader(1, "p", "ab", "")) && ValidHeader(PlanHeader(1, "p", "af09", "g"))
  {
    assert "p q"[1] == ' ' && !IsLowerHex("AB"[0]);
  }
}
