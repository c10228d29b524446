/** Where the parser reports an error: the first line no continuation of the file can make good. */
module PlanErrors {
  import opened Common
  import opened Strings
  import opened Decimal
  import opened Plan
  import opened PlanText
  import opened PlanRoundTrip
  import opened PlanFile
  import opened PlanGrammar

  /** Two files with the same first n lines. */
  predicate Agree(lines: seq<string>, other: seq<string>, n: nat) {
    n <= |lines| && n <= |other| && lines[..n] == other[..n]
  }

  lemma AgreeLess(lines: seq<string>, other: seq<string>, n: nat, m: nat)
    requires Agree(lines, other, n) && m <= n
    ensures Agree(lines, other, m)
  {
    assert lines[..m] == lines[..n][..m] && other[..m] == other[..n][..m];
  }

  lemma AgreeAt(lines: seq<string>, other: seq<string>, n: nat, i: nat)
    requires Agree(lines, other, n) && i < n
    ensures i < |lines| && i < |other| && lines[i] == other[i]
  {
    assert lines[..n][i] == other[..n][i];
  }

  /** How far a reading looked: to the line it failed at, or to where it ended. */
  function Reach<T>(r: Parsed<(T, nat)>): nat {
    match r
    case Failure(e) => e.line
    case Success((_, next)) => next
  }

  lemma SqlLocal(lines: seq<string>, other: seq<string>, pos: nat, strict: bool)
    requires Agree(lines, other, Reach(ParseMarkedSql(lines, pos, strict)))
    ensures ParseMarkedSql(other, pos, strict) == ParseMarkedSql(lines, pos, strict)
  {
    hide ParseMarkLine, SqlOk;
    var n := Reach(ParseMarkedSql(lines, pos, strict));
    if pos < |lines| {
      AgreeAt(lines, other, n, pos);
      if pos + 1 < n { AgreeAt(lines, other, n, pos + 1); }
    }
  }

  lemma SqlReach(lines: seq<string>, pos: nat, strict: bool)
    requires pos <= |lines|
    ensures pos < Reach(ParseMarkedSql(lines, pos, strict)) <= |lines| + 1
  {
    hide ParseMarkLine, SqlOk;
  }

  lemma SessionLocal(lines: seq<string>, other: seq<string>, pos: nat, body: string)
    requires pos < |lines| && pos < |other| && Agree(lines, other, Reach(ParseSession(lines, pos, body)))
    ensures ParseSession(other, pos, body) == ParseSession(lines, pos, body)
  {
    hide ParseMarkedSql, ParseUnsigned, Checked, Agree;
    if body == "async-dml" || body == "wait-until" {
      NotPrefix("switch ", body, 0);
      NotPrefix("join ", body, 0);
      SqlLocal(lines, other, pos + 1, false);
    }
  }

  lemma SqlStepLocal(lines: seq<string>, other: seq<string>, pos: nat, kind: string)
    requires pos < |lines| && pos < |other| && Agree(lines, other, Reach(ParseSqlStep(lines, pos, kind)))
    ensures ParseSqlStep(other, pos, kind) == ParseSqlStep(lines, pos, kind)
  {
    hide ParseMarkedSql, Agree;
    if kind == "ddl" || kind == "dml" || kind == "query" {
      SqlLocal(lines, other, pos + 1, true);
    }
  }

  lemma SessionReach(lines: seq<string>, pos: nat, body: string)
    requires pos < |lines|
    ensures pos < Reach(ParseSession(lines, pos, body)) <= |lines| + 1
  {
    hide ParseMarkedSql, ParseUnsigned, ValidStep;
    SqlReach(lines, pos + 1, false);
  }

  lemma SqlStepReach(lines: seq<string>, pos: nat, kind: string)
    requires pos < |lines|
    ensures pos < Reach(ParseSqlStep(lines, pos, kind)) <= |lines| + 1
  {
    hide ParseMarkedSql;
    SqlReach(lines, pos + 1, true);
  }

  lemma StepReach(isJson: string -> bool, lines: seq<string>, pos: nat, v2: bool)
    requires pos < |lines|
    ensures pos < Reach(ParseStep(isJson, lines, pos, v2)) <= |lines| + 1
  {
    hide ParseSqlStep, ParseSession, ParseTx, ParseArm, ParseFault, CheckOk, ValidStep;
    var line := lines[pos];
    if "-- SESSION " <= line {
      SessionReach(lines, pos, line[11..]);
    } else if line == "-- SESSION" {
      SessionReach(lines, pos, "");
    } else if "-- STEP " <= line {
      SqlStepReach(lines, pos, line[8..]);
    }
  }

  /** A step is read, or refused, by the lines up to where it ends or fails. */
  lemma StepLocal(isJson: string -> bool, lines: seq<string>, other: seq<string>, pos: nat, v2: bool)
    requires pos < |lines| && Agree(lines, other, Reach(ParseStep(isJson, lines, pos, v2)))
    ensures pos < |other| && ParseStep(isJson, other, pos, v2) == ParseStep(isJson, lines, pos, v2)
  {
    StepReach(isJson, lines, pos, v2);
    AgreeAt(lines, other, Reach(ParseStep(isJson, lines, pos, v2)), pos);
    hide ParseSqlStep, ParseSession, ParseTx, ParseArm, ParseFault, CheckOk, ValidStep, Agree;
    var line := lines[pos];
    if "-- SESSION " <= line {
      if v2 { SessionLocal(lines, other, pos, line[11..]); }
    } else if line == "-- SESSION" {
      if v2 { SessionLocal(lines, other, pos, ""); }
    } else if "-- STEP " <= line {
      SqlStepLocal(lines, other, pos, line[8..]);
    }
  }

  // ---- a step that fails behind its first line can be completed ----------------------------------------------

  /** The lines before the one at fault, and others after them. */
  function Completed(lines: seq<string>, n: nat, tail: seq<string>): seq<string>
    requires 0 < n <= |lines| + 1
  {
    lines[..n - 1] + tail
  }

  lemma CompletedAgrees(lines: seq<string>, n: nat, tail: seq<string>)
    requires 0 < n <= |lines| + 1
    ensures Agree(lines, Completed(lines, n, tail), n - 1)
  {
  }

  const SOME_SQL := Sql("x;", Read, SqlFlags(false, false))

  lemma SomeSqlOk()
    ensures SqlOk("x;") && Marked(MarkLine(SOME_SQL), SOME_SQL, true) && Marked(MarkLine(SOME_SQL), SOME_SQL, false)
  {
    hide MarkLine;
    NotPrefix("--", "x;", 0);
    MarkLineRoundTrip(SOME_SQL, false);
    MarkLineIff(MarkLine(SOME_SQL), SOME_SQL, false);
  }

  lemma SqlCompletes(lines: seq<string>, pos: nat, strict: bool) returns (tail: seq<string>)
    requires pos <= |lines| && ParseMarkedSql(lines, pos, strict).Failure?
    ensures var n := ParseMarkedSql(lines, pos, strict).error.line;
            && 0 < n <= |lines| + 1
            && var done := Completed(lines, n, tail);
               |done| == pos + 2 && ParseMarkedSql(done, pos, strict).Success?
               && ParseMarkedSql(done, pos, strict).value.1 == |done|
  {
    hide ParseMarkLine, MarkLine;
    SomeSqlOk();
    MarkLineIff(MarkLine(SOME_SQL), SOME_SQL, strict);
    if ParseMarkedSql(lines, pos, strict).error.line == pos + 1 {
      tail := [MarkLine(SOME_SQL), "x;"];
    } else {
      tail := ["x;"];
    }
  }

  lemma SessionCompletes(lines: seq<string>, pos: nat, body: string) returns (tail: seq<string>)
    requires pos < |lines| && ParseSession(lines, pos, body).Failure?
    requires ParseSession(lines, pos, body).error.line > pos + 1
    ensures var n := ParseSession(lines, pos, body).error.line;
            && 0 < n <= |lines| + 1
            && var done := Completed(lines, n, tail);
               pos < |done| && ParseSession(done, pos, body).Success? && ParseSession(done, pos, body).value.1 == |done|
  {
    hide ParseMarkedSql, ParseUnsigned, ValidStep;
    tail := SqlCompletes(lines, pos + 1, false);
  }

  lemma SqlStepCompletes(lines: seq<string>, pos: nat, kind: string) returns (tail: seq<string>)
    requires pos < |lines| && ParseSqlStep(lines, pos, kind).Failure?
    requires ParseSqlStep(lines, pos, kind).error.line > pos + 1
    ensures var n := ParseSqlStep(lines, pos, kind).error.line;
            && 0 < n <= |lines| + 1
            && var done := Completed(lines, n, tail);
               pos < |done| && ParseSqlStep(done, pos, kind).Success? && ParseSqlStep(done, pos, kind).value.1 == |done|
  {
    hide ParseMarkedSql;
    tail := SqlCompletes(lines, pos + 1, true);
  }

  lemma StepCompletes(isJson: string -> bool, lines: seq<string>, pos: nat, v2: bool) returns (tail: seq<string>)
    requires pos < |lines| && ParseStep(isJson, lines, pos, v2).Failure?
    requires ParseStep(isJson, lines, pos, v2).error.line > pos + 1
    ensures var n := ParseStep(isJson, lines, pos, v2).error.line;
            && 0 < n <= |lines| + 1
            && var done := Completed(lines, n, tail);
               && pos < |done| && done[pos] == lines[pos]
               && ParseStep(isJson, done, pos, v2).Success? && ParseStep(isJson, done, pos, v2).value.1 == |done|
  {
    StepReach(isJson, lines, pos, v2);
    var n := ParseStep(isJson, lines, pos, v2).error.line;
    hide ParseSqlStep, ParseSession, ParseTx, ParseArm, ParseFault, CheckOk, ValidStep;
    var line := lines[pos];
    if "-- SESSION " <= line {
      tail := SessionCompletes(lines, pos, line[11..]);
    } else if line == "-- SESSION" {
      tail := SessionCompletes(lines, pos, "");
    } else {
      tail := SqlStepCompletes(lines, pos, line[8..]);
    }
    assert Completed(lines, n, tail)[pos] == line;
  }

  // ---- blocks ------------------------------------------------------------------------------------------------------

  lemma {:induction false} BlockReach(isJson: string -> bool, lines: seq<string>, pos: nat, v2: bool, seqno: nat)
    requires pos <= |lines|
    ensures pos < Reach(ParseBlock(isJson, lines, pos, v2, seqno)) <= |lines| + 1
    decreases |lines| - pos
  {
    hide ParseStep;
    if pos < |lines| && StepLine(lines[pos]) {
      StepReach(isJson, lines, pos, v2);
      var r := ParseStep(isJson, lines, pos, v2);
      if r.Success? { BlockReach(isJson, lines, r.value.1, v2, seqno); }
    }
  }

  lemma {:induction false} BlockLocal(isJson: string -> bool, lines: seq<string>, other: seq<string>,
                                      pos: nat, v2: bool, seqno: nat)
    requires pos <= |lines| && Agree(lines, other, Reach(ParseBlock(isJson, lines, pos, v2, seqno)))
    ensures ParseBlock(isJson, other, pos, v2, seqno) == ParseBlock(isJson, lines, pos, v2, seqno)
    decreases |lines| - pos
  {
    hide ParseStep, Agree;
    var n := Reach(ParseBlock(isJson, lines, pos, v2, seqno));
    BlockReach(isJson, lines, pos, v2, seqno);
    AgreeAt(lines, other, n, pos);
    if StepLine(lines[pos]) {
      var r := ParseStep(isJson, lines, pos, v2);
      if r.Success? {
        BlockReach(isJson, lines, r.value.1, v2, seqno);
        AgreeLess(lines, other, n, r.value.1);
        StepLocal(isJson, lines, other, pos, v2);
        BlockLocal(isJson, lines, other, r.value.1, v2, seqno);
      } else {
        StepLocal(isJson, lines, other, pos, v2);
      }
    }
  }

  lemma {:induction false} BlockCompletes(isJson: string -> bool, lines: seq<string>, pos: nat, v2: bool, seqno: nat)
    returns (tail: seq<string>)
    requires pos <= |lines| && seqno <= U32_MAX && ParseBlock(isJson, lines, pos, v2, seqno).Failure?
    ensures var n := ParseBlock(isJson, lines, pos, v2, seqno).error.line;
            && pos < n <= |lines| + 1
            && var done := Completed(lines, n, tail);
               && ParseBlock(isJson, done, pos, v2, seqno).Success?
               && ParseBlock(isJson, done, pos, v2, seqno).value.1 == |done|
    decreases |lines| - pos
  {
    hide ParseStep, ParseUnsigned;
    BlockReach(isJson, lines, pos, v2, seqno);
    var n := ParseBlock(isJson, lines, pos, v2, seqno).error.line;
    if n == pos + 1 {
      tail := [EndLine(seqno)];
      BlockEnd(isJson, Completed(lines, n, tail), pos, v2, seqno);
    } else {
      var r := ParseStep(isJson, lines, pos, v2);
      if r.Success? {
        tail := BlockCompletes(isJson, lines, r.value.1, v2, seqno);
        CompletedAgrees(lines, n, tail);
        AgreeLess(lines, Completed(lines, n, tail), n - 1, r.value.1);
        StepLocal(isJson, lines, Completed(lines, n, tail), pos, v2);
      } else {
        var step := StepCompletes(isJson, lines, pos, v2);
        tail := step + [EndLine(seqno)];
        StepThenEnd(isJson, Completed(lines, n, step), pos, v2, seqno);
        assert Completed(lines, n, tail) == Completed(lines, n, step) + [EndLine(seqno)];
      }
    }
  }

  /** A step up to the end of the file, then the end line. */
  lemma StepThenEnd(isJson: string -> bool, lines: seq<string>, pos: nat, v2: bool, seqno: nat)
    requires pos < |lines| && StepLine(lines[pos]) && seqno <= U32_MAX
    requires ParseStep(isJson, lines, pos, v2).Success? && ParseStep(isJson, lines, pos, v2).value.1 == |lines|
    ensures var done := lines + [EndLine(seqno)];
            && ParseBlock(isJson, done, pos, v2, seqno).Success?
            && ParseBlock(isJson, done, pos, v2, seqno).value.1 == |done|
  {
    hide ParseStep, ParseUnsigned;
    var done := lines + [EndLine(seqno)];
    assert Agree(lines, done, |lines|);
    StepLocal(isJson, lines, done, pos, v2);
    BlockEnd(isJson, done, |lines|, v2, seqno);
  }

  // ---- items -------------------------------------------------------------------------------------------------------

  lemma ItemReach(isJson: string -> bool, lines: seq<string>, pos: nat, v2: bool)
    requires pos < |lines|
    ensures pos < Reach(ParseItem(isJson, lines, pos, v2)) <= |lines| + 1
  {
    hide ParseStep, ParseBegin, ParseBlock;
    var begin := ParseBegin(lines[pos]);
    if begin.Some? { BlockReach(isJson, lines, pos + 1, v2, begin.value.1); }
    StepReach(isJson, lines, pos, v2);
  }

  lemma ItemLocal(isJson: string -> bool, lines: seq<string>, other: seq<string>, pos: nat, v2: bool)
    requires pos < |lines| && Agree(lines, other, Reach(ParseItem(isJson, lines, pos, v2)))
    ensures pos < |other| && ParseItem(isJson, other, pos, v2) == ParseItem(isJson, lines, pos, v2)
  {
    hide ParseStep, ParseBegin, ParseBlock, Agree;
    ItemReach(isJson, lines, pos, v2);
    AgreeAt(lines, other, Reach(ParseItem(isJson, lines, pos, v2)), pos);
    if BEGIN <= lines[pos] {
      var begin := ParseBegin(lines[pos]);
      if begin.Some? { BlockLocal(isJson, lines, other, pos + 1, v2, begin.value.1); }
    } else if "--" <= lines[pos] {
      StepLocal(isJson, lines, other, pos, v2);
    }
  }

  lemma ItemCompletes(isJson: string -> bool, lines: seq<string>, pos: nat, v2: bool) returns (tail: seq<string>)
    requires pos < |lines| && ParseItem(isJson, lines, pos, v2).Failure?
    requires ParseItem(isJson, lines, pos, v2).error.line > pos + 1
    ensures var n := ParseItem(isJson, lines, pos, v2).error.line;
            && 0 < n <= |lines| + 1
            && var done := Completed(lines, n, tail);
               && pos < |done| && done[pos] == lines[pos]
               && ParseItem(isJson, done, pos, v2).Success? && ParseItem(isJson, done, pos, v2).value.1 == |done|
  {
    hide ParseStep, ParseBegin, ParseBlock;
    ItemReach(isJson, lines, pos, v2);
    var n := ParseItem(isJson, lines, pos, v2).error.line;
    if BEGIN <= lines[pos] {
      BeginIsTyped(lines[pos]);
      tail := BlockCompletes(isJson, lines, pos + 1, v2, ParseBegin(lines[pos]).value.1);
    } else {
      tail := StepCompletes(isJson, lines, pos, v2);
    }
    assert Completed(lines, n, tail)[pos] == lines[pos];
  }

  lemma {:induction false} ItemsReach(isJson: string -> bool, lines: seq<string>, pos: nat, v2: bool)
    requires pos <= |lines| && ParseItems(isJson, lines, pos, v2).Failure?
    ensures pos < ParseItems(isJson, lines, pos, v2).error.line <= |lines| + 1
    decreases |lines| - pos
  {
    hide ParseItem;
    if lines[pos] == "" {
      ItemsReach(isJson, lines, pos + 1, v2);
    } else {
      ItemReach(isJson, lines, pos, v2);
      var r := ParseItem(isJson, lines, pos, v2);
      if r.Success? { ItemsReach(isJson, lines, r.value.1, v2); }
    }
  }

  /** A file refused at one of its lines is refused there whatever follows that line. */
  lemma {:induction false} ItemsFailAlike(isJson: string -> bool, lines: seq<string>, other: seq<string>,
                                          pos: nat, v2: bool)
    requires pos <= |lines| && ParseItems(isJson, lines, pos, v2).Failure?
    requires Agree(lines, other, ParseItems(isJson, lines, pos, v2).error.line)
    ensures ParseItems(isJson, other, pos, v2) == ParseItems(isJson, lines, pos, v2)
    decreases |lines| - pos
  {
    hide ParseItem, Agree;
    var n := ParseItems(isJson, lines, pos, v2).error.line;
    ItemsReach(isJson, lines, pos, v2);
    AgreeAt(lines, other, n, pos);
    if lines[pos] == "" {
      ItemsFailAlike(isJson, lines, other, pos + 1, v2);
    } else {
      var r := ParseItem(isJson, lines, pos, v2);
      if r.Success? {
        ItemsReach(isJson, lines, r.value.1, v2);
        AgreeLess(lines, other, n, r.value.1);
        ItemLocal(isJson, lines, other, pos, v2);
        ItemsFailAlike(isJson, lines, other, r.value.1, v2);
      } else {
        ItemLocal(isJson, lines, other, pos, v2);
      }
    }
  }

  /** The lines before the one at fault can be continued to a file that is accepted. */
  lemma {:induction false} ItemsComplete(isJson: string -> bool, lines: seq<string>, pos: nat, v2: bool)
    returns (tail: seq<string>)
    requires pos <= |lines| && ParseItems(isJson, lines, pos, v2).Failure?
    ensures var n := ParseItems(isJson, lines, pos, v2).error.line;
            pos < n <= |lines| + 1 && ParseItems(isJson, Completed(lines, n, tail), pos, v2).Success?
    decreases |lines| - pos
  {
    hide ParseItem;
    var n := ParseItems(isJson, lines, pos, v2).error.line;
    ItemsReach(isJson, lines, pos, v2);
    if n == pos + 1 {
      tail := [];
    } else if lines[pos] == "" {
      tail := ItemsComplete(isJson, lines, pos + 1, v2);
      assert Completed(lines, n, tail)[pos] == "";
    } else {
      var r := ParseItem(isJson, lines, pos, v2);
      if r.Success? {
        tail := ItemsComplete(isJson, lines, r.value.1, v2);
        var done := Completed(lines, n, tail);
        CompletedAgrees(lines, n, tail);
        AgreeLess(lines, done, n - 1, r.value.1);
        ItemLocal(isJson, lines, done, pos, v2);
        assert done[pos] == lines[pos];
      } else {
        tail := ItemCompletes(isJson, lines, pos, v2);
      }
    }
  }

  // ---- the file ----------------------------------------------------------------------------------------------------

  predicate Accepted(isJson: string -> bool, lines: seq<string>) {
    var header := ParseHeader(lines);
    header.Success? && ParseItems(isJson, lines, 2, header.value.1).Success?
  }

  /** What is accepted line by line needs no more checks. */
  lemma AcceptedIff(isJson: string -> bool, text: string)
    ensures ParsePlan(isJson, text).Success? <==> Accepted(isJson, LinesOf(text))
    ensures !Accepted(isJson, LinesOf(text)) ==> ParsePlan(isJson, text).error == ErrorOf(isJson, LinesOf(text))
  {
    hide ParseHeader, ParseItems, LinesOf, Validate, Typed, PlanIsV2, ValidHeader;
    hide AllSound, ItemsSpelled, HeaderSpelled;
    var lines := LinesOf(text);
    if Accepted(isJson, lines) {
      var (header, v2) := ParseHeader(lines).value;
      var items := ParseItems(isJson, lines, 2, v2).value;
      HeaderIsSpelled(lines, header, v2);
      ItemsAreSpelled(isJson, lines, 2, v2, items);
      SoundIff(isJson, Plan(header, items), v2);
    }
  }

  function ErrorOf(isJson: string -> bool, lines: seq<string>): PlanError
    requires !Accepted(isJson, lines)
  {
    var header := ParseHeader(lines);
    if header.Failure? then header.error else ParseItems(isJson, lines, 2, header.value.1).error
  }

  /** Some continuation is accepted. */
  ghost predicate Viable(isJson: string -> bool, lines: seq<string>) {
    exists more :: Accepted(isJson, lines + more)
  }

  lemma ViableShorter(isJson: string -> bool, lines: seq<string>, n: nat)
    requires Viable(isJson, lines) && n <= |lines|
    ensures Viable(isJson, lines[..n])
  {
    hide Accepted;
    var more :| Accepted(isJson, lines + more);
    assert lines[..n] + (lines[n..] + more) == lines + more;
  }

  /** The line to report: what comes before it can still become a plan file, with it nothing can. */
  ghost predicate FirstBad(isJson: string -> bool, lines: seq<string>, n: nat) {
    && 0 < n <= |lines| + 1 && Viable(isJson, lines[..n - 1])
    && (n <= |lines| ==> !Viable(isJson, lines[..n]))
  }

  lemma FirstBadUnique(isJson: string -> bool, lines: seq<string>, n: nat, m: nat)
    requires FirstBad(isJson, lines, n) && FirstBad(isJson, lines, m)
    ensures n == m
  {
    hide Viable;
    if n < m { NotBefore(isJson, lines, n, m); }
    if m < n { NotBefore(isJson, lines, m, n); }
  }

  lemma NotBefore(isJson: string -> bool, lines: seq<string>, n: nat, m: nat)
    requires n < m && 0 < m <= |lines| + 1 && Viable(isJson, lines[..m - 1])
    ensures Viable(isJson, lines[..n])
  {
    hide Viable;
    ViableShorter(isJson, lines[..m - 1], n);
    assert lines[..m - 1][..n] == lines[..n];
  }

  const SOME_HEADER := PlanHeader(0, "p", "a", "g")

  lemma HeaderLineAtFault(lines: seq<string>)
    requires ParseHeader(lines).Failure?
    ensures var n := ParseHeader(lines).error.line;
            (n == 1 || (n == 2 && |lines| > 0 && (lines[0] == HEADER_V1 || lines[0] == HEADER_V2))) && n <= |lines| + 1
  {
    hide Split, ParseUnsigned, ValidHeader;
  }

  lemma ShortFile(isJson: string -> bool, first: string)
    requires first == HEADER_V1 || first == HEADER_V2
    ensures Accepted(isJson, [first, HeaderLine(SOME_HEADER)])
  {
    hide ParseHeader, HeaderLine;
    SomeHeaderOk();
    HeaderRoundTrip([first, HeaderLine(SOME_HEADER)], SOME_HEADER, first == HEADER_V2);
  }

  lemma HeaderCompletes(isJson: string -> bool, lines: seq<string>)
    requires ParseHeader(lines).Failure?
    ensures var n := ParseHeader(lines).error.line; 0 < n <= |lines| + 1 && Viable(isJson, lines[..n - 1])
  {
    hide ParseHeader, HeaderLine, Accepted;
    HeaderLineAtFault(lines);
    var n := ParseHeader(lines).error.line;
    var first := if n == 1 then HEADER_V1 else lines[0];
    ShortFile(isJson, first);
    var done := [first, HeaderLine(SOME_HEADER)];
    assert done == lines[..n - 1] + done[n - 1..];
  }

  lemma SomeHeaderOk()
    ensures ValidHeader(SOME_HEADER) && SOME_HEADER.seed <= U64_MAX
  {
  }

  lemma HeaderFailsAlike(lines: seq<string>, other: seq<string>)
    requires ParseHeader(lines).Failure? && Agree(lines, other, ParseHeader(lines).error.line)
    ensures ParseHeader(other).Failure?
  {
    hide Split, ParseUnsigned, ValidHeader;
    AgreeAt(lines, other, ParseHeader(lines).error.line, 0);
    if ParseHeader(lines).error.line == 2 { AgreeAt(lines, other, 2, 1); }
  }

  lemma HeaderKept(lines: seq<string>, other: seq<string>)
    requires ParseHeader(lines).Success? && Agree(lines, other, 2)
    ensures ParseHeader(other) == ParseHeader(lines)
  {
    hide Split, ParseUnsigned, ValidHeader;
    AgreeAt(lines, other, 2, 0);
    AgreeAt(lines, other, 2, 1);
  }

  lemma BeforeIsViable(isJson: string -> bool, lines: seq<string>)
    requires !Accepted(isJson, lines)
    ensures var n := ErrorOf(isJson, lines).line; 0 < n <= |lines| + 1 && Viable(isJson, lines[..n - 1])
  {
    hide ParseHeader, ParseItems;
    if ParseHeader(lines).Failure? {
      HeaderCompletes(isJson, lines);
    } else {
      SeedFits(lines);
      var v2 := ParseHeader(lines).value.1;
      var tail := ItemsComplete(isJson, lines, 2, v2);
      var n := ErrorOf(isJson, lines).line;
      var done := Completed(lines, n, tail);
      CompletedAgrees(lines, n, tail);
      AgreeLess(lines, done, n - 1, 2);
      HeaderKept(lines, done);
      assert Accepted(isJson, done);
    }
  }

  lemma BadForGood(isJson: string -> bool, lines: seq<string>, more: seq<string>)
    requires !Accepted(isJson, lines) && ErrorOf(isJson, lines).line <= |lines|
    ensures !Accepted(isJson, lines[..ErrorOf(isJson, lines).line] + more)
  {
    hide ParseHeader, ParseItems;
    var n := ErrorOf(isJson, lines).line;
    var other := lines[..n] + more;
    assert Agree(lines, other, n);
    if ParseHeader(lines).Failure? {
      HeaderFailsAlike(lines, other);
    } else {
      SeedFits(lines);
      var v2 := ParseHeader(lines).value.1;
      ItemsReach(isJson, lines, 2, v2);
      AgreeLess(lines, other, n, 2);
      HeaderKept(lines, other);
      ItemsFailAlike(isJson, lines, other, 2, v2);
    }
  }

  /** A refused file is refused at the first line that no continuation can make good, and at no other. */
  lemma ErrorExact(isJson: string -> bool, text: string, n: nat)
    requires ParsePlan(isJson, text).Failure?
    ensures ParsePlan(isJson, text) == Failure(PlanError(n)) <==> FirstBad(isJson, LinesOf(text), n)
  {
    hide ParsePlan, Accepted, ErrorOf, LinesOf;
    var lines := LinesOf(text);
    AcceptedIff(isJson, text);
    BeforeIsViable(isJson, lines);
    var e := ErrorOf(isJson, lines).line;
    if e <= |lines| && Viable(isJson, lines[..e]) {
      var more :| Accepted(isJson, lines[..e] + more);
      BadForGood(isJson, lines, more);
    }
    assert FirstBad(isJson, lines, e);
    if FirstBad(isJson, lines, n) { FirstBadUnique(isJson, lines, n, e); }
  }
}
