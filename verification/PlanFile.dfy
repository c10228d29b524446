/** The whole plan file: the two loops of the parser, the printer, and the law that joins them. */
module PlanFile {
  import opened Common
  import opened Strings
  import opened Decimal
  import opened Plan
  import opened PlanText
  import opened PlanRoundTrip

  const BEGIN := "-- begin property "
  const END := "-- end property seq="

  /** The rest of a property block and the position after it. */
  function ParseBlock(isJson: string -> bool, lines: seq<string>, pos: nat, v2: bool, seqno: nat):
      (r: Parsed<(seq<Step>, nat)>)
    ensures r.Success? ==> pos < r.value.1 <= |lines|
    decreases |lines| - pos
  {
    if pos >= |lines| || lines[pos] == "" then Failure(PlanError(pos + 1))
    else if END <= lines[pos] then
      if ParseUnsigned(lines[pos][20..], U32_MAX) == Some(seqno) then Success(([], pos + 1)) else Failure(PlanError(pos + 1))
    else if BEGIN <= lines[pos] || !("--" <= lines[pos]) then Failure(PlanError(pos + 1))
    else match ParseStep(isJson, lines, pos, v2)
      case Failure(e) => Failure(e)
      case Success((step, next)) =>
        match ParseBlock(isJson, lines, next, v2, seqno)
        case Failure(e) => Failure(e)
        case Success((steps, end)) => Success(([step] + steps, end))
  }

  /** A block or a single step, at a line that is not blank. */
  function ParseItem(isJson: string -> bool, lines: seq<string>, pos: nat, v2: bool): (r: Parsed<(PlanItem, nat)>)
    requires pos < |lines|
    ensures r.Success? ==> pos < r.value.1 <= |lines|
  {
    if BEGIN <= lines[pos] then
      match ParseBegin(lines[pos])
      case None => Failure(PlanError(pos + 1))
      case Some((name, seqno, tables)) =>
        match ParseBlock(isJson, lines, pos + 1, v2, seqno)
        case Failure(e) => Failure(e)
        case Success((steps, end)) => Success((Property(name, seqno, tables, steps), end))
    else if !("--" <= lines[pos]) then Failure(PlanError(pos + 1))
    else match ParseStep(isJson, lines, pos, v2)
      case Failure(e) => Failure(e)
      case Success((step, next)) => Success((Single(step), next))
  }

  function ParseItems(isJson: string -> bool, lines: seq<string>, pos: nat, v2: bool): Parsed<seq<PlanItem>>
    decreases |lines| - pos
  {
    if pos >= |lines| then Success([])
    else if lines[pos] == "" then ParseItems(isJson, lines, pos + 1, v2)
    else match ParseItem(isJson, lines, pos, v2)
      case Failure(e) => Failure(e)
      case Success((item, next)) =>
        match ParseItems(isJson, lines, next, v2)
        case Failure(e) => Failure(e)
        case Success(items) => Success([item] + items)
  }

  function ParsePlan(isJson: string -> bool, text: string): Parsed<Plan> {
    var lines := LinesOf(text);
    match ParseHeader(lines)
    case Failure(e) => Failure(e)
    case Success((header, v2)) =>
      match ParseItems(isJson, lines, 2, v2)
      case Failure(e) => Failure(e)
      case Success(items) =>
        var plan := Plan(header, items);
        if Validate(plan) then Success(plan) else Failure(PlanError(0))
  }

  // ---- the law --------------------------------------------------------------------------------------------

  lemma EndRoundTrip(seqno: nat)
    requires seqno <= U32_MAX
    ensures END <= EndLine(seqno) && ParseUnsigned(EndLine(seqno)[20..], U32_MAX) == Some(seqno) && EndLine(seqno) != ""
  {
    StripOwn(END, Dec(seqno));
    ParseOfDec(seqno, U32_MAX);
  }

  predicate StepSound(isJson: string -> bool, step: Step, v2: bool) {
    ValidStep(step) && TypedStep(isJson, step) && (IsV2(step) ==> v2)
  }

  predicate StepsSound(isJson: string -> bool, steps: seq<Step>, v2: bool) {
    forall i :: 0 <= i < |steps| ==> StepSound(isJson, steps[i], v2)
  }

  /** A line that can start a step. */
  predicate StepLine(line: string) {
    line != "" && "--" <= line && !(BEGIN <= line) && !(END <= line)
  }

  /** A step's lines, more lines after them: the step is read and the rest comes next. */
  lemma StepThenRest(isJson: string -> bool, lines: seq<string>, pos: nat, v2: bool, step: Step, rest: seq<string>)
    requires StepSound(isJson, step, v2)
    requires At(lines, pos, StepLines(step) + rest)
    ensures pos < |lines| && StepLine(lines[pos])
    ensures ParseStep(isJson, lines, pos, v2) == Success((step, pos + |StepLines(step)|))
    ensures At(lines, pos + |StepLines(step)|, rest)
  {
    hide ParseStep, StepLines, ValidStep, TypedStep;
    var first := StepLines(step);
    AtSplit(lines, pos, first, rest);
    AtIndex(lines, pos, first, 0);
    StepHead(step);
    StepRoundTrip(isJson, lines, pos, v2, step);
  }

  lemma BlockCons(isJson: string -> bool, lines: seq<string>, pos: nat, v2: bool, seqno: nat,
                  step: Step, next: nat, steps: seq<Step>, end: nat)
    requires pos < |lines| && StepLine(lines[pos])
    requires ParseStep(isJson, lines, pos, v2) == Success((step, next))
    requires ParseBlock(isJson, lines, next, v2, seqno) == Success((steps, end))
    ensures ParseBlock(isJson, lines, pos, v2, seqno) == Success(([step] + steps, end))
  {
  }

  lemma BlockEnd(isJson: string -> bool, lines: seq<string>, pos: nat, v2: bool, seqno: nat)
    requires At(lines, pos, [EndLine(seqno)]) && seqno <= U32_MAX
    ensures ParseBlock(isJson, lines, pos, v2, seqno) == Success(([], pos + 1))
  {
    AtIndex(lines, pos, [EndLine(seqno)], 0);
    EndRoundTrip(seqno);
  }

  lemma {:induction false} BlockRoundTrip(isJson: string -> bool, lines: seq<string>, pos: nat, v2: bool, seqno: nat, steps: seq<Step>)
    requires At(lines, pos, StepsLines(steps) + [EndLine(seqno)]) && seqno <= U32_MAX
    requires StepsSound(isJson, steps, v2)
    ensures ParseBlock(isJson, lines, pos, v2, seqno) == Success((steps, pos + |StepsLines(steps)| + 1))
    decreases |steps|
  {
    hide ParseStep, StepLines, ParseBlock, StepSound;
    if steps == [] {
      assert StepsLines(steps) + [EndLine(seqno)] == [EndLine(seqno)];
      BlockEnd(isJson, lines, pos, v2, seqno);
    } else {
      var first, rest := StepLines(steps[0]), StepsLines(steps[1..]) + [EndLine(seqno)];
      var next := pos + |first|;
      var end := next + |StepsLines(steps[1..])| + 1;
      assert StepsLines(steps) + [EndLine(seqno)] == first + rest && end == pos + |StepsLines(steps)| + 1;
      assert At(lines, next, rest) by { StepThenRest(isJson, lines, pos, v2, steps[0], rest); }
      BlockRoundTrip(isJson, lines, next, v2, seqno, steps[1..]);
      StepThenRest(isJson, lines, pos, v2, steps[0], rest);
      BlockCons(isJson, lines, pos, v2, seqno, steps[0], next, steps[1..], end);
      assert [steps[0]] + steps[1..] == steps;
    }
  }

  predicate Sound(isJson: string -> bool, item: PlanItem, v2: bool) {
    ValidItem(item) && TypedItem(isJson, item) && (ItemIsV2(item) ==> v2)
  }

  lemma BeginHead(name: string, seqno: nat, tables: seq<string>)
    ensures BEGIN <= BeginLine(name, seqno, tables) && BeginLine(name, seqno, tables) != ""
  {
    assert "-- begin property '" == BEGIN + "'";
    assert BeginLine(name, seqno, tables)[..18] == BEGIN;
  }

  lemma SingleRoundTrip(isJson: string -> bool, lines: seq<string>, pos: nat, v2: bool, step: Step)
    requires Sound(isJson, Single(step), v2) && At(lines, pos, StepLines(step))
    ensures pos < |lines| && lines[pos] != ""
    ensures ParseItem(isJson, lines, pos, v2) == Success((Single(step), pos + |StepLines(step)|))
  {
    assert StepLines(step) + [] == StepLines(step);
    StepThenRest(isJson, lines, pos, v2, step, []);
  }

  lemma PropertyCons(isJson: string -> bool, lines: seq<string>, pos: nat, v2: bool, item: PlanItem, end: nat)
    requires item.Property? && pos < |lines| && BEGIN <= lines[pos]
    requires ParseBegin(lines[pos]) == Some((item.name, item.seqno, item.tables))
    requires ParseBlock(isJson, lines, pos + 1, v2, item.seqno) == Success((item.steps, end))
    ensures ParseItem(isJson, lines, pos, v2) == Success((item, end))
  {
  }

  lemma PropertySound(isJson: string -> bool, item: PlanItem, v2: bool)
    requires item.Property? && Sound(isJson, item, v2)
    ensures StepsSound(isJson, item.steps, v2) && ValidProperty(item.name, item.tables)
    ensures Ascending(item.tables) && item.seqno <= U32_MAX
  {
    hide ValidStep, TypedStep, IsV2;
  }

  lemma PropertyAt(lines: seq<string>, pos: nat, item: PlanItem)
    requires item.Property? && At(lines, pos, ItemLines(item))
    ensures pos < |lines| && lines[pos] == BeginLine(item.name, item.seqno, item.tables)
    ensures At(lines, pos + 1, StepsLines(item.steps) + [EndLine(item.seqno)])
    ensures |ItemLines(item)| == |StepsLines(item.steps)| + 2
  {
    hide BeginLine, EndLine, StepsLines;
    var begin := BeginLine(item.name, item.seqno, item.tables);
    var body := StepsLines(item.steps) + [EndLine(item.seqno)];
    assert ItemLines(item) == [begin] + body;
    AtSplit(lines, pos, [begin], body);
    AtIndex(lines, pos, [begin], 0);
  }

  lemma PropertyRoundTrip(isJson: string -> bool, lines: seq<string>, pos: nat, v2: bool, item: PlanItem)
    requires item.Property? && Sound(isJson, item, v2) && At(lines, pos, ItemLines(item))
    ensures pos < |lines| && lines[pos] != ""
    ensures ParseItem(isJson, lines, pos, v2) == Success((item, pos + |ItemLines(item)|))
  {
    hide *;
    PropertySound(isJson, item, v2);
    PropertyAt(lines, pos, item);
    BeginHead(item.name, item.seqno, item.tables);
    BeginRoundTrip(item.name, item.seqno, item.tables);
    BlockRoundTrip(isJson, lines, pos + 1, v2, item.seqno, item.steps);
    PropertyCons(isJson, lines, pos, v2, item, pos + |ItemLines(item)|);
  }

  lemma ItemRoundTrip(isJson: string -> bool, lines: seq<string>, pos: nat, v2: bool, item: PlanItem)
    requires Sound(isJson, item, v2) && At(lines, pos, ItemLines(item))
    ensures pos < |lines| && lines[pos] != ""
    ensures ParseItem(isJson, lines, pos, v2) == Success((item, pos + |ItemLines(item)|))
  {
    hide ParseItem, ParseStep, StepLines, ValidItem, TypedItem;
    if item.Single? {
      SingleRoundTrip(isJson, lines, pos, v2, item.step);
    } else {
      PropertyRoundTrip(isJson, lines, pos, v2, item);
    }
  }

  lemma ItemsCons(isJson: string -> bool, lines: seq<string>, pos: nat, v2: bool, item: PlanItem, next: nat, items: seq<PlanItem>)
    requires pos + 1 < |lines| && lines[pos] == "" && lines[pos + 1] != ""
    requires ParseItem(isJson, lines, pos + 1, v2) == Success((item, next))
    requires ParseItems(isJson, lines, next, v2) == Success(items)
    ensures ParseItems(isJson, lines, pos, v2) == Success([item] + items)
  {
    assert ParseItems(isJson, lines, pos, v2) == ParseItems(isJson, lines, pos + 1, v2);
  }

  lemma ItemsEnd(isJson: string -> bool, lines: seq<string>, pos: nat, v2: bool)
    requires pos == |lines|
    ensures ParseItems(isJson, lines, pos, v2) == Success([])
  {
  }

  lemma {:induction false} ItemsRoundTrip(isJson: string -> bool, lines: seq<string>, pos: nat, v2: bool, items: seq<PlanItem>)
    requires At(lines, pos, ItemsLines(items)) && pos + |ItemsLines(items)| == |lines|
    requires forall i :: 0 <= i < |items| ==> Sound(isJson, items[i], v2)
    ensures ParseItems(isJson, lines, pos, v2) == Success(items)
    decreases |items|
  {
    hide ParseItem, ItemLines, ParseItems, Sound;
    if items == [] {
      ItemsEnd(isJson, lines, pos, v2);
    } else {
      var first, rest := ItemLines(items[0]), ItemsLines(items[1..]);
      assert ItemsLines(items) == [""] + (first + rest);
      AtSplit(lines, pos, [""], first + rest);
      AtIndex(lines, pos, [""], 0);
      AtSplit(lines, pos + 1, first, rest);
      ItemRoundTrip(isJson, lines, pos + 1, v2, items[0]);
      ItemsRoundTrip(isJson, lines, pos + 1 + |first|, v2, items[1..]);
      ItemsCons(isJson, lines, pos, v2, items[0], pos + 1 + |first|, items[1..]);
      assert [items[0]] + items[1..] == items;
    }
  }

  // ---- every printed line survives being a line of a text ---------------------------------------------------------

  predicate AllPlain(lines: seq<string>) {
    forall i :: 0 <= i < |lines| ==> PlainLine(lines[i])
  }

  /** No line break inside, and a last part that is not empty and has no carriage return. */
  lemma PlainEnd(a: string, b: string)
    requires '\n' !in a && OneLine(b) && b != ""
    ensures PlainLine(a + b)
  {
    assert (a + b)[|a + b| - 1] == b[|b| - 1];
  }

  lemma MarkLinePlain(sql: Sql)
    ensures PlainLine(MarkLine(sql))
  {
    var words := MarkWords(sql);
    MarkWordsOneLine(sql);
    JoinAvoids(words, ' ', '\n');
    JoinAvoids(words, ' ', '\r');
    var rest := Strings.Join(words, ' ');
    assert rest != "" by { assert |words[0]| > 0; }
    PlainEnd("-- MARK ", rest);
  }

  lemma MarkWordsOneLine(sql: Sql)
    ensures forall i :: 0 <= i < |MarkWords(sql)| ==> OneLine(MarkWords(sql)[i])
  {
    assert OneLine("read") && OneLine("mutation") && OneLine("passthrough") && OneLine(ORDER_FLAG) && OneLine(FLOAT_FLAG);
  }

  lemma IdentOneLine(s: string)
    requires IsIdent(s)
    ensures OneLine(s)
  {
    IdentAvoids(s, '\n');
    IdentAvoids(s, '\r');
  }

  lemma DecOneLine(n: nat)
    ensures OneLine(Dec(n)) && Dec(n) != ""
  {
    DigitsAvoid(Dec(n), '\n');
    DigitsAvoid(Dec(n), '\r');
  }

  lemma WordOneLine(s: string)
    requires NoWs(s)
    ensures OneLine(s) && s != ""
  {
    WordAvoids(s, '\n');
    WordAvoids(s, '\r');
  }

  lemma SqlLinesPlain(tag: string, sql: Sql)
    requires PlainLine(tag) && SqlOk(sql.text)
    ensures AllPlain([tag, MarkLine(sql), sql.text])
  {
    MarkLinePlain(sql);
  }

  lemma JsonPlain(tag: string, json: string)
    requires '\n' !in tag && tag != "" && tag[|tag| - 1] != '\r' && OneLine(json)
    ensures PlainLine(tag + json)
  {
  }

  lemma NumberPlain(tag: string, n: nat)
    requires '\n' !in tag
    ensures PlainLine(tag + Dec(n))
  {
    DecOneLine(n);
    PlainEnd(tag, Dec(n));
  }

  lemma StepLinesPlain(isJson: string -> bool, step: Step)
    requires ValidStep(step) && TypedStep(isJson, step)
    ensures AllPlain(StepLines(step))
  {
    hide PlainLine, MarkLine, TxText, ArmText, FaultText, Dec;
    match step
    case Ddl(sql) => TagsPlain(); SqlLinesPlain("-- STEP " + "ddl", sql);
    case Dml(sql) => TagsPlain(); SqlLinesPlain("-- STEP " + "dml", sql);
    case Query(sql) => TagsPlain(); SqlLinesPlain("-- STEP " + "query", sql);
    case Tx(tx) => TxPlain(tx);
    case Arm(arm) => ArmPlain(arm);
    case Assumption(json) => JsonPlain("-- ASSUME ", json);
    case Assertion(json) => JsonPlain("-- ASSERT ", json);
    case Fault(fault) => FaultPlain(fault);
    case Session(id) => NumberPlain("-- SESSION switch ", id);
    case Join(id) => NumberPlain("-- SESSION join ", id);
    case AsyncDml(sql) => TagsPlain(); SqlLinesPlain("-- SESSION async-dml", sql);
    case WaitUntil(sql) => TagsPlain(); SqlLinesPlain("-- SESSION wait-until", sql);
  }

  lemma TagsPlain()
    ensures PlainLine("-- STEP " + "ddl") && PlainLine("-- STEP " + "dml") && PlainLine("-- STEP " + "query")
    ensures PlainLine("-- SESSION async-dml") && PlainLine("-- SESSION wait-until")
  {
  }

  lemma TxPlain(tx: TxCtl)
    requires ValidStep(Tx(tx))
    ensures PlainLine("-- TX " + TxText(tx))
  {
    if tx.Savepoint? || tx.RollbackTo? { IdentOneLine(tx.name); }
  }

  lemma ArmPlain(arm: ArmCtl)
    requires ValidStep(Arm(arm))
    ensures PlainLine("-- ARM " + ArmText(arm))
  {
    if arm.SetGuc? { KeyOneLine(arm.key); }
    assert OneLine(ArmText(arm)) && ArmText(arm) != "";
    PlainEnd("-- ARM ", ArmText(arm));
  }

  lemma KeyOneLine(k: string)
    requires IsIdent(DotsToUnderscores(k))
    ensures OneLine(k)
  {
    forall i | 0 <= i < |k|
      ensures k[i] != '\n' && k[i] != '\r'
    {
      assert IsIdentChar(DotsToUnderscores(k)[i]);
    }
  }

  lemma FaultPlain(fault: FaultPoint)
    requires ValidStep(Fault(fault))
    ensures PlainLine("-- FAULT " + FaultText(fault))
  {
    if fault.Crash? || fault.Env? { WordOneLine(fault.point); }
  }

  lemma {:induction false} StepsLinesPlain(isJson: string -> bool, steps: seq<Step>)
    requires forall i :: 0 <= i < |steps| ==> ValidStep(steps[i]) && TypedStep(isJson, steps[i])
    ensures AllPlain(StepsLines(steps))
    decreases |steps|
  {
    hide StepLines, ValidStep, TypedStep, PlainLine;
    if steps != [] {
      StepLinesPlain(isJson, steps[0]);
      StepsLinesPlain(isJson, steps[1..]);
    }
  }

  lemma TablesPlain(tables: seq<string>)
    requires forall i :: 0 <= i < |tables| ==> IsIdent(tables[i])
    ensures OneLine(TablesText(tables))
  {
    forall i | 0 <= i < |tables|
      ensures OneLine(tables[i])
    {
      IdentOneLine(tables[i]);
    }
    JoinAvoids(tables, ',', '\n');
    JoinAvoids(tables, ',', '\r');
  }

  lemma BeginLinePlain(name: string, seqno: nat, tables: seq<string>)
    requires ValidProperty(name, tables)
    ensures PlainLine(BeginLine(name, seqno, tables))
  {
    var front := "-- begin property '" + name + "' seq=";
    var back := Dec(seqno) + TablesText(tables);
    assert BeginLine(name, seqno, tables) == front + back;
    DecOneLine(seqno);
    TablesPlain(tables);
    PlainEnd(front, back);
  }

  lemma ItemLinesPlain(isJson: string -> bool, item: PlanItem)
    requires ValidItem(item) && TypedItem(isJson, item)
    ensures AllPlain(ItemLines(item))
  {
    match item
    case Single(step) => StepLinesPlain(isJson, step);
    case Property(name, seqno, tables, steps) =>
      BeginLinePlain(name, seqno, tables);
      StepsLinesPlain(isJson, steps);
      DecOneLine(seqno);
      PlainEnd(END, Dec(seqno));
      PlainAround(BeginLine(name, seqno, tables), StepsLines(steps), EndLine(seqno));
  }

  lemma PlainAround(a: string, b: seq<string>, c: string)
    requires PlainLine(a) && AllPlain(b) && PlainLine(c)
    ensures AllPlain([a] + b + [c])
  {
    hide PlainLine;
  }

  lemma {:induction false} ItemsLinesPlain(isJson: string -> bool, items: seq<PlanItem>)
    requires forall i :: 0 <= i < |items| ==> ValidItem(items[i]) && TypedItem(isJson, items[i])
    ensures AllPlain(ItemsLines(items))
    decreases |items|
  {
    assert PlainLine("");
    hide ItemLines, ValidItem, TypedItem, PlainLine;
    if items != [] {
      ItemLinesPlain(isJson, items[0]);
      ItemsLinesPlain(isJson, items[1..]);
    }
  }

  lemma HeaderLinePlain(h: PlanHeader)
    requires ValidHeader(h)
    ensures PlainLine(HeaderLine(h))
  {
    var w := HeaderWords(h);
    HeaderWordsOneLine(h);
    JoinAvoids(w, ' ', '\n');
    JoinAvoids(w, ' ', '\r');
    assert Strings.Join(w, ' ') != "";
    PlainEnd("-- seed: ", Strings.Join(w, ' '));
  }

  lemma HeaderWordsOneLine(h: PlanHeader)
    requires ValidHeader(h)
    ensures forall i :: 0 <= i < |HeaderWords(h)| ==> OneLine(HeaderWords(h)[i])
  {
    var w := HeaderWords(h);
    assert OneLine(w[0]) by { DecOneLine(h.seed); }
    assert OneLine(w[1]) && OneLine(w[3]) && OneLine(w[5]);
    assert OneLine(w[2]) by { WordOneLine(h.profile); }
    assert OneLine(w[4]);
    assert OneLine(w[6]) by { WordOneLine(h.generator); }
  }

  lemma HeaderStart()
    ensures '\n' !in "-- simharness plan "
  {
  }

  lemma FirstHeader()
    ensures OneLine("v1 (serial single-session)") && "v1 (serial single-session)" != ""
  {
  }

  lemma SecondHeader()
    ensures OneLine("v2 (multi-session)") && "v2 (multi-session)" != ""
  {
  }

  lemma FirstLinesPlain()
    ensures PlainLine(HEADER_V1) && PlainLine(HEADER_V2)
  {
    hide OneLine, PlainLine;
    HeaderStart();
    FirstHeader();
    SecondHeader();
    PlainEnd("-- simharness plan ", "v1 (serial single-session)");
    PlainEnd("-- simharness plan ", "v2 (multi-session)");
  }

  lemma PlanLinesPlain(isJson: string -> bool, plan: Plan)
    requires Validate(plan) && Typed(isJson, plan)
    ensures AllPlain(PlanLines(plan))
  {
    var first := if PlanIsV2(plan) then HEADER_V2 else HEADER_V1;
    assert PlainLine(first) by { FirstLinesPlain(); }
    HeaderLinePlain(plan.header);
    ItemsLinesPlain(isJson, plan.items);
    PlainFront(first, HeaderLine(plan.header), ItemsLines(plan.items));
  }

  lemma PlainFront(a: string, b: string, c: seq<string>)
    requires PlainLine(a) && PlainLine(b) && AllPlain(c)
    ensures AllPlain([a, b] + c)
  {
    hide PlainLine;
  }

  function Render(plan: Plan): string { TextOf(PlanLines(plan)) }

  lemma ItemsSound(isJson: string -> bool, plan: Plan)
    requires Validate(plan) && Typed(isJson, plan)
    ensures forall i :: 0 <= i < |plan.items| ==> Sound(isJson, plan.items[i], PlanIsV2(plan))
  {
    hide ValidItem, TypedItem, ItemIsV2;
  }

  /** Every valid plan, printed and read back, is the same plan. */
  lemma ParseOfRender(isJson: string -> bool, plan: Plan)
    requires Validate(plan) && Typed(isJson, plan)
    ensures ParsePlan(isJson, Render(plan)) == Success(plan)
  {
    hide ParseHeader, ParseItems, HeaderLine, ItemsLines, Sound, LinesOf, TextOf, PlainLine;
    var lines, v2 := PlanLines(plan), PlanIsV2(plan);
    PlanLinesPlain(isJson, plan);
    LinesOfText(lines);
    HeaderRoundTrip(lines, plan.header, v2);
    ItemsSound(isJson, plan);
    assert At(lines, 2, ItemsLines(plan.items)) by { assert lines[2..] == ItemsLines(plan.items); }
    ItemsRoundTrip(isJson, lines, 2, v2, plan.items);
  }

  // ---- what the parser accepts ------------------------------------------------------------------------------

  predicate StepFits(isJson: string -> bool, step: Step, v2: bool) {
    TypedStep(isJson, step) && (IsV2(step) ==> v2)
  }

  predicate StepsFit(isJson: string -> bool, steps: seq<Step>, v2: bool) {
    forall i :: 0 <= i < |steps| ==> StepFits(isJson, steps[i], v2)
  }

  predicate ItemFits(isJson: string -> bool, item: PlanItem, v2: bool) {
    TypedItem(isJson, item) && (ItemIsV2(item) ==> v2)
  }

  predicate ItemsFit(isJson: string -> bool, items: seq<PlanItem>, v2: bool) {
    forall i :: 0 <= i < |items| ==> ItemFits(isJson, items[i], v2)
  }

  lemma StepIsTyped(isJson: string -> bool, lines: seq<string>, pos: nat, v2: bool)
    requires pos < |lines|
    ensures var r := ParseStep(isJson, lines, pos, v2); r.Success? ==> StepFits(isJson, r.value.0, v2)
  {
    hide ParseTx, ParseArm, ParseFault, ParseSession, ParseSqlStep;
    var line := lines[pos];
    if "-- SESSION " <= line { SessionIsTyped(isJson, lines, pos, line[11..]); }
    SessionIsTyped(isJson, lines, pos, "");
    if "-- STEP " <= line { SqlStepIsTyped(isJson, lines, pos, line[8..]); }
  }

  lemma SessionIsTyped(isJson: string -> bool, lines: seq<string>, pos: nat, body: string)
    requires pos < |lines|
    ensures var r := ParseSession(lines, pos, body); r.Success? ==> TypedStep(isJson, r.value.0)
  {
    SqlIsTyped(lines, pos + 1, false);
    hide ParseMarkedSql, ParseUnsigned, SqlOk;
  }

  lemma SqlStepIsTyped(isJson: string -> bool, lines: seq<string>, pos: nat, kind: string)
    requires pos < |lines|
    ensures var r := ParseSqlStep(lines, pos, kind); r.Success? ==> TypedStep(isJson, r.value.0) && !IsV2(r.value.0)
  {
    SqlIsTyped(lines, pos + 1, true);
    hide ParseMarkedSql, SqlOk;
  }

  lemma SqlIsTyped(lines: seq<string>, pos: nat, strict: bool)
    ensures var r := ParseMarkedSql(lines, pos, strict); r.Success? ==> SqlOk(r.value.0.text)
  {
  }

  lemma {:induction false} BlockIsTyped(isJson: string -> bool, lines: seq<string>, pos: nat, v2: bool, seqno: nat)
    ensures var r := ParseBlock(isJson, lines, pos, v2, seqno); r.Success? ==> StepsFit(isJson, r.value.0, v2)
    decreases |lines| - pos
  {
    hide ParseStep, StepFits;
    if pos < |lines| && StepLine(lines[pos]) {
      StepIsTyped(isJson, lines, pos, v2);
      var r := ParseStep(isJson, lines, pos, v2);
      if r.Success? { BlockIsTyped(isJson, lines, r.value.1, v2, seqno); }
    }
  }

  lemma BeginIsTyped(line: string)
    ensures ParseBegin(line).Some? ==> ParseBegin(line).value.1 <= U32_MAX && Ascending(ParseBegin(line).value.2)
  {
  }

  lemma ItemIsTyped(isJson: string -> bool, lines: seq<string>, pos: nat, v2: bool)
    requires pos < |lines|
    ensures var r := ParseItem(isJson, lines, pos, v2); r.Success? ==> ItemFits(isJson, r.value.0, v2)
  {
    hide ParseStep, ParseBlock, ParseBegin, TypedStep, IsV2;
    StepIsTyped(isJson, lines, pos, v2);
    BeginIsTyped(lines[pos]);
    var begin := ParseBegin(lines[pos]);
    if BEGIN <= lines[pos] && begin.Some? {
      BlockIsTyped(isJson, lines, pos + 1, v2, begin.value.1);
      var r := ParseBlock(isJson, lines, pos + 1, v2, begin.value.1);
      if r.Success? {
        assert forall i :: 0 <= i < |r.value.0| ==> StepFits(isJson, r.value.0[i], v2);
      }
    }
  }

  lemma {:induction false} ItemsAreTyped(isJson: string -> bool, lines: seq<string>, pos: nat, v2: bool)
    ensures var r := ParseItems(isJson, lines, pos, v2); r.Success? ==> ItemsFit(isJson, r.value, v2)
    decreases |lines| - pos
  {
    hide ParseItem, ItemFits;
    if pos < |lines| {
      if lines[pos] == "" {
        ItemsAreTyped(isJson, lines, pos + 1, v2);
      } else {
        ItemIsTyped(isJson, lines, pos, v2);
        var r := ParseItem(isJson, lines, pos, v2);
        if r.Success? { ItemsAreTyped(isJson, lines, r.value.1, v2); }
      }
    }
  }

  lemma SeedFits(lines: seq<string>)
    ensures ParseHeader(lines).Success? ==>
              |lines| >= 2 && ParseHeader(lines).value.0.seed <= U64_MAX
              && ParseHeader(lines).value.1 == (lines[0] == HEADER_V2)
  {
  }

  /** Every accepted text gives a valid plan, and one with session steps only under the second header. */
  lemma AcceptedIsValid(isJson: string -> bool, text: string)
    requires ParsePlan(isJson, text).Success?
    ensures var plan := ParsePlan(isJson, text).value;
            && Validate(plan) && Typed(isJson, plan)
            && LinesOf(text) != [] && (PlanIsV2(plan) ==> LinesOf(text)[0] == HEADER_V2)
  {
    hide ParseHeader, ParseItems, ItemIsV2, TypedItem, Validate, LinesOf;
    var lines := LinesOf(text);
    SeedFits(lines);
    var v2 := ParseHeader(lines).value.1;
    ItemsAreTyped(isJson, lines, 2, v2);
    var items := ParseItems(isJson, lines, 2, v2).value;
    assert forall i :: 0 <= i < |items| ==> ItemFits(isJson, items[i], v2);
  }

  /** Printing an accepted text's plan and reading it again changes nothing more. */
  lemma ReprintIsStable(isJson: string -> bool, text: string)
    requires ParsePlan(isJson, text).Success?
    ensures ParsePlan(isJson, Render(ParsePlan(isJson, text).value)) == ParsePlan(isJson, text)
  {
    AcceptedIsValid(isJson, text);
    ParseOfRender(isJson, ParsePlan(isJson, text).value);
  }
}
