/** The printer as it appends to a buffer, and the parser as it moves a cursor over the lines. */
module PlanCode {
  import opened Common
  import opened Strings
  import opened Decimal
  import opened Plan
  import opened PlanText
  import opened PlanRoundTrip
  import opened PlanFile

  // ---- the printer ---------------------------------------------------------------------------------------

  lemma TextOfOne(a: string)
    ensures TextOf([a]) == a + "\n"
  {
    assert [a][1..] == [];
  }

  lemma TextOfThree(a: string, b: string, c: string)
    ensures TextOf([a, b, c]) == a + "\n" + b + "\n" + c + "\n"
  {
    assert [a, b, c][1..] == [b, c] && [b, c][1..] == [c];
    TextOfOne(c);
    assert TextOf([b, c]) == b + "\n" + (c + "\n");
  }

  lemma JoinTwo(a: string, b: string)
    ensures Strings.Join([a, b], ' ') == a + " " + b
  {
    assert [a, b][1..] == [b];
  }

  lemma MarkWordsJoined(sql: Sql)
    ensures Strings.Join(MarkWords(sql), ' ')
         == MarkText(sql.mark) + (if sql.flags.orderUnderdetermined then " " + ORDER_FLAG else "")
          + (if sql.flags.floatLenient then " " + FLOAT_FLAG else "")
  {
    var m := MarkText(sql.mark);
    match sql.flags
    case SqlFlags(false, false) => assert MarkWords(sql) == [m];
    case SqlFlags(true, false) => assert MarkWords(sql) == [m, ORDER_FLAG]; JoinTwo(m, ORDER_FLAG);
    case SqlFlags(false, true) => assert MarkWords(sql) == [m, FLOAT_FLAG]; JoinTwo(m, FLOAT_FLAG);
    case SqlFlags(true, true) =>
      assert MarkWords(sql) == [m, ORDER_FLAG, FLOAT_FLAG];
      JoinThree(m, ORDER_FLAG, FLOAT_FLAG);
  }

  method RenderMark(sql: Sql) returns (mark: string)
    ensures mark == MarkLine(sql)
  {
    var words := MarkText(sql.mark);
    if sql.flags.orderUnderdetermined {
      words := words + " " + ORDER_FLAG;
    }
    if sql.flags.floatLenient {
      words := words + " " + FLOAT_FLAG;
    }
    MarkWordsJoined(sql);
    mark := "-- MARK " + words;
  }

  method RenderSql(out: string, tag: string, sql: Sql) returns (r: string)
    ensures r == out + TextOf([tag, MarkLine(sql), sql.text])
  {
    var mark := RenderMark(sql);
    TextOfThree(tag, mark, sql.text);
    r := out + tag + "\n";
    r := r + mark + "\n";
    r := r + sql.text + "\n";
  }

  method RenderLine(out: string, line: string) returns (r: string)
    ensures r == out + TextOf([line])
  {
    TextOfOne(line);
    r := out + line + "\n";
  }

  method RenderStep(out: string, step: Step) returns (r: string)
    ensures r == out + TextOf(StepLines(step))
  {
    hide TextOf, MarkLine, TxText, ArmText, FaultText;
    match step {
      case Ddl(sql) => r := RenderSql(out, "-- STEP " + "ddl", sql);
      case Dml(sql) => r := RenderSql(out, "-- STEP " + "dml", sql);
      case Query(sql) => r := RenderSql(out, "-- STEP " + "query", sql);
      case Tx(tx) => r := RenderLine(out, "-- TX " + TxText(tx));
      case Arm(arm) => r := RenderLine(out, "-- ARM " + ArmText(arm));
      case Assumption(json) => r := RenderLine(out, "-- ASSUME " + json);
      case Assertion(json) => r := RenderLine(out, "-- ASSERT " + json);
      case Fault(fault) => r := RenderLine(out, "-- FAULT " + FaultText(fault));
      case Session(id) => r := RenderLine(out, "-- SESSION switch " + Dec(id));
      case Join(id) => r := RenderLine(out, "-- SESSION join " + Dec(id));
      case AsyncDml(sql) => r := RenderSql(out, "-- SESSION async-dml", sql);
      case WaitUntil(sql) => r := RenderSql(out, "-- SESSION wait-until", sql);
    }
  }

  method RenderSteps(out: string, steps: seq<Step>) returns (r: string)
    ensures r == out + TextOf(StepsLines(steps))
  {
    hide StepLines;
    r := out;
    for i := 0 to |steps|
      invariant r + TextOf(StepsLines(steps[i..])) == out + TextOf(StepsLines(steps))
    {
      assert steps[i..][0] == steps[i] && steps[i..][1..] == steps[i + 1..];
      TextOfConcat(StepLines(steps[i]), StepsLines(steps[i + 1..]));
      r := RenderStep(r, steps[i]);
    }
  }

  lemma Regroup(out: string, a: string, b: string, c: string)
    ensures out + a + b + c == out + (a + b + c)
  {
  }

  method RenderBegin(name: string, seqno: nat, tables: seq<string>) returns (line: string)
    ensures line == BeginLine(name, seqno, tables)
  {
    line := "-- begin property '" + name + "' seq=" + Dec(seqno);
    if tables != [] {
      line := line + (" tables=" + Strings.Join(tables, ','));
    }
  }

  lemma PropertyText(begin: string, steps: seq<Step>, end: string)
    ensures TextOf([begin] + StepsLines(steps) + [end]) == TextOf([begin]) + TextOf(StepsLines(steps)) + TextOf([end])
  {
    hide StepsLines, TextOf;
    TextOfConcat([begin] + StepsLines(steps), [end]);
    TextOfConcat([begin], StepsLines(steps));
  }

  method RenderProperty(out: string, name: string, seqno: nat, tables: seq<string>, steps: seq<Step>) returns (r: string)
    ensures r == out + TextOf([BeginLine(name, seqno, tables)] + StepsLines(steps) + [EndLine(seqno)])
  {
    hide StepsLines, BeginLine, EndLine, TextOf;
    var begin := RenderBegin(name, seqno, tables);
    var end := EndLine(seqno);
    r := RenderLine(out, begin);
    r := RenderSteps(r, steps);
    r := RenderLine(r, end);
    PropertyText(begin, steps, end);
    Regroup(out, TextOf([begin]), TextOf(StepsLines(steps)), TextOf([end]));
  }

  method RenderItem(out: string, item: PlanItem) returns (r: string)
    ensures r == out + TextOf(ItemLines(item))
  {
    hide StepLines, StepsLines, BeginLine, EndLine, TextOf;
    match item {
      case Single(step) => r := RenderStep(out, step);
      case Property(name, seqno, tables, steps) => r := RenderProperty(out, name, seqno, tables, steps);
    }
  }

  lemma ItemsText(items: seq<PlanItem>)
    requires items != []
    ensures TextOf(ItemsLines(items)) == TextOf([""]) + TextOf(ItemLines(items[0])) + TextOf(ItemsLines(items[1..]))
  {
    hide ItemLines, TextOf;
    TextOfConcat([""] + ItemLines(items[0]), ItemsLines(items[1..]));
    TextOfConcat([""], ItemLines(items[0]));
  }

  lemma WholeText(first: string, second: string, items: seq<PlanItem>)
    ensures TextOf([first, second] + ItemsLines(items)) == TextOf([first]) + TextOf([second]) + TextOf(ItemsLines(items))
  {
    hide ItemsLines, TextOf;
    assert [first, second] == [first] + [second];
    TextOfConcat([first, second], ItemsLines(items));
    TextOfConcat([first], [second]);
  }

  method RenderPlan(plan: Plan) returns (out: string)
    ensures out == Render(plan)
  {
    hide ItemLines, ItemsLines, HeaderLine, TextOf, PlanIsV2;
    var first := if PlanIsV2(plan) then HEADER_V2 else HEADER_V1;
    var second := HeaderLine(plan.header);
    WholeText(first, second, plan.items);
    out := RenderLine("", first);
    out := RenderLine(out, second);
    assert plan.items[0..] == plan.items;
    for i := 0 to |plan.items|
      invariant out + TextOf(ItemsLines(plan.items[i..])) == Render(plan)
    {
      var item, rest := plan.items[i], plan.items[i + 1..];
      assert plan.items[i..][0] == item && plan.items[i..][1..] == rest;
      ItemsText(plan.items[i..]);
      Regroup(out, TextOf([""]), TextOf(ItemLines(item)), TextOf(ItemsLines(rest)));
      out := RenderLine(out, "");
      out := RenderItem(out, item);
    }
    NoItemsText();
    assert plan.items[|plan.items|..] == [];
  }

  lemma NoItemsText()
    ensures TextOf(ItemsLines([])) == ""
  {
  }

  // ---- the parser ------------------------------------------------------------------------------------------

  /** The flags after a mark, one word at a time. */
  method ReadFlags(words: seq<string>, strict: bool) returns (r: Option<SqlFlags>)
    ensures r == ParseFlags(words, SqlFlags(false, false), strict)
  {
    var flags := SqlFlags(false, false);
    for i := 0 to |words|
      invariant ParseFlags(words, SqlFlags(false, false), strict) == ParseFlags(words[i..], flags, strict)
    {
      assert words[i..][0] == words[i] && words[i..][1..] == words[i + 1..];
      if words[i] == ORDER_FLAG {
        if strict && flags.orderUnderdetermined {
          return None;
        }
        flags := flags.(orderUnderdetermined := true);
      } else if words[i] == FLOAT_FLAG {
        if strict && flags.floatLenient {
          return None;
        }
        flags := flags.(floatLenient := true);
      } else {
        return None;
      }
    }
    r := Some(flags);
  }

  method ReadMarkLine(line: string, strict: bool) returns (r: Option<(Mark, SqlFlags)>)
    ensures r == ParseMarkLine(line, strict)
  {
    hide ParseFlags, ParseMark, Split;
    if !("-- MARK " <= line) {
      return None;
    }
    var words := Split(line[8..], ' ');
    var mark := ParseMark(words[0]);
    if mark.None? {
      return None;
    }
    var flags := ReadFlags(words[1..], strict);
    if flags.None? {
      return None;
    }
    if strict && flags.value.orderUnderdetermined && flags.value.floatLenient
       && line != "-- MARK " + (MarkText(mark.value) + " " + ORDER_FLAG + " " + FLOAT_FLAG) {
      return None;
    }
    r := Some((mark.value, flags.value));
  }

  /** A step that needs no further line. */
  function Finish(r: Parsed<(Step, nat)>): Parsed<Step> {
    match r
    case Failure(e) => Failure(e)
    case Success((step, _)) => Success(step)
  }

  /** A cursor over the lines of a file. */
  class Lines {
    const lines: seq<string>
    var pos: nat

    constructor (text: string)
      ensures lines == LinesOf(text) && pos == 0
    {
      lines := LinesOf(text);
      pos := 0;
    }

    /** The line under the cursor, which then moves on; none at the end. */
    method NextLine() returns (line: Option<string>)
      modifies this
      ensures old(pos) < |lines| ==> line == Some(lines[old(pos)]) && pos == old(pos) + 1
      ensures old(pos) >= |lines| ==> line == None && pos == old(pos)
    {
      if pos < |lines| {
        line := Some(lines[pos]);
        pos := pos + 1;
      } else {
        line := None;
      }
    }

    /** A mark line, then a statement line. */
    method TakeMarkedSql(strict: bool) returns (r: Parsed<Sql>)
      modifies this
      ensures match ParseMarkedSql(lines, old(pos), strict)
              case Failure(e) => r == Failure(e)
              case Success((sql, next)) => r == Success(sql) && pos == next
    {
      hide ParseMarkLine, SqlOk;
      var at := pos;
      var line := NextLine();
      if line.None? {
        return Failure(PlanError(at + 1));
      }
      var mark := ReadMarkLine(line.value, strict);
      if mark.None? {
        return Failure(PlanError(at + 1));
      }
      var text := NextLine();
      if text.None? || "--" <= text.value || text.value == "" || !SqlOk(text.value) {
        return Failure(PlanError(at + 2));
      }
      r := Success(Sql(text.value, mark.value.0, mark.value.1));
    }

    /** The rest of a statement step, whose first line has been taken. */
    method TakeSqlStep(kind: string) returns (r: Parsed<Step>)
      requires 0 < pos <= |lines|
      modifies this
      ensures match ParseSqlStep(lines, old(pos) - 1, kind)
              case Failure(e) => r == Failure(e)
              case Success((step, next)) => r == Success(step) && pos == next
    {
      hide ParseMarkedSql;
      if kind != "ddl" && kind != "dml" && kind != "query" {
        return Failure(PlanError(pos));
      }
      var sql := TakeMarkedSql(true);
      if sql.Failure? {
        return Failure(sql.error);
      }
      return Success(if kind == "ddl" then Ddl(sql.value) else if kind == "dml" then Dml(sql.value) else Query(sql.value));
    }

    /** The rest of a session step, whose first line has been taken. */
    method TakeSession(body: string) returns (r: Parsed<Step>)
      requires 0 < pos <= |lines|
      modifies this
      ensures match ParseSession(lines, old(pos) - 1, body)
              case Failure(e) => r == Failure(e)
              case Success((step, next)) => r == Success(step) && pos == next
    {
      hide ParseMarkedSql, ParseUnsigned, ValidStep;
      if "switch " <= body {
        r := Finish(Checked(OptionMap(ParseUnsigned(body[7..], U32_MAX), n => Session(n)), pos - 1));
      } else if "join " <= body {
        r := Finish(Checked(OptionMap(ParseUnsigned(body[5..], U32_MAX), n => Step.Join(n)), pos - 1));
      } else if body == "async-dml" || body == "wait-until" {
        var sql := TakeMarkedSql(false);
        if sql.Failure? {
          return Failure(sql.error);
        }
        r := Success(if body == "async-dml" then AsyncDml(sql.value) else WaitUntil(sql.value));
      } else {
        r := Failure(PlanError(pos));
      }
    }

    method TakeStep(isJson: string -> bool, v2: bool) returns (r: Parsed<Step>)
      requires pos < |lines|
      modifies this
      ensures match ParseStep(isJson, lines, old(pos), v2)
              case Failure(e) => r == Failure(e)
              case Success((step, next)) => r == Success(step) && pos == next
      ensures r.Success? ==> old(pos) < pos <= |lines|
    {
      hide ParseSession, ParseSqlStep, ParseTx, ParseArm, ParseFault, ValidStep, CheckOk;
      var at := pos;
      var line := lines[pos];
      var taken := NextLine();
      if line == "-- SESSION" || "-- SESSION " <= line {
        if !v2 {
          return Failure(PlanError(at + 1));
        }
        r := TakeSession(if "-- SESSION " <= line then line[11..] else "");
      } else if "-- STEP " <= line {
        r := TakeSqlStep(line[8..]);
      } else if "-- TX " <= line {
        r := Finish(Checked(OptionMap(ParseTx(line[6..]), t => Tx(t)), at));
      } else if "-- ARM " <= line {
        r := Finish(Checked(OptionMap(ParseArm(line[7..]), a => Arm(a)), at));
      } else if "-- ASSUME " <= line {
        r := Finish(ParseCheck(isJson, line[10..], j => Assumption(j), at));
      } else if "-- ASSERT " <= line {
        r := Finish(ParseCheck(isJson, line[10..], j => Assertion(j), at));
      } else if "-- FAULT " <= line {
        r := Finish(Checked(OptionMap(ParseFault(line[9..]), f => Fault(f)), at));
      } else {
        r := Failure(PlanError(at + 1));
      }
    }

    /** The inner loop: steps up to the end line of the block. */
    method TakeBlock(isJson: string -> bool, v2: bool, seqno: nat) returns (r: Parsed<seq<Step>>)
      modifies this
      ensures match ParseBlock(isJson, lines, old(pos), v2, seqno)
              case Failure(e) => r == Failure(e)
              case Success((steps, end)) => r == Success(steps) && pos == end
      ensures r.Success? ==> old(pos) < pos <= |lines|
    {
      hide ParseStep;
      var steps: seq<Step> := [];
      ContinuesFromNothing(ParseBlock(isJson, lines, pos, v2, seqno));
      while true
        invariant old(pos) <= pos
        invariant Continues(ParseBlock(isJson, lines, old(pos), v2, seqno), steps, ParseBlock(isJson, lines, pos, v2, seqno))
        decreases |lines| - pos
      {
        if pos >= |lines| || lines[pos] == "" {
          return Failure(PlanError(pos + 1));
        }
        if END <= lines[pos] {
          if ParseUnsigned(lines[pos][20..], U32_MAX) != Some(seqno) {
            return Failure(PlanError(pos + 1));
          }
          assert steps + [] == steps;
          pos := pos + 1;
          return Success(steps);
        }
        if BEGIN <= lines[pos] || !("--" <= lines[pos]) {
          return Failure(PlanError(pos + 1));
        }
        ghost var before := pos;
        var step := TakeStep(isJson, v2);
        if step.Failure? {
          return Failure(step.error);
        }
        ContinueBlock(isJson, lines, before, v2, seqno, step.value, pos);
        ContinuesTwice(ParseBlock(isJson, lines, old(pos), v2, seqno), steps,
                       ParseBlock(isJson, lines, before, v2, seqno), [step.value],
                       ParseBlock(isJson, lines, pos, v2, seqno));
        steps := steps + [step.value];
      }
    }

    method TakeItem(isJson: string -> bool, v2: bool) returns (r: Parsed<PlanItem>)
      requires pos < |lines|
      modifies this
      ensures match ParseItem(isJson, lines, old(pos), v2)
              case Failure(e) => r == Failure(e)
              case Success((item, next)) => r == Success(item) && pos == next
      ensures r.Success? ==> old(pos) < pos <= |lines|
    {
      hide ParseStep, ParseBlock, ParseBegin;
      if BEGIN <= lines[pos] {
        var begin := ParseBegin(lines[pos]);
        if begin.None? {
          return Failure(PlanError(pos + 1));
        }
        pos := pos + 1;
        var steps := TakeBlock(isJson, v2, begin.value.1);
        if steps.Failure? {
          return Failure(steps.error);
        }
        return Success(Property(begin.value.0, begin.value.1, begin.value.2, steps.value));
      }
      if !("--" <= lines[pos]) {
        return Failure(PlanError(pos + 1));
      }
      var step := TakeStep(isJson, v2);
      if step.Failure? {
        return Failure(step.error);
      }
      return Success(Single(step.value));
    }
  }

  /** What is left of a block extends what was read of it. */
  predicate Continues(whole: Parsed<(seq<Step>, nat)>, done: seq<Step>, rest: Parsed<(seq<Step>, nat)>) {
    match rest
    case Failure(e) => whole == Failure(e)
    case Success((steps, end)) => whole == Success((done + steps, end))
  }

  lemma ContinuesFromNothing(a: Parsed<(seq<Step>, nat)>)
    ensures Continues(a, [], a)
  {
    if a.Success? { assert [] + a.value.0 == a.value.0; }
  }

  lemma ContinuesTwice(a: Parsed<(seq<Step>, nat)>, xs: seq<Step>, b: Parsed<(seq<Step>, nat)>, ys: seq<Step>, c: Parsed<(seq<Step>, nat)>)
    requires Continues(a, xs, b) && Continues(b, ys, c)
    ensures Continues(a, xs + ys, c)
  {
    if c.Success? { assert xs + (ys + c.value.0) == xs + ys + c.value.0; }
  }

  lemma ContinueBlock(isJson: string -> bool, lines: seq<string>, pos: nat, v2: bool, seqno: nat, step: Step, next: nat)
    requires pos < |lines| && StepLine(lines[pos])
    requires ParseStep(isJson, lines, pos, v2) == Success((step, next))
    ensures Continues(ParseBlock(isJson, lines, pos, v2, seqno), [step], ParseBlock(isJson, lines, next, v2, seqno))
  {
    hide ParseStep;
  }

  predicate ItemsContinue(whole: Parsed<seq<PlanItem>>, done: seq<PlanItem>, rest: Parsed<seq<PlanItem>>) {
    match rest
    case Failure(e) => whole == Failure(e)
    case Success(items) => whole == Success(done + items)
  }

  /** The outer loop: blank lines skipped, one item at a time. */
  method TakeItems(isJson: string -> bool, lx: Lines, v2: bool) returns (r: Parsed<seq<PlanItem>>)
    modifies lx
    ensures r == ParseItems(isJson, lx.lines, old(lx.pos), v2)
  {
    hide ParseItem, ParseItems, ItemsContinue;
    var items: seq<PlanItem> := [];
    ghost var whole := ParseItems(isJson, lx.lines, lx.pos, v2);
    ItemsFromNothing(whole);
    while lx.pos < |lx.lines|
      invariant ItemsContinue(whole, items, ParseItems(isJson, lx.lines, lx.pos, v2))
    {
      if lx.lines[lx.pos] == "" {
        SkipBlank(isJson, lx.lines, lx.pos, v2);
        lx.pos := lx.pos + 1;
      } else {
        OneItem(isJson, lx.lines, lx.pos, v2);
        ghost var here := ParseItems(isJson, lx.lines, lx.pos, v2);
        var item := lx.TakeItem(isJson, v2);
        if item.Failure? {
          ItemsFailed(whole, items, here);
          return Failure(item.error);
        }
        ItemsTwice(whole, items, here, [item.value], ParseItems(isJson, lx.lines, lx.pos, v2));
        items := items + [item.value];
      }
    }
    NoMoreItems(isJson, lx.lines, lx.pos, v2, whole, items);
    return Success(items);
  }

  lemma ItemsFromNothing(a: Parsed<seq<PlanItem>>)
    ensures ItemsContinue(a, [], a)
  {
    if a.Success? { assert [] + a.value == a.value; }
  }

  lemma ItemsTwice(a: Parsed<seq<PlanItem>>, xs: seq<PlanItem>, b: Parsed<seq<PlanItem>>, ys: seq<PlanItem>, c: Parsed<seq<PlanItem>>)
    requires ItemsContinue(a, xs, b) && ItemsContinue(b, ys, c)
    ensures ItemsContinue(a, xs + ys, c)
  {
    if c.Success? { assert xs + (ys + c.value) == xs + ys + c.value; }
  }

  lemma ItemsFailed(a: Parsed<seq<PlanItem>>, xs: seq<PlanItem>, b: Parsed<seq<PlanItem>>)
    requires ItemsContinue(a, xs, b) && b.Failure?
    ensures a == b
  {
  }

  lemma SkipBlank(isJson: string -> bool, lines: seq<string>, pos: nat, v2: bool)
    requires pos < |lines| && lines[pos] == ""
    ensures ParseItems(isJson, lines, pos, v2) == ParseItems(isJson, lines, pos + 1, v2)
  {
  }

  lemma OneItem(isJson: string -> bool, lines: seq<string>, pos: nat, v2: bool)
    requires pos < |lines| && lines[pos] != ""
    ensures match ParseItem(isJson, lines, pos, v2)
            case Failure(e) => ParseItems(isJson, lines, pos, v2) == Failure(e)
            case Success((item, next)) =>
              ItemsContinue(ParseItems(isJson, lines, pos, v2), [item], ParseItems(isJson, lines, next, v2))
  {
    hide ParseItem;
  }

  lemma NoMoreItems(isJson: string -> bool, lines: seq<string>, pos: nat, v2: bool, whole: Parsed<seq<PlanItem>>, items: seq<PlanItem>)
    requires pos >= |lines| && ItemsContinue(whole, items, ParseItems(isJson, lines, pos, v2))
    ensures whole == Success(items)
  {
    assert items + [] == items;
  }

  method ParseText(isJson: string -> bool, text: string) returns (r: Parsed<Plan>)
    ensures r == ParsePlan(isJson, text)
  {
    hide ParseHeader, ParseItems, LinesOf;
    var lx := new Lines(text);
    var header := ParseHeader(lx.lines);
    if header.Failure? {
      return Failure(header.error);
    }
    lx.pos := 2;
    var items := TakeItems(isJson, lx, header.value.1);
    if items.Failure? {
      return Failure(items.error);
    }
    var plan := Plan(header.value.0, items.value);
    if !Validate(plan) {
      return Failure(PlanError(0));
    }
    return Success(plan);
  }

  /** A printed plan file read back by the parser is the plan. */
  method SaveAndLoad(isJson: string -> bool, plan: Plan) returns (r: Parsed<Plan>)
    requires Validate(plan) && Typed(isJson, plan)
    ensures r == Success(plan)
  {
    var text := RenderPlan(plan);
    ParseOfRender(isJson, plan);
    r := ParseText(isJson, text);
  }
}
