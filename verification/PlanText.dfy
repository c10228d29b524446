/** The plan file: one printer, one strict parser, line by line. */
module PlanText {
  import opened Common
  import opened Strings
  import opened Decimal
  import opened Plan

  datatype PlanError = PlanError(line: nat)

  type Parsed<T> = Result<T, PlanError>

  const HEADER_V1 := "-- simharness plan " + "v1 (serial single-session)"
  const HEADER_V2 := "-- simharness plan " + "v2 (multi-session)"

  // ---- printing ----------------------------------------------------------------------------------------

  function MarkText(mark: Mark): string {
    match mark
    case Read => "read"
    case Mutation => "mutation"
    case Passthrough => "passthrough"
  }

  const ORDER_FLAG := "order-underdetermined"
  const FLOAT_FLAG := "float-lenient"

  function FlagWords(flags: SqlFlags): seq<string> {
    (if flags.orderUnderdetermined then [ORDER_FLAG] else []) + (if flags.floatLenient then [FLOAT_FLAG] else [])
  }

  function MarkWords(sql: Sql): seq<string> { [MarkText(sql.mark)] + FlagWords(sql.flags) }

  function MarkLine(sql: Sql): string { "-- MARK " + Strings.Join(MarkWords(sql), ' ') }

  function TxText(tx: TxCtl): string {
    match tx
    case Begin(ReadCommitted) => "begin-rc"
    case Begin(RepeatableRead) => "begin-rr"
    case Begin(Serializable) => "begin-ser"
    case Commit => "commit"
    case Rollback => "rollback"
    case Savepoint(n) => "savepoint " + n
    case RollbackTo(n) => "rollback-to " + n
  }

  function ArmText(arm: ArmCtl): string {
    match arm
    case SetGuc(k, v) => "set " + k + "=" + v
    case ResetAll => "reset-all"
  }

  function FaultText(fault: FaultPoint): string {
    match fault
    case Disconnect => "disconnect"
    case ReconnectServer => "reconnect-server"
    case Crash(p) => "crash " + p
    case TornWrite => "torn-write"
    case Env(p) => "env " + p
  }

  function SqlLines(kind: string, sql: Sql): seq<string> {
    ["-- STEP " + kind, MarkLine(sql), sql.text]
  }

  function StepLines(step: Step): (r: seq<string>)
    ensures |r| >= 1
  {
    match step
    case Ddl(sql) => SqlLines("ddl", sql)
    case Dml(sql) => SqlLines("dml", sql)
    case Query(sql) => SqlLines("query", sql)
    case Tx(tx) => ["-- TX " + TxText(tx)]
    case Arm(arm) => ["-- ARM " + ArmText(arm)]
    case Assumption(json) => ["-- ASSUME " + json]
    case Assertion(json) => ["-- ASSERT " + json]
    case Fault(fault) => ["-- FAULT " + FaultText(fault)]
    case Session(id) => ["-- SESSION switch " + Dec(id)]
    case Join(id) => ["-- SESSION join " + Dec(id)]
    case AsyncDml(sql) => ["-- SESSION async-dml", MarkLine(sql), sql.text]
    case WaitUntil(sql) => ["-- SESSION wait-until", MarkLine(sql), sql.text]
  }

  function StepsLines(steps: seq<Step>): seq<string> {
    if steps == [] then [] else StepLines(steps[0]) + StepsLines(steps[1..])
  }

  function TablesText(tables: seq<string>): string {
    if tables == [] then "" else " tables=" + Strings.Join(tables, ',')
  }

  function BeginLine(name: string, seqno: nat, tables: seq<string>): string {
    "-- begin property '" + name + "' seq=" + Dec(seqno) + TablesText(tables)
  }

  function EndLine(seqno: nat): string { "-- end property seq=" + Dec(seqno) }

  function ItemLines(item: PlanItem): (r: seq<string>)
    ensures |r| >= 1
  {
    match item
    case Single(step) => StepLines(step)
    case Property(name, seqno, tables, steps) =>
      [BeginLine(name, seqno, tables)] + StepsLines(steps) + [EndLine(seqno)]
  }

  function ItemsLines(items: seq<PlanItem>): seq<string> {
    if items == [] then [] else [""] + ItemLines(items[0]) + ItemsLines(items[1..])
  }

  function HeaderWords(h: PlanHeader): seq<string> {
    [Dec(h.seed), "profile:", h.profile, "profile-sha256:", h.sha, "generator:", h.generator]
  }

  function HeaderLine(h: PlanHeader): string { "-- seed: " + Strings.Join(HeaderWords(h), ' ') }

  function PlanLines(plan: Plan): seq<string> {
    [if PlanIsV2(plan) then HEADER_V2 else HEADER_V1, HeaderLine(plan.header)] + ItemsLines(plan.items)
  }

  // ---- parsing one step ------------------------------------------------------------------------------------

  function ParseMark(word: string): Option<Mark> {
    if word == "read" then Some(Read)
    else if word == "mutation" then Some(Mutation)
    else if word == "passthrough" then Some(Passthrough)
    else None
  }

  /** Flags in any order; a repeated one is refused where the source refuses it. */
  function ParseFlags(words: seq<string>, flags: SqlFlags, strict: bool): Option<SqlFlags>
    decreases |words|
  {
    if words == [] then Some(flags)
    else if words[0] == ORDER_FLAG then
      if strict && flags.orderUnderdetermined then None
      else ParseFlags(words[1..], flags.(orderUnderdetermined := true), strict)
    else if words[0] == FLOAT_FLAG then
      if strict && flags.floatLenient then None
      else ParseFlags(words[1..], flags.(floatLenient := true), strict)
    else None
  }

  function ParseMarkLine(line: string, strict: bool): Option<(Mark, SqlFlags)> {
    match StripPrefix(line, "-- MARK ")
    case None => None
    case Some(rest) =>
      var words := Split(rest, ' ');
      match ParseMark(words[0])
      case None => None
      case Some(mark) =>
        match ParseFlags(words[1..], SqlFlags(false, false), strict)
        case None => None
        case Some(flags) =>
          var canonical := "-- MARK " + (MarkText(mark) + " " + ORDER_FLAG + " " + FLOAT_FLAG);
          if strict && flags.orderUnderdetermined && flags.floatLenient && line != canonical then None
          else Some((mark, flags))
  }

  /** A mark line and a statement line, and the position after them. */
  function ParseMarkedSql(lines: seq<string>, pos: nat, strict: bool): (r: Parsed<(Sql, nat)>)
    ensures r.Success? ==> pos < r.value.1 <= |lines|
  {
    if pos >= |lines| then Failure(PlanError(pos + 1))
    else match ParseMarkLine(lines[pos], strict)
      case None => Failure(PlanError(pos + 1))
      case Some((mark, flags)) =>
        if pos + 1 >= |lines| then Failure(PlanError(pos + 2))
        else
          var text := lines[pos + 1];
          if "--" <= text || text == "" || !SqlOk(text) then Failure(PlanError(pos + 2))
          else Success((Sql(text, mark, flags), pos + 2))
  }

  function ParseTx(t: string): Option<TxCtl> {
    if "savepoint " <= t then Some(Savepoint(t[10..]))
    else if "rollback-to " <= t then Some(RollbackTo(t[12..]))
    else if t == "begin-rc" then Some(Begin(ReadCommitted))
    else if t == "begin-rr" then Some(Begin(RepeatableRead))
    else if t == "begin-ser" then Some(Begin(Serializable))
    else if t == "commit" then Some(Commit)
    else if t == "rollback" then Some(Rollback)
    else None
  }

  function ParseArm(a: string): Option<ArmCtl> {
    if a == "reset-all" then Some(ResetAll)
    else match StripPrefix(a, "set ")
      case None => None
      case Some(kv) =>
        match SplitOnce(kv, "=")
        case None => None
        case Some((k, v)) => Some(SetGuc(k, v))
  }

  function ParseFault(f: string): Option<FaultPoint> {
    if "crash " <= f then Some(Crash(f[6..]))
    else if "env " <= f then Some(Env(f[4..]))
    else if f == "disconnect" then Some(Disconnect)
    else if f == "reconnect-server" then Some(ReconnectServer)
    else if f == "torn-write" then Some(TornWrite)
    else None
  }

  /** A one-line step, checked. */
  function Checked(step: Option<Step>, pos: nat): (r: Parsed<(Step, nat)>)
    ensures r.Success? ==> r.value.1 == pos + 1
  {
    match step
    case None => Failure(PlanError(pos + 1))
    case Some(s) => if ValidStep(s) then Success((s, pos + 1)) else Failure(PlanError(pos + 1))
  }

  function WithSql(r: Parsed<(Sql, nat)>, make: Sql -> Step): Parsed<(Step, nat)> {
    match r
    case Failure(e) => Failure(e)
    case Success((sql, next)) => Success((make(sql), next))
  }

  function ParseSession(lines: seq<string>, pos: nat, body: string): (r: Parsed<(Step, nat)>)
    requires pos < |lines|
    ensures r.Success? ==> pos < r.value.1 <= |lines|
  {
    match StripPrefix(body, "switch ")
    case Some(id) => Checked(OptionMap(ParseUnsigned(id, U32_MAX), n => Session(n)), pos)
    case None =>
      match StripPrefix(body, "join ")
      case Some(id) => Checked(OptionMap(ParseUnsigned(id, U32_MAX), n => Step.Join(n)), pos)
      case None =>
        if body == "async-dml" then WithSql(ParseMarkedSql(lines, pos + 1, false), s => AsyncDml(s))
        else if body == "wait-until" then WithSql(ParseMarkedSql(lines, pos + 1, false), s => WaitUntil(s))
        else Failure(PlanError(pos + 1))
  }

  function OptionMap<T, U>(o: Option<T>, f: T -> U): Option<U> {
    match o
    case None => None
    case Some(x) => Some(f(x))
  }

  function ParseSqlStep(lines: seq<string>, pos: nat, kind: string): (r: Parsed<(Step, nat)>)
    requires pos < |lines|
    ensures r.Success? ==> pos < r.value.1 <= |lines|
  {
    if kind == "ddl" then WithSql(ParseMarkedSql(lines, pos + 1, true), s => Ddl(s))
    else if kind == "dml" then WithSql(ParseMarkedSql(lines, pos + 1, true), s => Dml(s))
    else if kind == "query" then WithSql(ParseMarkedSql(lines, pos + 1, true), s => Query(s))
    else Failure(PlanError(pos + 1))
  }

  function ParseCheck(isJson: string -> bool, json: string, make: string -> Step, pos: nat): (r: Parsed<(Step, nat)>)
    ensures r.Success? ==> r.value.1 == pos + 1
  {
    if CheckOk(isJson, json) then Success((make(json), pos + 1)) else Failure(PlanError(pos + 1))
  }

  /** One step and the position after it. */
  function ParseStep(isJson: string -> bool, lines: seq<string>, pos: nat, v2: bool): (r: Parsed<(Step, nat)>)
    requires pos < |lines|
    ensures r.Success? ==> pos < r.value.1 <= |lines|
  {
    var line := lines[pos];
    if line == "-- SESSION" || "-- SESSION " <= line then
      if !v2 then Failure(PlanError(pos + 1))
      else ParseSession(lines, pos, if "-- SESSION " <= line then line[11..] else "")
    else if "-- STEP " <= line then ParseSqlStep(lines, pos, line[8..])
    else if "-- TX " <= line then Checked(OptionMap(ParseTx(line[6..]), t => Tx(t)), pos)
    else if "-- ARM " <= line then Checked(OptionMap(ParseArm(line[7..]), a => Arm(a)), pos)
    else if "-- ASSUME " <= line then ParseCheck(isJson, line[10..], j => Assumption(j), pos)
    else if "-- ASSERT " <= line then ParseCheck(isJson, line[10..], j => Assertion(j), pos)
    else if "-- FAULT " <= line then Checked(OptionMap(ParseFault(line[9..]), f => Fault(f)), pos)
    else Failure(PlanError(pos + 1))
  }

  // ---- parsing a property's first line, and the header ---------------------------------------------------------

  function ParseTables(list: Option<string>): Option<seq<string>> {
    match list
    case None => Some([])
    case Some("") => None
    case Some(ts) => var names := Split(ts, ','); if Ascending(names) then Some(names) else None
  }

  function ParseBegin(line: string): Option<(string, nat, seq<string>)> {
    match StripPrefix(line, "-- begin property '")
    case None => None
    case Some(rest) =>
      match SplitOnce(rest, "'")
      case None => None
      case Some((name, rest)) =>
        match StripPrefix(rest, " seq=")
        case None => None
        case Some(rest) =>
          var (number, list) := match SplitOnce(rest, " tables=")
                                case None => (rest, None)
                                case Some((n, ts)) => (n, Some(ts));
          match (ParseUnsigned(number, U32_MAX), ParseTables(list))
          case (Some(seqno), Some(tables)) =>
            if ValidProperty(name, tables) then Some((name, seqno, tables)) else None
          case _ => None
  }

  function ParseHeader(lines: seq<string>): Parsed<(PlanHeader, bool)> {
    if |lines| == 0 || (lines[0] != HEADER_V1 && lines[0] != HEADER_V2) then Failure(PlanError(1))
    else if |lines| == 1 then Failure(PlanError(2))
    else match StripPrefix(lines[1], "-- seed: ")
      case None => Failure(PlanError(2))
      case Some(rest) =>
        var w := Split(rest, ' ');
        if |w| != 7 || w[1] != "profile:" || w[3] != "profile-sha256:" || w[5] != "generator:" then Failure(PlanError(2))
        else match ParseUnsigned(w[0], U64_MAX)
          case None => Failure(PlanError(2))
          case Some(seed) =>
            var h := PlanHeader(seed, w[2], w[4], w[6]);
            if ValidHeader(h) then Success((h, lines[0] == HEADER_V2)) else Failure(PlanError(2))
  }
}
