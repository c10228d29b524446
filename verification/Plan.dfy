/** The test plan: steps, property blocks, and what makes a plan valid. */
module Plan {
  import opened Strings

  const U32_MAX: nat := 0xFFFF_FFFF
  const U64_MAX: nat := 0xFFFF_FFFF_FFFF_FFFF

  const MAX_SESSION_ID: nat := 5

  datatype PlanHeader = PlanHeader(seed: nat, profile: string, sha: string, generator: string)

  datatype Mark = Read | Mutation | Passthrough

  datatype SqlFlags = SqlFlags(orderUnderdetermined: bool, floatLenient: bool)

  datatype Sql = Sql(text: string, mark: Mark, flags: SqlFlags)

  datatype IsoLevel = ReadCommitted | RepeatableRead | Serializable

  datatype TxCtl = Begin(iso: IsoLevel) | Commit | Rollback | Savepoint(name: string) | RollbackTo(name: string)

  datatype ArmCtl = SetGuc(key: string, value: string) | ResetAll

  datatype FaultPoint = Disconnect | ReconnectServer | Crash(point: string) | TornWrite | Env(point: string)

  datatype Step =
    | Ddl(sql: Sql)
    | Dml(sql: Sql)
    | Query(sql: Sql)
    | Tx(tx: TxCtl)
    | Arm(arm: ArmCtl)
    | Assumption(json: string)
    | Assertion(json: string)
    | Fault(fault: FaultPoint)
    | Session(id: nat)
    | AsyncDml(sql: Sql)
    | Join(id: nat)
    | WaitUntil(sql: Sql)

  /** A property block; its tables are an ordered set, kept as an ascending sequence. */
  datatype PlanItem = Single(step: Step) | Property(name: string, seqno: nat, tables: seq<string>, steps: seq<Step>)

  datatype Plan = Plan(header: PlanHeader, items: seq<PlanItem>)

  predicate IsV2(step: Step) {
    step.Session? || step.AsyncDml? || step.Join? || step.WaitUntil?
  }

  predicate AnyV2(steps: seq<Step>) {
    exists i :: 0 <= i < |steps| && IsV2(steps[i])
  }

  predicate ItemIsV2(item: PlanItem) {
    match item
    case Single(step) => IsV2(step)
    case Property(_, _, _, steps) => AnyV2(steps)
  }

  predicate PlanIsV2(plan: Plan) {
    exists i :: 0 <= i < |plan.items| && ItemIsV2(plan.items[i])
  }

  // ---- what the constructors of the SQL and check types refuse ------------------------------------------

  predicate OneLine(s: string) {
    '\n' !in s && '\r' !in s
  }

  predicate SqlOk(text: string) {
    text != "" && OneLine(text) && !("--" <= text) && text[|text| - 1] == ';'
  }

  /** Which texts are JSON documents is left to a parameter. */
  predicate CheckOk(isJson: string -> bool, json: string) {
    OneLine(json) && isJson(json)
  }

  // ---- validation --------------------------------------------------------------------------------------------

  predicate IsLower(c: char) { 'a' <= c <= 'z' }

  predicate IsIdentChar(c: char) { IsLower(c) || '0' <= c <= '9' || c == '_' }

  predicate IsIdent(s: string) {
    s != "" && (IsLower(s[0]) || s[0] == '_') && forall i :: 0 <= i < |s| ==> IsIdentChar(s[i])
  }

  /** The characters the host language counts as white space. */
  predicate IsWhitespace(c: char) {
    var n := c as int;
    || 9 <= n <= 13 || n == 0x20 || n == 0x85 || n == 0xA0 || n == 0x1680 || 0x2000 <= n <= 0x200A
    || n == 0x2028 || n == 0x2029 || n == 0x202F || n == 0x205F || n == 0x3000
  }

  predicate NoWs(s: string) {
    s != "" && forall i :: 0 <= i < |s| ==> !IsWhitespace(s[i])
  }

  predicate IsLowerHex(c: char) { '0' <= c <= '9' || 'a' <= c <= 'f' }

  predicate ValidHeader(h: PlanHeader) {
    NoWs(h.profile) && h.sha != "" && (forall i :: 0 <= i < |h.sha| ==> IsLowerHex(h.sha[i])) && NoWs(h.generator)
  }

  function DotsToUnderscores(s: string): (r: string)
    ensures |r| == |s|
  {
    seq(|s|, i requires 0 <= i < |s| => if s[i] == '.' then '_' else s[i])
  }

  predicate ValidStep(step: Step) {
    match step
    case Tx(Savepoint(n)) => IsIdent(n)
    case Tx(RollbackTo(n)) => IsIdent(n)
    case Arm(SetGuc(k, v)) => IsIdent(DotsToUnderscores(k)) && v != "" && OneLine(v) && ' ' !in v
    case Fault(Crash(p)) => NoWs(p)
    case Fault(Env(p)) => NoWs(p)
    case Session(id) => id <= MAX_SESSION_ID
    case Join(id) => id <= MAX_SESSION_ID
    case _ => true
  }

  predicate ValidProperty(name: string, tables: seq<string>) {
    && name != "" && '\'' !in name && '\n' !in name
    && forall i :: 0 <= i < |tables| ==> IsIdent(tables[i])
  }

  predicate ValidItem(item: PlanItem) {
    match item
    case Single(step) => ValidStep(step)
    case Property(name, _, tables, steps) =>
      ValidProperty(name, tables) && forall i :: 0 <= i < |steps| ==> ValidStep(steps[i])
  }

  /** The check made on every plan before and after it is a file. */
  predicate Validate(plan: Plan) {
    ValidHeader(plan.header) && forall i :: 0 <= i < |plan.items| ==> ValidItem(plan.items[i])
  }

  // ---- what the types themselves guarantee --------------------------------------------------------------------

  predicate TypedStep(isJson: string -> bool, step: Step) {
    match step
    case Ddl(sql) => SqlOk(sql.text)
    case Dml(sql) => SqlOk(sql.text)
    case Query(sql) => SqlOk(sql.text)
    case AsyncDml(sql) => SqlOk(sql.text)
    case WaitUntil(sql) => SqlOk(sql.text)
    case Assumption(json) => CheckOk(isJson, json)
    case Assertion(json) => CheckOk(isJson, json)
    case _ => true
  }

  predicate TypedItem(isJson: string -> bool, item: PlanItem) {
    match item
    case Single(step) => TypedStep(isJson, step)
    case Property(_, seqno, tables, steps) =>
      seqno <= U32_MAX && Ascending(tables) && forall i :: 0 <= i < |steps| ==> TypedStep(isJson, steps[i])
  }

  predicate Typed(isJson: string -> bool, plan: Plan) {
    plan.header.seed <= U64_MAX && forall i :: 0 <= i < |plan.items| ==> TypedItem(isJson, plan.items[i])
  }
}
