/** The runner's flat view of a plan: property blocks as begin and end markers. */
module FlatPlan {
  import opened Common
  import opened Strings
  import opened Plan

  /** A flat step; the statements inside carry no final semicolon. */
  datatype FlatStep =
    | BeginProperty(name: string, seqno: nat, tables: seq<string>)
    | EndProperty(seqno: nat)
    | Plain(step: Step)

  datatype Flat = Flat(header: PlanHeader, steps: seq<FlatStep>)

  // ---- one step ------------------------------------------------------------------------------------------

  function TrimSemis(s: string): (r: string)
    ensures r <= s && (r == "" || r[|r| - 1] != ';')
    ensures s == "" || s[|s| - 1] != ';' ==> r == s
    ensures s != "" && s[|s| - 1] == ';' ==> |r| < |s|
  {
    if s != "" && s[|s| - 1] == ';' then TrimSemis(s[..|s| - 1]) else s
  }

  function WithText(step: Step, f: string -> string): Step {
    match step
    case Ddl(q) => Ddl(q.(text := f(q.text)))
    case Dml(q) => Dml(q.(text := f(q.text)))
    case Query(q) => Query(q.(text := f(q.text)))
    case AsyncDml(q) => AsyncDml(q.(text := f(q.text)))
    case WaitUntil(q) => WaitUntil(q.(text := f(q.text)))
    case _ => step
  }

  function FlatOf(step: Step): FlatStep { Plain(WithText(step, TrimSemis)) }

  function AddSemi(s: string): string { s + ";" }

  /** Back to a core step, refused where the statement or check is not one. */
  function CoreOf(isJson: string -> bool, step: Step): Option<Step> {
    var core := WithText(step, AddSemi);
    if TypedStep(isJson, core) then Some(core) else None
  }

  // ---- flattening ---------------------------------------------------------------------------------------------

  function FlatSteps(steps: seq<Step>): (r: seq<FlatStep>)
    ensures |r| == |steps| && forall i :: 0 <= i < |r| ==> r[i] == FlatOf(steps[i])
  {
    seq(|steps|, i requires 0 <= i < |steps| => FlatOf(steps[i]))
  }

  function FlatItem(item: PlanItem): seq<FlatStep> {
    match item
    case Single(step) => [FlatOf(step)]
    case Property(name, seqno, tables, steps) =>
      [BeginProperty(name, seqno, tables)] + FlatSteps(steps) + [EndProperty(seqno)]
  }

  function FlatItems(items: seq<PlanItem>): seq<FlatStep> {
    if items == [] then [] else FlatItem(items[0]) + FlatItems(items[1..])
  }

  function FromCore(plan: Plan): Flat { Flat(plan.header, FlatItems(plan.items)) }

  method FlattenSteps(out: seq<FlatStep>, inner: seq<Step>) returns (steps: seq<FlatStep>)
    ensures steps == out + FlatSteps(inner)
  {
    hide FlatOf;
    steps := out;
    for j := 0 to |inner|
      invariant steps == out + FlatSteps(inner)[..j]
    {
      steps := steps + [FlatOf(inner[j])];
      assert FlatSteps(inner)[..j + 1] == FlatSteps(inner)[..j] + [FlatOf(inner[j])];
    }
  }

  method FlattenItem(out: seq<FlatStep>, item: PlanItem) returns (steps: seq<FlatStep>)
    ensures steps == out + FlatItem(item)
  {
    match item {
      case Single(step) =>
        steps := out + [FlatOf(step)];
      case Property(name, seqno, tables, inner) =>
        steps := out + [BeginProperty(name, seqno, tables)];
        steps := FlattenSteps(steps, inner);
        steps := steps + [EndProperty(seqno)];
    }
  }

  method Flatten(plan: Plan) returns (flat: Flat)
    ensures flat == FromCore(plan)
  {
    hide FlatItem;
    var steps: seq<FlatStep> := [];
    for i := 0 to |plan.items|
      invariant steps + FlatItems(plan.items[i..]) == FlatItems(plan.items)
    {
      assert plan.items[i..][0] == plan.items[i] && plan.items[i..][1..] == plan.items[i + 1..];
      steps := FlattenItem(steps, plan.items[i]);
    }
    flat := Flat(plan.header, steps);
  }

  // ---- nesting ------------------------------------------------------------------------------------------------

  /** Items closed so far and the block that is open, if any. */
  datatype Nested = Nested(items: seq<PlanItem>, open: Option<PlanItem>)

  predicate NestedOk(n: Nested) { n.open.Some? ==> n.open.value.Property? }

  function NestStep(isJson: string -> bool, n: Nested, s: FlatStep): (r: Option<Nested>)
    requires NestedOk(n)
    ensures r.Some? ==> NestedOk(r.value)
  {
    match s
    case BeginProperty(name, seqno, tables) =>
      if n.open.Some? then None else Some(n.(open := Some(Property(name, seqno, SortedSet(tables), []))))
    case EndProperty(seqno) =>
      if n.open.None? || n.open.value.seqno != seqno then None else Some(Nested(n.items + [n.open.value], None))
    case Plain(step) =>
      match CoreOf(isJson, step)
      case None => None
      case Some(core) =>
        if n.open.Some? then Some(n.(open := Some(n.open.value.(steps := n.open.value.steps + [core]))))
        else Some(n.(items := n.items + [Single(core)]))
  }

  function NestAll(isJson: string -> bool, n: Nested, steps: seq<FlatStep>): (r: Option<Nested>)
    requires NestedOk(n)
    ensures r.Some? ==> NestedOk(r.value)
    decreases |steps|
  {
    if steps == [] then Some(n)
    else match NestStep(isJson, n, steps[0])
      case None => None
      case Some(n') => NestAll(isJson, n', steps[1..])
  }

  /** A block still open at the end is closed. */
  function CloseOpen(n: Nested): seq<PlanItem> {
    if n.open.Some? then n.items + [n.open.value] else n.items
  }

  function ToCore(isJson: string -> bool, flat: Flat): Option<Plan> {
    match NestAll(isJson, Nested([], None), flat.steps)
    case None => None
    case Some(n) =>
      var plan := Plan(flat.header, CloseOpen(n));
      if Validate(plan) then Some(plan) else None
  }

  method Nest(isJson: string -> bool, flat: Flat) returns (r: Option<Plan>)
    ensures r == ToCore(isJson, flat)
  {
    var n := Nested([], None);
    for i := 0 to |flat.steps|
      invariant NestedOk(n) && NestAll(isJson, n, flat.steps[i..]) == NestAll(isJson, Nested([], None), flat.steps)
    {
      assert flat.steps[i..][0] == flat.steps[i] && flat.steps[i..][1..] == flat.steps[i + 1..];
      var next := NestStep(isJson, n, flat.steps[i]);
      if next.None? {
        return None;
      }
      n := next.value;
    }
    var plan := Plan(flat.header, CloseOpen(n));
    if !Validate(plan) {
      return None;
    }
    return Some(plan);
  }

  // ---- the round trip ---------------------------------------------------------------------------------------------

  /** A statement as nesting writes it: exactly one semicolon at the end. */
  function OneSemi(s: string): string { TrimSemis(s) + ";" }

  function CanonStep(step: Step): Step { WithText(step, OneSemi) }

  function CanonSteps(steps: seq<Step>): (r: seq<Step>)
    ensures |r| == |steps| && forall i :: 0 <= i < |r| ==> r[i] == CanonStep(steps[i])
  {
    seq(|steps|, i requires 0 <= i < |steps| => CanonStep(steps[i]))
  }

  function CanonItem(item: PlanItem): PlanItem {
    match item
    case Single(step) => Single(CanonStep(step))
    case Property(name, seqno, tables, steps) => Property(name, seqno, tables, CanonSteps(steps))
  }

  function CanonItems(items: seq<PlanItem>): (r: seq<PlanItem>)
    ensures |r| == |items| && forall i :: 0 <= i < |r| ==> r[i] == CanonItem(items[i])
  {
    seq(|items|, i requires 0 <= i < |items| => CanonItem(items[i]))
  }

  function Canon(plan: Plan): Plan { plan.(items := CanonItems(plan.items)) }

  lemma OneSemiOk(s: string)
    requires SqlOk(s)
    ensures SqlOk(OneSemi(s))
  {
    var t := TrimSemis(s);
    assert t <= s;
    assert forall i :: 0 <= i < |t| ==> t[i] == s[i];
    assert !("--" <= t);
  }

  /** A typed step, flattened and nested, comes back with one semicolon. */
  lemma StepThereAndBack(isJson: string -> bool, step: Step)
    requires TypedStep(isJson, step)
    ensures CoreOf(isJson, FlatOf(step).step) == Some(CanonStep(step))
  {
    match step
    case Ddl(q) => OneSemiOk(q.text);
    case Dml(q) => OneSemiOk(q.text);
    case Query(q) => OneSemiOk(q.text);
    case AsyncDml(q) => OneSemiOk(q.text);
    case WaitUntil(q) => OneSemiOk(q.text);
    case _ =>
  }

  lemma {:induction false} NestConcat(isJson: string -> bool, n: Nested, a: seq<FlatStep>, b: seq<FlatStep>)
    requires NestedOk(n)
    ensures NestAll(isJson, n, a + b)
         == match NestAll(isJson, n, a) case None => None case Some(m) => NestAll(isJson, m, b)
    decreases |a|
  {
    if a == [] {
      assert a + b == b;
    } else {
      assert (a + b)[0] == a[0] && (a + b)[1..] == a[1..] + b;
      var r := NestStep(isJson, n, a[0]);
      if r.Some? { NestConcat(isJson, r.value, a[1..], b); }
    }
  }

  lemma NestNone(isJson: string -> bool, n: Nested)
    requires NestedOk(n)
    ensures NestAll(isJson, n, []) == Some(n)
  {
  }

  lemma NestOne(isJson: string -> bool, n: Nested, s: FlatStep)
    requires NestedOk(n)
    ensures NestAll(isJson, n, [s]) == NestStep(isJson, n, s)
  {
    assert [s][1..] == [];
  }

  /** The steps of a block, one after another, into the open block. */
  lemma {:induction false} NestBlockSteps(isJson: string -> bool, n: Nested, steps: seq<Step>)
    requires NestedOk(n) && n.open.Some?
    requires forall i :: 0 <= i < |steps| ==> TypedStep(isJson, steps[i])
    ensures NestAll(isJson, n, FlatSteps(steps))
         == Some(n.(open := Some(n.open.value.(steps := n.open.value.steps + CanonSteps(steps)))))
    decreases |steps|
  {
    hide CoreOf, CanonStep, WithText, TypedStep;
    var done := n.open.value.steps;
    if steps == [] {
      assert done + CanonSteps(steps) == done;
    } else {
      assert FlatSteps(steps)[1..] == FlatSteps(steps[1..]);
      StepThereAndBack(isJson, steps[0]);
      var n' := NestStep(isJson, n, FlatOf(steps[0])).value;
      NestBlockSteps(isJson, n', steps[1..]);
      assert done + [CanonStep(steps[0])] + CanonSteps(steps[1..]) == done + CanonSteps(steps);
    }
  }

  lemma NestItem(isJson: string -> bool, n: Nested, item: PlanItem)
    requires NestedOk(n) && n.open.None? && TypedItem(isJson, item)
    ensures NestAll(isJson, n, FlatItem(item)) == Some(n.(items := n.items + [CanonItem(item)]))
  {
    match item
    case Single(step) =>
      NestOne(isJson, n, FlatOf(step));
      StepThereAndBack(isJson, step);
    case Property(name, seqno, tables, steps) =>
      var begin, end := BeginProperty(name, seqno, tables), EndProperty(seqno);
      SortedSetOfAscending(tables);
      var begun := n.(open := Some(Property(name, seqno, tables, [])));
      NestOne(isJson, n, begin);
      NestBlockSteps(isJson, begun, steps);
      assert [] + CanonSteps(steps) == CanonSteps(steps);
      var full := n.(open := Some(CanonItem(item)));
      NestOne(isJson, full, end);
      NestConcat(isJson, n, [begin], FlatSteps(steps));
      NestConcat(isJson, n, [begin] + FlatSteps(steps), [end]);
  }

  lemma {:induction false} NestItems(isJson: string -> bool, n: Nested, items: seq<PlanItem>)
    requires NestedOk(n) && n.open.None?
    requires forall i :: 0 <= i < |items| ==> TypedItem(isJson, items[i])
    ensures NestAll(isJson, n, FlatItems(items)) == Some(n.(items := n.items + CanonItems(items)))
    decreases |items|
  {
    hide FlatItem, CanonItem, NestAll, TypedItem;
    if items == [] {
      NestNone(isJson, n);
      assert n.items + CanonItems(items) == n.items;
    } else {
      var n' := n.(items := n.items + [CanonItem(items[0])]);
      NestItem(isJson, n, items[0]);
      NestConcat(isJson, n, FlatItem(items[0]), FlatItems(items[1..]));
      NestItems(isJson, n', items[1..]);
      assert n.items + [CanonItem(items[0])] + CanonItems(items[1..]) == n.items + CanonItems(items);
    }
  }

  lemma CanonIsValid(plan: Plan)
    requires Validate(plan)
    ensures Validate(Canon(plan))
  {
    forall i | 0 <= i < |plan.items|
      ensures ValidItem(CanonItem(plan.items[i]))
    {
      assert ValidItem(plan.items[i]);
    }
  }

  /** Flattening a valid plan and nesting it again gives the plan with one semicolon after every statement. */
  lemma NestOfFlatten(isJson: string -> bool, plan: Plan)
    requires Validate(plan) && Typed(isJson, plan)
    ensures ToCore(isJson, FromCore(plan)) == Some(Canon(plan))
  {
    NestItems(isJson, Nested([], None), plan.items);
    assert [] + CanonItems(plan.items) == CanonItems(plan.items);
    CanonIsValid(plan);
  }

  // ---- when the round trip is exact ----------------------------------------------------------------------------------

  predicate EndsInOneSemi(s: string) {
    |s| >= 1 && s[|s| - 1] == ';' && (|s| == 1 || s[|s| - 2] != ';')
  }

  predicate StepEndsInOne(step: Step) {
    (step.Ddl? || step.Dml? || step.Query? || step.AsyncDml? || step.WaitUntil?) ==> EndsInOneSemi(step.sql.text)
  }

  predicate ItemEndsInOne(item: PlanItem) {
    match item
    case Single(step) => StepEndsInOne(step)
    case Property(_, _, _, steps) => forall i :: 0 <= i < |steps| ==> StepEndsInOne(steps[i])
  }

  predicate PlanEndsInOne(plan: Plan) {
    forall i :: 0 <= i < |plan.items| ==> ItemEndsInOne(plan.items[i])
  }

  lemma OneSemiIff(s: string)
    requires SqlOk(s)
    ensures OneSemi(s) == s <==> EndsInOneSemi(s)
  {
    var body := s[..|s| - 1];
    assert TrimSemis(s) == TrimSemis(body) && s == body + ";";
    if OneSemi(s) == s { assert TrimSemis(body) == OneSemi(s)[..|s| - 1] == body; }
  }

  lemma CanonStepIff(isJson: string -> bool, step: Step)
    requires TypedStep(isJson, step)
    ensures CanonStep(step) == step <==> StepEndsInOne(step)
  {
    match step
    case Ddl(q) => OneSemiIff(q.text);
    case Dml(q) => OneSemiIff(q.text);
    case Query(q) => OneSemiIff(q.text);
    case AsyncDml(q) => OneSemiIff(q.text);
    case WaitUntil(q) => OneSemiIff(q.text);
    case _ =>
  }

  lemma CanonItemIff(isJson: string -> bool, item: PlanItem)
    requires TypedItem(isJson, item)
    ensures CanonItem(item) == item <==> ItemEndsInOne(item)
  {
    match item
    case Single(step) => CanonStepIff(isJson, step);
    case Property(_, _, _, steps) =>
      forall i | 0 <= i < |steps|
        ensures CanonSteps(steps)[i] == steps[i] <==> StepEndsInOne(steps[i])
      {
        CanonStepIff(isJson, steps[i]);
      }
      if CanonItem(item) == item { assert CanonSteps(steps) == steps; }
      if ItemEndsInOne(item) { assert CanonSteps(steps) == steps; }
  }

  lemma CanonIff(isJson: string -> bool, plan: Plan)
    requires Typed(isJson, plan)
    ensures Canon(plan) == plan <==> PlanEndsInOne(plan)
  {
    var items := plan.items;
    forall i | 0 <= i < |items|
      ensures CanonItems(items)[i] == items[i] <==> ItemEndsInOne(items[i])
    {
      CanonItemIff(isJson, items[i]);
    }
    if Canon(plan) == plan { assert CanonItems(items) == items; }
    if PlanEndsInOne(plan) { assert CanonItems(items) == items; }
  }

  /** The round trip is exact if and only if every statement ends in exactly one semicolon. */
  lemma RoundTripIff(isJson: string -> bool, plan: Plan)
    requires Validate(plan) && Typed(isJson, plan)
    ensures ToCore(isJson, FromCore(plan)) == Some(plan) <==> PlanEndsInOne(plan)
  {
    NestOfFlatten(isJson, plan);
    CanonIff(isJson, plan);
  }

  /** A valid plan that does not survive: one statement with two semicolons. */
  function Doubled(): Plan {
    Plan(PlanHeader(1, "p", "0", "g"), [Single(Query(Sql("SELECT 1;;", Read, SqlFlags(false, false))))])
  }

  lemma DoubledIsLost(isJson: string -> bool)
    ensures Validate(Doubled()) && Typed(isJson, Doubled())
    ensures ToCore(isJson, FromCore(Doubled())).Some? && ToCore(isJson, FromCore(Doubled())) != Some(Doubled())
  {
    var plan := Doubled();
    var text := "SELECT 1;;";
    assert "--"[0] == '-' && text[0] == 'S';
    assert text[8] == ';' && text[9] == ';' && |text| == 10;
    assert !PlanEndsInOne(plan) by { assert !ItemEndsInOne(plan.items[0]); }
    hide FromCore, ToCore, PlanEndsInOne;
    NestOfFlatten(isJson, plan);
    RoundTripIff(isJson, plan);
  }
}
