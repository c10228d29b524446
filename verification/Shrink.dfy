/** Cutting a failing plan down to what its failure may depend on. */
module Shrink {
  import opened Common
  import opened Strings
  import opened Plan
  import opened FlatPlan

  predicate IsMarker(s: FlatStep) { s.BeginProperty? || s.EndProperty? }

  /** Faults, transaction control and settings stay whatever happens. */
  predicate Always(s: FlatStep) { s.Plain? && (s.step.Fault? || s.step.Tx? || s.step.Arm?) }

  /** A closed block: a begin, an end, no marker between. */
  predicate IsSpan(steps: seq<FlatStep>, b: int, e: int) {
    && 0 <= b < e < |steps| && steps[b].BeginProperty? && steps[e].EndProperty?
    && forall k :: b < k < e ==> !IsMarker(steps[k])
  }

  lemma SpansDisjoint(steps: seq<FlatStep>, b: int, e: int, b': int, e': int)
    requires IsSpan(steps, b, e) && IsSpan(steps, b', e') && (b, e) != (b', e')
    ensures e < b' || e' < b
  {
    assert IsMarker(steps[b]) && IsMarker(steps[e]) && IsMarker(steps[b']) && IsMarker(steps[e']);
    assert !(b < b' < e) && !(b < e' < e) && !(b' < b < e') && !(b' < e < e');
  }

  /** A table of the block the failing step is in. */
  ghost predicate Suspect(steps: seq<FlatStep>, failing: nat, t: string) {
    exists b, e :: IsSpan(steps, b, e) && b <= failing <= e && t in steps[b].tables
  }

  ghost predicate Shares(steps: seq<FlatStep>, failing: nat, b: nat)
    requires b < |steps| && steps[b].BeginProperty?
  {
    exists t :: t in steps[b].tables && Suspect(steps, failing, t)
  }

  /** A block that ended before the failure, with known and different tables. */
  ghost predicate Unrelated(steps: seq<FlatStep>, failing: nat, b: int, e: int) {
    && IsSpan(steps, b, e) && e < failing
    && (exists t :: Suspect(steps, failing, t))
    && !Shares(steps, failing, b)
  }

  ghost predicate Dropped(steps: seq<FlatStep>, failing: nat, i: nat) {
    i < |steps| && !Always(steps[i]) && exists b, e :: Unrelated(steps, failing, b, e) && b <= i <= e
  }

  // ---- the code --------------------------------------------------------------------------------------------

  datatype Span = Span(begin: nat, end: nat, tables: set<string>)

  predicate SpanOf(steps: seq<FlatStep>, sp: Span) {
    IsSpan(steps, sp.begin, sp.end) && sp.tables == TableSet(steps[sp.begin].tables)
  }

  function TableSet(tables: seq<string>): set<string> { set t | t in tables }

  /** All closed blocks, in order of their ends. */
  method Spans(steps: seq<FlatStep>) returns (out: seq<Span>)
    ensures forall k :: 0 <= k < |out| ==> SpanOf(steps, out[k])
    ensures forall b, e :: IsSpan(steps, b, e) ==> exists k :: 0 <= k < |out| && out[k].begin == b && out[k].end == e
  {
    out := [];
    var open: Option<nat> := None;
    for i := 0 to |steps|
      invariant forall k :: 0 <= k < |out| ==> SpanOf(steps, out[k])
      invariant forall b, e :: IsSpan(steps, b, e) && e < i ==> exists k :: 0 <= k < |out| && out[k].begin == b && out[k].end == e
      invariant open.Some? ==> open.value < i && steps[open.value].BeginProperty?
                               && forall k :: open.value < k < i ==> !IsMarker(steps[k])
      invariant forall b :: 0 <= b < i && steps[b].BeginProperty? && (forall k :: b < k < i ==> !IsMarker(steps[k])) ==> open == Some(b)
    {
      ghost var before := out;
      if steps[i].BeginProperty? {
        open := Some(i);
      } else if steps[i].EndProperty? {
        if open.Some? {
          out := out + [Span(open.value, i, TableSet(steps[open.value].tables))];
          assert out[|before|].begin == open.value && out[|before|].end == i;
        }
        open := None;
      }
      forall b, e | IsSpan(steps, b, e) && e < i + 1
        ensures exists k :: 0 <= k < |out| && out[k].begin == b && out[k].end == e
      {
        if e < i {
          var k :| 0 <= k < |before| && before[k].begin == b && before[k].end == e;
          assert out[k].begin == b && out[k].end == e;
        }
      }
    }
  }

  /** The tables of the block around the failing step; none if it is in no closed block. */
  method FailingTables(steps: seq<FlatStep>, failing: nat, all: seq<Span>) returns (tables: set<string>)
    requires forall k :: 0 <= k < |all| ==> SpanOf(steps, all[k])
    requires forall b, e :: IsSpan(steps, b, e) ==> exists k :: 0 <= k < |all| && all[k].begin == b && all[k].end == e
    ensures forall t :: t in tables <==> Suspect(steps, failing, t)
  {
    for k := 0 to |all|
      invariant forall j :: 0 <= j < k ==> !(all[j].begin <= failing <= all[j].end)
    {
      if all[k].begin <= failing <= all[k].end {
        forall b, e | IsSpan(steps, b, e) && b <= failing <= e
          ensures b == all[k].begin
        {
          if (b, e) != (all[k].begin, all[k].end) { SpansDisjoint(steps, b, e, all[k].begin, all[k].end); }
        }
        assert IsSpan(steps, all[k].begin, all[k].end);
        return all[k].tables;
      }
    }
    return {};
  }

  /** Whether a block goes. */
  method Goes(steps: seq<FlatStep>, failing: nat, sp: Span, tables: set<string>) returns (goes: bool)
    requires SpanOf(steps, sp)
    requires forall t :: t in tables <==> Suspect(steps, failing, t)
    ensures goes == Unrelated(steps, failing, sp.begin, sp.end)
  {
    if sp.end > failing {
      return false;
    }
    var touches := tables != {} && sp.tables * tables != {};
    var isFailing := sp.begin <= failing <= sp.end;
    if touches || isFailing || tables == {} {
      if touches { SharedTable(steps, failing, sp, tables); }
      return false;
    }
    NoSharedTable(steps, failing, sp, tables);
    return true;
  }

  /** The positions of a block that go with it. */
  function Droppable(steps: seq<FlatStep>, b: nat, e: nat): set<nat>
    requires e < |steps|
  {
    set i | b <= i <= e && !Always(steps[i])
  }

  lemma DroppableIsDropped(steps: seq<FlatStep>, failing: nat, b: nat, e: nat)
    requires Unrelated(steps, failing, b, e)
    ensures forall i :: i in Droppable(steps, b, e) ==> Dropped(steps, failing, i)
  {
  }

  lemma DroppedIsDroppable(steps: seq<FlatStep>, failing: nat, all: seq<Span>, drop: set<nat>, i: nat)
    requires forall k :: 0 <= k < |all| ==> SpanOf(steps, all[k])
    requires forall b, e :: IsSpan(steps, b, e) ==> exists k :: 0 <= k < |all| && all[k].begin == b && all[k].end == e
    requires forall k :: 0 <= k < |all| ==> Holds(steps, failing, all[k], drop)
    requires Dropped(steps, failing, i)
    ensures i in drop
  {
    var b, e :| Unrelated(steps, failing, b, e) && b <= i <= e;
    var k :| 0 <= k < |all| && all[k].begin == b && all[k].end == e;
    assert Holds(steps, failing, all[k], drop);
    assert i in Droppable(steps, b, e);
  }

  /** A block has been dealt with. */
  ghost predicate Holds(steps: seq<FlatStep>, failing: nat, sp: Span, drop: set<nat>)
    requires SpanOf(steps, sp)
  {
    Unrelated(steps, failing, sp.begin, sp.end) ==> Droppable(steps, sp.begin, sp.end) <= drop
  }

  /** The positions the heuristic drops. */
  method DropPositions(steps: seq<FlatStep>, failing: nat) returns (drop: set<nat>)
    requires failing < |steps|
    ensures forall i: nat :: i in drop <==> Dropped(steps, failing, i)
  {
    var all := Spans(steps);
    var tables := FailingTables(steps, failing, all);
    hide Unrelated, Dropped, IsSpan, Droppable, Suspect;
    drop := {};
    for k := 0 to |all|
      invariant forall i :: i in drop ==> Dropped(steps, failing, i)
      invariant forall j :: 0 <= j < k ==> Holds(steps, failing, all[j], drop)
    {
      var sp := all[k];
      var goes := Goes(steps, failing, sp, tables);
      if goes {
        DroppableIsDropped(steps, failing, sp.begin, sp.end);
        drop := drop + Droppable(steps, sp.begin, sp.end);
      }
    }
    forall i: nat | Dropped(steps, failing, i)
      ensures i in drop
    {
      DroppedIsDroppable(steps, failing, all, drop, i);
    }
  }

  lemma SharedTable(steps: seq<FlatStep>, failing: nat, sp: Span, tables: set<string>)
    requires SpanOf(steps, sp) && sp.tables * tables != {}
    requires forall t :: t in tables <==> Suspect(steps, failing, t)
    ensures Shares(steps, failing, sp.begin)
  {
    var t :| t in sp.tables * tables;
    assert t in steps[sp.begin].tables;
  }

  lemma NoSharedTable(steps: seq<FlatStep>, failing: nat, sp: Span, tables: set<string>)
    requires SpanOf(steps, sp) && sp.end < failing && sp.tables * tables == {} && tables != {}
    requires forall t :: t in tables <==> Suspect(steps, failing, t)
    ensures Unrelated(steps, failing, sp.begin, sp.end)
  {
    var t :| t in tables;
    assert Suspect(steps, failing, t);
    assert forall u :: u in steps[sp.begin].tables ==> u in sp.tables && u !in tables by {
      assert forall u :: u in sp.tables && u in tables ==> u in sp.tables * tables;
    }
  }

  /** The positions kept, in order. */
  ghost function KeptPositions(steps: seq<FlatStep>, failing: nat, n: nat): (r: seq<nat>)
    ensures forall k :: 0 <= k < |r| ==> r[k] < n
  {
    if n == 0 then []
    else if Dropped(steps, failing, n - 1) then KeptPositions(steps, failing, n - 1)
    else KeptPositions(steps, failing, n - 1) + [n - 1]
  }

  ghost function Pick(steps: seq<FlatStep>, positions: seq<nat>): (r: seq<FlatStep>)
    requires forall k :: 0 <= k < |positions| ==> positions[k] < |steps|
    ensures |r| == |positions| && forall k :: 0 <= k < |r| ==> r[k] == steps[positions[k]]
  {
    seq(|positions|, k requires 0 <= k < |positions| => steps[positions[k]])
  }

  /** The candidate, position by position. */
  ghost function Candidate(steps: seq<FlatStep>, failing: nat): seq<FlatStep>
    requires failing < |steps|
  {
    Pick(steps, KeptPositions(steps, failing, failing + 1))
  }

  /** The kept positions rise, and are exactly those that are not dropped. */
  lemma {:induction false} KeptMeaning(steps: seq<FlatStep>, failing: nat, n: nat)
    ensures var kept := KeptPositions(steps, failing, n);
            && (forall k :: 0 < k < |kept| ==> kept[k - 1] < kept[k])
            && (forall i :: 0 <= i < n ==> (i in kept <==> !Dropped(steps, failing, i)))
    decreases n
  {
    hide Dropped;
    if n > 0 { KeptMeaning(steps, failing, n - 1); }
  }

  lemma KeptSnoc(steps: seq<FlatStep>, failing: nat, n: nat)
    requires n < |steps|
    ensures var kept, more := Pick(steps, KeptPositions(steps, failing, n)), Pick(steps, KeptPositions(steps, failing, n + 1));
            more == if Dropped(steps, failing, n) then kept else kept + [steps[n]]
  {
    hide Dropped;
    var kept := KeptPositions(steps, failing, n);
    if !Dropped(steps, failing, n) {
      assert Pick(steps, kept + [n]) == Pick(steps, kept) + [steps[n]];
    }
  }

  lemma NothingPicked(steps: seq<FlatStep>, failing: nat)
    ensures Pick(steps, KeptPositions(steps, failing, 0)) == []
  {
  }

  method ShrinkCandidate(flat: Flat, failing: nat) returns (r: Option<Flat>)
    ensures r.None? <==> failing >= |flat.steps|
    ensures r.Some? ==> r.value == Flat(flat.header, Candidate(flat.steps, failing))
  {
    hide Pick, KeptPositions, Dropped;
    if failing >= |flat.steps| {
      return None;
    }
    var drop := DropPositions(flat.steps, failing);
    var steps: seq<FlatStep> := [];
    NothingPicked(flat.steps, failing);
    for i := 0 to failing + 1
      invariant steps == Pick(flat.steps, KeptPositions(flat.steps, failing, i))
    {
      KeptSnoc(flat.steps, failing, i);
      if i !in drop {
        steps := steps + [flat.steps[i]];
      }
    }
    return Some(Flat(flat.header, steps));
  }

  // ---- what the candidate keeps -----------------------------------------------------------------------------

  lemma LastKept(steps: seq<FlatStep>, failing: nat)
    requires failing < |steps|
    ensures !Dropped(steps, failing, failing)
    ensures var c := Candidate(steps, failing); c != [] && c[|c| - 1] == steps[failing]
  {
    var before := KeptPositions(steps, failing, failing);
    assert KeptPositions(steps, failing, failing + 1) == before + [failing];
  }

  /** The candidate picks rising positions of the plan, the failing step last; every fault, transaction and setting
      step before it is among them, and so is the whole of every earlier block that shares a table with the failing one. */
  lemma CandidateKeeps(steps: seq<FlatStep>, failing: nat)
    requires failing < |steps|
    ensures var kept := KeptPositions(steps, failing, failing + 1);
            && Candidate(steps, failing) == Pick(steps, kept)
            && (forall k :: 0 < k < |kept| ==> kept[k - 1] < kept[k])
            && kept != [] && kept[|kept| - 1] == failing
            && (forall i :: 0 <= i <= failing && Always(steps[i]) ==> i in kept)
            && (forall b, e, i :: IsSpan(steps, b, e) && e < failing && Shares(steps, failing, b) && b <= i <= e ==> i in kept)
  {
    LastKept(steps, failing);
    KeptMeaning(steps, failing, failing + 1);
    var kept := KeptPositions(steps, failing, failing + 1);
    assert kept == KeptPositions(steps, failing, failing) + [failing];
    forall b, e, i | IsSpan(steps, b, e) && e < failing && Shares(steps, failing, b) && b <= i <= e
      ensures i in kept
    {
      if Dropped(steps, failing, i) {
        var b', e' :| Unrelated(steps, failing, b', e') && b' <= i <= e';
        if (b, e) != (b', e') { SpansDisjoint(steps, b, e, b', e'); }
        assert false;
      }
    }
  }

  /** Exactly what goes: the steps of a block that ended before the failure and shares no table with the failing block,
      which names some; but no fault, transaction control or setting. */
  lemma CandidateExact(steps: seq<FlatStep>, failing: nat, i: nat)
    requires i <= failing < |steps|
    ensures i !in KeptPositions(steps, failing, failing + 1)
       <==> && !(steps[i].Plain? && (steps[i].step.Fault? || steps[i].step.Tx? || steps[i].step.Arm?))
            && (exists t :: Suspect(steps, failing, t))
            && (exists b, e :: IsSpan(steps, b, e) && b <= i <= e < failing && !Shares(steps, failing, b))
  {
    KeptMeaning(steps, failing, failing + 1);
    if b, e :| IsSpan(steps, b, e) && b <= i <= e < failing && !Shares(steps, failing, b) {
      assert Unrelated(steps, failing, b, e) <==> exists t :: Suspect(steps, failing, t);
    }
  }

  /** A failure outside every block, or in one that names no table, keeps every step up to it. */
  lemma UnknownKeepsAll(steps: seq<FlatStep>, failing: nat, i: nat)
    requires i <= failing < |steps|
    requires forall b, e :: IsSpan(steps, b, e) && b <= failing <= e ==> steps[b].tables == []
    ensures i in KeptPositions(steps, failing, failing + 1)
  {
    CandidateExact(steps, failing, i);
  }

  // ---- sessions ---------------------------------------------------------------------------------------------

  /** The active session after a step; the runner goes back to the first one at the end of a block. */
  function SwitchedTo(session: nat, s: FlatStep): nat {
    match s
    case EndProperty(_) => 0
    case BeginProperty(_, _, _) => session
    case Plain(step) => if step.Session? then step.id else session
  }

  function Active(steps: seq<FlatStep>): nat {
    if steps == [] then 0 else SwitchedTo(Active(steps[..|steps| - 1]), steps[|steps| - 1])
  }

  /** Every block begins in the first session. */
  predicate BlocksStartHome(steps: seq<FlatStep>) {
    forall b :: 0 <= b < |steps| && steps[b].BeginProperty? ==> Active(steps[..b]) == 0
  }

  /** The session a step runs in, in the plan and in the candidate. */
  function SessionBefore(steps: seq<FlatStep>, i: nat): nat
    requires i <= |steps|
  {
    Active(steps[..i])
  }

  ghost function CandidateSession(steps: seq<FlatStep>, failing: nat, i: nat): nat
    requires i <= |steps|
  {
    Active(Pick(steps, KeptPositions(steps, failing, i)))
  }

  ghost predicate InDropped(steps: seq<FlatStep>, failing: nat, i: nat) {
    exists b, e :: Unrelated(steps, failing, b, e) && b <= i <= e
  }

  /** Past the beginning of a block that goes, and not past its end. */
  ghost predicate Within(steps: seq<FlatStep>, failing: nat, i: nat) {
    exists b, e :: Unrelated(steps, failing, b, e) && b < i <= e
  }

  lemma ActiveSnoc(steps: seq<FlatStep>, s: FlatStep)
    ensures Active(steps + [s]) == SwitchedTo(Active(steps), s)
  {
    assert (steps + [s])[..|steps|] == steps;
  }

  lemma SessionStep(steps: seq<FlatStep>, failing: nat, i: nat)
    requires i < |steps|
    ensures SessionBefore(steps, i + 1) == SwitchedTo(SessionBefore(steps, i), steps[i])
    ensures CandidateSession(steps, failing, i + 1)
         == if Dropped(steps, failing, i) then CandidateSession(steps, failing, i)
            else SwitchedTo(CandidateSession(steps, failing, i), steps[i])
  {
    hide Dropped, Pick, KeptPositions, Active;
    assert steps[..i + 1] == steps[..i] + [steps[i]];
    ActiveSnoc(steps[..i], steps[i]);
    KeptSnoc(steps, failing, i);
    ActiveSnoc(Pick(steps, KeptPositions(steps, failing, i)), steps[i]);
  }

  /** Where a position lies among the blocks that go, and the next one. */
  lemma WithinStep(steps: seq<FlatStep>, failing: nat, i: nat)
    requires i < |steps|
    ensures InDropped(steps, failing, i) ==> Within(steps, failing, i) || steps[i].BeginProperty?
    ensures InDropped(steps, failing, i) ==> Within(steps, failing, i + 1) || steps[i].EndProperty?
    ensures InDropped(steps, failing, i) && steps[i].EndProperty? ==> Within(steps, failing, i) && !Within(steps, failing, i + 1)
    ensures InDropped(steps, failing, i) && steps[i].BeginProperty? ==> !Within(steps, failing, i) && Within(steps, failing, i + 1)
    ensures !InDropped(steps, failing, i) ==> !Within(steps, failing, i) && !Within(steps, failing, i + 1)
  {
    if InDropped(steps, failing, i) {
      var b, e :| Unrelated(steps, failing, b, e) && b <= i <= e;
      OneBlock(steps, failing, i, b, e);
    }
  }

  lemma OneBlock(steps: seq<FlatStep>, failing: nat, i: nat, b: int, e: int)
    requires i < |steps| && Unrelated(steps, failing, b, e) && b <= i <= e
    ensures Within(steps, failing, i) <==> b < i
    ensures Within(steps, failing, i + 1) <==> i < e
  {
    if Within(steps, failing, i) {
      var b', e' :| Unrelated(steps, failing, b', e') && b' < i <= e';
      if (b, e) != (b', e') { SpansDisjoint(steps, b, e, b', e'); }
    }
    if Within(steps, failing, i + 1) {
      var b', e' :| Unrelated(steps, failing, b', e') && b' < i + 1 <= e';
      if (b, e) != (b', e') { SpansDisjoint(steps, b, e, b', e'); }
    }
  }

  /** Dropping leaves the session alone outside the blocks that go, and leaves it at the first one within them. */
  lemma {:induction false} SessionsFollow(steps: seq<FlatStep>, failing: nat, i: nat)
    requires i <= |steps| && BlocksStartHome(steps)
    ensures CandidateSession(steps, failing, i) == if Within(steps, failing, i) then 0 else SessionBefore(steps, i)
    decreases i
  {
    hide Unrelated, Active, Pick, KeptPositions, CandidateSession;
    if i == 0 {
      NoneWithin(steps, failing);
    } else {
      var j := i - 1;
      SessionsFollow(steps, failing, j);
      SessionStep(steps, failing, j);
      WithinStep(steps, failing, j);
      assert Dropped(steps, failing, j) <==> !Always(steps[j]) && InDropped(steps, failing, j);
      hide Within, InDropped, Dropped;
      if steps[j].BeginProperty? { assert SessionBefore(steps, j) == 0; }
    }
  }

  lemma NoneWithin(steps: seq<FlatStep>, failing: nat)
    ensures !Within(steps, failing, 0) && CandidateSession(steps, failing, 0) == SessionBefore(steps, 0)
  {
    NothingPicked(steps, failing);
  }

  /** Each kept step runs in its own session exactly if it is outside the blocks that go, or ran in the first session. */
  lemma KeptSessionIff(steps: seq<FlatStep>, failing: nat, i: nat)
    requires i < |steps| && BlocksStartHome(steps) && !Dropped(steps, failing, i)
    ensures CandidateSession(steps, failing, i) == SessionBefore(steps, i) <==>
              !InDropped(steps, failing, i) || SessionBefore(steps, i) == 0
  {
    hide Unrelated, Active, CandidateSession;
    SessionsFollow(steps, failing, i);
    WithinStep(steps, failing, i);
  }

  /** A block that goes to another session and opens a transaction there, then a failure over another table. */
  function SwitchingBlock(): seq<FlatStep> {
    [BeginProperty("p", 1, ["t"]), Plain(Session(1)), Plain(Tx(Begin(ReadCommitted))), EndProperty(1),
     BeginProperty("q", 2, ["u"]), Plain(Tx(Commit)), EndProperty(2)]
  }

  /** The transaction is opened in the first session instead. */
  lemma TransactionMoves()
    ensures var steps := SwitchingBlock();
            && BlocksStartHome(steps) && Always(steps[2]) && !Dropped(steps, 5, 2)
            && SessionBefore(steps, 2) == 1 && CandidateSession(steps, 5, 2) == 0
  {
    var steps := SwitchingBlock();
    SwitchingSessions();
    assert Unrelated(steps, 5, 0, 3) by { SwitchingSpans(); }
    hide Unrelated, Active, CandidateSession, SwitchingBlock;
    SessionsFollow(steps, 5, 2);
  }

  lemma SwitchingSessions()
    ensures var steps := SwitchingBlock();
            BlocksStartHome(steps) && |steps| == 7 && Always(steps[2]) && SessionBefore(steps, 2) == 1
  {
    var steps := SwitchingBlock();
    assert steps[..0] == [];
    assert steps[..1] == steps[..0] + [steps[0]];
    assert steps[..2] == steps[..1] + [steps[1]];
    assert steps[..3] == steps[..2] + [steps[2]];
    assert steps[..4] == steps[..3] + [steps[3]];
    ActiveSnoc(steps[..0], steps[0]);
    ActiveSnoc(steps[..1], steps[1]);
    ActiveSnoc(steps[..3], steps[3]);
    hide Active;
    assert forall b :: 0 <= b < |steps| && steps[b].BeginProperty? ==> b == 0 || b == 4;
  }

  lemma SwitchingSpans()
    ensures Unrelated(SwitchingBlock(), 5, 0, 3)
  {
    var steps := SwitchingBlock();
    assert IsSpan(steps, 0, 3);
    assert IsSpan(steps, 4, 6);
    assert Suspect(steps, 5, "u");
    forall t | Suspect(steps, 5, t)
      ensures t == "u"
    {
      var b, e :| IsSpan(steps, b, e) && b <= 5 <= e && t in steps[b].tables;
      if (b, e) != (4, 6) { SpansDisjoint(steps, b, e, 4, 6); }
    }
    assert "t" != "u" by { assert "t"[0] != "u"[0]; }
  }

  // ---- nesting ----------------------------------------------------------------------------------------------

  /** The number of the block left open, if the markers fit so far. */
  function BracketStep(open: Option<nat>, s: FlatStep): Option<Option<nat>> {
    match s
    case BeginProperty(_, seqno, _) => if open.Some? then None else Some(Some(seqno))
    case EndProperty(seqno) => if open == Some(seqno) then Some(None) else None
    case Plain(_) => Some(open)
  }

  function Brackets(steps: seq<FlatStep>): Option<Option<nat>> {
    if steps == [] then Some(None)
    else match Brackets(steps[..|steps| - 1])
      case None => None
      case Some(open) => BracketStep(open, steps[|steps| - 1])
  }

  predicate StepOk(isJson: string -> bool, s: FlatStep) {
    match s
    case BeginProperty(name, _, tables) => ValidProperty(name, SortedSet(tables))
    case EndProperty(_) => true
    case Plain(step) => CoreOf(isJson, step).Some? && ValidStep(CoreOf(isJson, step).value)
  }

  predicate StepsOk(isJson: string -> bool, steps: seq<FlatStep>) {
    forall i :: 0 <= i < |steps| ==> StepOk(isJson, steps[i])
  }

  predicate ItemsValid(items: seq<PlanItem>) {
    forall i :: 0 <= i < |items| ==> ValidItem(items[i])
  }

  function OpenSeq(n: Nested): Option<nat>
    requires NestedOk(n)
  {
    if n.open.Some? then Some(n.open.value.seqno) else None
  }

  lemma NestSnoc(isJson: string -> bool, steps: seq<FlatStep>, s: FlatStep)
    ensures NestAll(isJson, Nested([], None), steps + [s])
         == match NestAll(isJson, Nested([], None), steps) case None => None case Some(n) => NestStep(isJson, n, s)
  {
    NestConcat(isJson, Nested([], None), steps, [s]);
    var r := NestAll(isJson, Nested([], None), steps);
    if r.Some? { NestOne(isJson, r.value, s); }
  }

  predicate Cores(isJson: string -> bool, s: FlatStep) { s.Plain? ==> CoreOf(isJson, s.step).Some? }

  /** Taking in one more step keeps the whole valid exactly if the step is valid. */
  lemma NestStepValid(isJson: string -> bool, n: Nested, s: FlatStep)
    requires NestedOk(n)
    ensures NestStep(isJson, n, s).Some? <==> BracketStep(OpenSeq(n), s).Some? && Cores(isJson, s)
    ensures NestStep(isJson, n, s).Some? ==>
              && OpenSeq(NestStep(isJson, n, s).value) == BracketStep(OpenSeq(n), s).value
              && (ItemsValid(CloseOpen(NestStep(isJson, n, s).value)) <==> ItemsValid(CloseOpen(n)) && StepOk(isJson, s))
  {
    var r := NestStep(isJson, n, s);
    if r.Some? {
      var items, items' := CloseOpen(n), CloseOpen(r.value);
      match s
      case BeginProperty(name, seqno, tables) =>
        assert items' == items + [Property(name, seqno, SortedSet(tables), [])];
        ValidSnoc(items, items'[|items|]);
      case EndProperty(_) => assert items' == items;
      case Plain(step) =>
        var core := CoreOf(isJson, step).value;
        if n.open.None? {
          assert items' == items + [Single(core)];
          ValidSnoc(items, Single(core));
        } else {
          ValidGrow(n.items, n.open.value, core);
        }
    }
  }

  lemma ValidSnoc(items: seq<PlanItem>, item: PlanItem)
    ensures ItemsValid(items + [item]) <==> ItemsValid(items) && ValidItem(item)
  {
    var all := items + [item];
    assert forall i :: 0 <= i < |items| ==> all[i] == items[i];
    assert all[|items|] == item;
    if ItemsValid(all) {
      assert forall i :: 0 <= i < |items| ==> ValidItem(all[i]);
    }
  }

  lemma ValidGrow(items: seq<PlanItem>, block: PlanItem, core: Step)
    requires block.Property?
    ensures ItemsValid(items + [block.(steps := block.steps + [core])]) <==> ItemsValid(items + [block]) && ValidStep(core)
  {
    var grown := block.(steps := block.steps + [core]);
    ValidSnoc(items, block);
    ValidSnoc(items, grown);
    assert forall i :: 0 <= i < |block.steps| ==> grown.steps[i] == block.steps[i];
    assert grown.steps[|block.steps|] == core;
    if ValidItem(grown) {
      assert forall i :: 0 <= i < |block.steps| ==> ValidStep(grown.steps[i]);
    }
  }

  lemma {:induction false} NestMeaning(isJson: string -> bool, steps: seq<FlatStep>)
    ensures var r := NestAll(isJson, Nested([], None), steps);
            && (r.Some? <==> Brackets(steps).Some? && forall i :: 0 <= i < |steps| ==> Cores(isJson, steps[i]))
            && (r.Some? ==> OpenSeq(r.value) == Brackets(steps).value)
            && (r.Some? ==> (ItemsValid(CloseOpen(r.value)) <==> StepsOk(isJson, steps)))
    decreases |steps|
  {
    if steps != [] {
      var before, s := steps[..|steps| - 1], steps[|steps| - 1];
      assert steps == before + [s];
      NestMeaning(isJson, before);
      NestSnoc(isJson, before, s);
      var r := NestAll(isJson, Nested([], None), before);
      if r.Some? { NestStepValid(isJson, r.value, s); }
      assert forall i :: 0 <= i < |before| ==> steps[i] == before[i];
      assert StepsOk(isJson, steps) <==> StepsOk(isJson, before) && StepOk(isJson, s);
    }
  }

  /** A flat plan nests exactly when its header is valid, its markers fit and each of its steps is valid. */
  lemma NestsIff(isJson: string -> bool, flat: Flat)
    ensures ToCore(isJson, flat).Some?
       <==> ValidHeader(flat.header) && Brackets(flat.steps).Some? && StepsOk(isJson, flat.steps)
  {
    NestMeaning(isJson, flat.steps);
    if StepsOk(isJson, flat.steps) {
      assert forall i :: 0 <= i < |flat.steps| ==> StepOk(isJson, flat.steps[i]);
    }
  }

  // ---- the candidate's markers fit -----------------------------------------------------------------------------

  /** Position n is inside a block that goes. */
  ghost predicate Inside(steps: seq<FlatStep>, failing: nat, n: nat) {
    exists b, e :: Unrelated(steps, failing, b, e) && b < n <= e
  }

  lemma MarkerInside(steps: seq<FlatStep>, failing: nat, n: nat)
    requires n < |steps|
    ensures steps[n].BeginProperty? ==> !Inside(steps, failing, n) && (Inside(steps, failing, n + 1) <==> Dropped(steps, failing, n))
    ensures steps[n].EndProperty? ==> !Inside(steps, failing, n + 1) && (Inside(steps, failing, n) <==> Dropped(steps, failing, n))
    ensures steps[n].Plain? ==> (Inside(steps, failing, n + 1) <==> Inside(steps, failing, n))
  {
    if IsMarker(steps[n]) {
      assert forall b, e :: IsSpan(steps, b, e) ==> !(b < n < e);
      assert forall b, e :: IsSpan(steps, b, e) && b <= n <= e ==> n == b || n == e;
    }
  }

  lemma {:induction false} PrefixFits(steps: seq<FlatStep>, n: nat)
    requires n <= |steps| && Brackets(steps).Some?
    ensures Brackets(steps[..n]).Some?
    decreases |steps| - n
  {
    if n < |steps| {
      PrefixFits(steps, n + 1);
      assert steps[..n + 1][..n] == steps[..n];
    } else {
      assert steps[..n] == steps;
    }
  }

  lemma BracketsSnoc(steps: seq<FlatStep>, s: FlatStep)
    ensures Brackets(steps + [s]) == match Brackets(steps) case None => None case Some(open) => BracketStep(open, s)
  {
    hide BracketStep;
    assert (steps + [s])[..|steps|] == steps;
  }

  lemma EmptyFits(steps: seq<FlatStep>, failing: nat)
    ensures Brackets(steps[..0]) == Some(None) && !Inside(steps, failing, 0)
    ensures Brackets(Pick(steps, KeptPositions(steps, failing, 0))) == Some(None)
  {
    assert Pick(steps, KeptPositions(steps, failing, 0)) == [];
  }

  lemma {:induction false} CandidateFits(steps: seq<FlatStep>, failing: nat, n: nat)
    requires n <= |steps| && Brackets(steps).Some?
    ensures Brackets(steps[..n]).Some?
    ensures Brackets(Pick(steps, KeptPositions(steps, failing, n)))
         == Some(if Inside(steps, failing, n) then None else Brackets(steps[..n]).value)
    decreases n
  {
    hide Brackets, Pick, KeptPositions, Dropped, Inside;
    if n == 0 {
      EmptyFits(steps, failing);
    } else {
      var m := n - 1;
      CandidateFits(steps, failing, m);
      PrefixFits(steps, n);
      assert steps[..n] == steps[..m] + [steps[m]];
      BracketsSnoc(steps[..m], steps[m]);
      MarkerInside(steps, failing, m);
      KeptSnoc(steps, failing, m);
      if !Dropped(steps, failing, m) {
        BracketsSnoc(Pick(steps, KeptPositions(steps, failing, m)), steps[m]);
      }
    }
  }

  /** Whatever nests to a valid plan still does after shrinking. */
  lemma CandidateNests(isJson: string -> bool, flat: Flat, failing: nat)
    requires failing < |flat.steps| && ToCore(isJson, flat).Some?
    ensures ToCore(isJson, Flat(flat.header, Candidate(flat.steps, failing))).Some?
  {
    var c := Candidate(flat.steps, failing);
    NestsIff(isJson, flat);
    CandidateFits(flat.steps, failing, failing + 1);
    assert StepsOk(isJson, c);
    NestsIff(isJson, Flat(flat.header, c));
  }
}
