/** Text to integer: the meaning of a numeral, and the two-path parser that must agree with it. */
module IntParse {
  import opened Common

  // ---- characters --------------------------------------------------------------------------------------

  predicate IsSpace(c: char) {
    c == ' ' || 9 <= c as int <= 13
  }

  /** What a digit counts in a base, if it is one. */
  function DigitIn(c: char, base: nat): (d: Option<nat>)
    requires base == 2 || base == 8 || base == 10 || base == 16
    ensures d.Some? ==> d.value < base && !IsSpace(c) && c != '_' && c != '\0'
  {
    var n := c as int;
    if '0' <= c <= '9' then (if n - 48 < base then Some(n - 48) else None)
    else if base == 16 && 'a' <= c <= 'f' then Some(n - 87)
    else if base == 16 && 'A' <= c <= 'F' then Some(n - 55)
    else None
  }

  predicate IsDigitIn(c: char, base: nat)
    requires base == 2 || base == 8 || base == 10 || base == 16
  {
    DigitIn(c, base).Some?
  }

  type Base = b: nat | b == 2 || b == 8 || b == 10 || b == 16 witness 10

  // ---- the grammar --------------------------------------------------------------------------------------

  /** Digits, each with at most one underscore before it. */
  predicate RunOk(t: string, base: Base) {
    t == ""
    || (IsDigitIn(t[0], base) && RunOk(t[1..], base))
    || (t[0] == '_' && |t| > 1 && IsDigitIn(t[1], base) && RunOk(t[1..], base))
  }

  /** The number read so far carried through the rest. */
  function Accumulate(t: string, base: Base, acc: nat): nat {
    if t == "" then acc
    else match DigitIn(t[0], base)
      case Some(d) => Accumulate(t[1..], base, acc * base + d)
      case None => Accumulate(t[1..], base, acc)
  }

  /** The base a numeral is written in and its digits. */
  function Form(body: string): (Base, string) {
    if |body| < 2 || body[0] != '0' then (10, body)
    else if body[1] == 'x' || body[1] == 'X' then (16, body[2..])
    else if body[1] == 'o' || body[1] == 'O' then (8, body[2..])
    else if body[1] == 'b' || body[1] == 'B' then (2, body[2..])
    else (10, body)
  }

  /** A prefixed numeral may start with an underscore, a decimal one may not. */
  predicate BodyOk(body: string) {
    var (base, digits) := Form(body);
    digits != "" && RunOk(digits, base) && (digits == body ==> digits[0] != '_')
  }

  function Magnitude(body: string): nat {
    var (base, digits) := Form(body);
    Accumulate(digits, base, 0)
  }

  /** Where the text starts once leading spaces are skipped. */
  function SkipSpaces(s: string, i: nat): (j: nat)
    requires i <= |s|
    ensures i <= j <= |s| && (j < |s| ==> !IsSpace(s[j]))
    ensures forall k :: i <= k < j ==> IsSpace(s[k])
    decreases |s| - i
  {
    if i < |s| && IsSpace(s[i]) then SkipSpaces(s, i + 1) else i
  }

  /** Where the text ends once trailing spaces are dropped. */
  function TextEnd(s: string): (e: nat)
    ensures e <= |s| && (e > 0 ==> !IsSpace(s[e - 1]))
    ensures forall k :: e <= k < |s| ==> IsSpace(s[k])
  {
    if s != "" && IsSpace(s[|s| - 1]) then TextEnd(s[..|s| - 1]) else |s|
  }

  /** Where the numeral starts, after an optional sign. */
  function BodyStart(s: string): (i: nat)
    ensures i <= |s|
  {
    var i := SkipSpaces(s, 0);
    if i < |s| && (s[i] == '-' || s[i] == '+') then i + 1 else i
  }

  predicate Negative(s: string) {
    var i := SkipSpaces(s, 0);
    i < |s| && s[i] == '-'
  }

  /** The numeral itself. */
  function Body(s: string): string {
    var i, e := BodyStart(s), TextEnd(s);
    if i <= e then s[i..e] else ""
  }

  /** The integer a text denotes: spaces, a sign, a numeral, spaces. */
  function Meaning(s: string): Option<int> {
    if BodyOk(Body(s)) then Some(if Negative(s) then 0 - Magnitude(Body(s)) else Magnitude(Body(s))) else None
  }

  // ---- facts about runs ---------------------------------------------------------------------------------

  lemma {:induction false} AccumulateGrows(t: string, base: Base, acc: nat)
    ensures Accumulate(t, base, acc) >= acc
    ensures t != "" && IsDigitIn(t[0], base) ==> Accumulate(t, base, acc) >= acc * base
    decreases |t|
  {
    if t != "" {
      match DigitIn(t[0], base)
      case Some(d) =>
        AccumulateGrows(t[1..], base, acc * base + d);
        assert acc * base >= acc;
      case None => AccumulateGrows(t[1..], base, acc);
    }
  }

  // ---- the parser ----------------------------------------------------------------------------------------

  datatype Parsed = Value(v: int) | OutOfRange | Invalid

  /** Reading on from a number, a digit is met that no longer fits before anything out of place is. */
  predicate TooBig(t: string, base: Base, acc: nat, half: nat) {
    && t != ""
    && match DigitIn(t[0], base)
       case Some(d) => acc > half / base || TooBig(t[1..], base, acc * base + d, half)
       case None => t[0] == '_' && |t| > 1 && IsDigitIn(t[1], base) && TooBig(t[1..], base, acc, half)
  }

  /** The numeral overruns the type before its first fault, if it has one. */
  predicate Overruns(body: string, half: nat) {
    var (base, digits) := Form(body);
    !(digits == body && digits != "" && digits[0] == '_') && TooBig(digits, base, 0, half)
  }

  /** What the parser must return, for the type with values from -half up to half - 1. */
  predicate Correct(s: string, half: nat, r: Parsed) {
    match Meaning(s)
    case None => r == if Overruns(Body(s), half) then OutOfRange else Invalid
    case Some(v) => r == if 0 - half <= v < half then Value(v) else OutOfRange
  }

  /** The same for a numeral and a sign. */
  predicate Right(body: string, neg: bool, half: nat, r: Parsed) {
    if !BodyOk(body) then r == if Overruns(body, half) then OutOfRange else Invalid
    else
      var v := if neg then 0 - Magnitude(body) else Magnitude(body);
      r == if 0 - half <= v < half then Value(v) else OutOfRange
  }

  predicate IsHalf(half: nat) {
    half == 0x8000 || half == 0x8000_0000 || half == 0x8000_0000_0000_0000
  }

  /** A string as C sees it: a NUL after the last character. */
  function At(s: string, i: nat): char { if i < |s| then s[i] else '\0' }

  /** The accumulator's arithmetic wraps at twice half. */
  function Unsigned(x: nat, half: nat): nat
    requires half > 0
  {
    x % (2 * half)
  }

  /** Its width, by value. */
  lemma UnsignedWidth()
    ensures Unsigned(0x1_0000, 0x8000) == 0 && Unsigned(0xFFFF, 0x8000) == 0xFFFF
    ensures Unsigned(0x1_0000_0000, 0x8000_0000) == 0 && Unsigned(0xFFFF_FFFF, 0x8000_0000) == 0xFFFF_FFFF
  {
  }

  lemma GuardKeepsSmall(tmp: nat, base: Base, d: nat, half: nat)
    requires IsHalf(half) && tmp <= half / base && d < base
    ensures tmp * base + d < 2 * half && Unsigned(tmp * base + d, half) == tmp * base + d
  {
    assert tmp * base <= half;
  }

  lemma GuardRejects(tmp: nat, base: Base, half: nat)
    requires IsHalf(half) && tmp > half / base
    ensures tmp * base > half
  {
    assert tmp >= half / base + 1;
  }

  /** Sign and range of a finished numeral. */
  function Finish(tmp: nat, neg: bool, half: nat): Parsed {
    if neg then (if tmp > half then OutOfRange else Value(0 - tmp))
    else if tmp > half - 1 then OutOfRange
    else Value(tmp)
  }

  datatype Scan = Stopped | Overflow | Bad

  /** A numeral that is too big on the way is too big in the end. */
  lemma {:induction false} TooBigIsLarge(t: string, base: Base, acc: nat, half: nat)
    requires IsHalf(half) && TooBig(t, base, acc, half)
    ensures Accumulate(t, base, acc) > half
    decreases |t|
  {
    match DigitIn(t[0], base)
    case Some(d) =>
      if acc > half / base {
        GuardRejects(acc, base, half);
        AccumulateGrows(t, base, acc);
      } else {
        TooBigIsLarge(t[1..], base, acc * base + d, half);
      }
    case None => TooBigIsLarge(t[1..], base, acc, half);
  }

  lemma DigitTurn(t: string, base: Base, acc: nat, half: nat)
    requires t != "" && IsDigitIn(t[0], base)
    ensures var d := DigitIn(t[0], base).value;
            && (RunOk(t, base) <==> RunOk(t[1..], base))
            && Accumulate(t, base, acc) == Accumulate(t[1..], base, acc * base + d)
            && (TooBig(t, base, acc, half) <==> acc > half / base || TooBig(t[1..], base, acc * base + d, half))
  {
  }

  lemma UnderscoreTurn(t: string, base: Base, acc: nat, half: nat)
    requires t != "" && t[0] == '_'
    ensures |t| > 1 && IsDigitIn(t[1], base) ==>
              && (RunOk(t, base) <==> RunOk(t[1..], base))
              && Accumulate(t, base, acc) == Accumulate(t[1..], base, acc)
              && (TooBig(t, base, acc, half) <==> TooBig(t[1..], base, acc, half))
    ensures !(|t| > 1 && IsDigitIn(t[1], base)) ==> !RunOk(t, base) && !TooBig(t, base, acc, half)
  {
  }

  lemma StopTurn(t: string, base: Base, acc: nat, half: nat)
    requires t != "" ==> !IsDigitIn(t[0], base) && t[0] != '_'
    ensures !TooBig(t, base, acc, half) && (RunOk(t, base) <==> t == "") && (t == "" ==> Accumulate(t, base, acc) == acc)
  {
  }

  /** The digit loop: from a position to the first character that is neither digit nor underscore. */
  method ScanRun(s: string, first: nat, base: Base, decimal: bool, half: nat, ghost end: nat)
    returns (how: Scan, ptr: nat, tmp: nat)
    requires '\0' !in s && IsHalf(half) && first <= end <= |s|
    requires forall k :: end <= k < |s| ==> IsSpace(s[k])
    ensures first <= ptr <= end && tmp < 2 * half
    ensures var run := s[first..end];
            var led := decimal && first < end && s[first] == '_';
            match how
            case Bad => led || (!RunOk(run, base) && !TooBig(run, base, 0, half))
            case Overflow => !led && TooBig(run, base, 0, half)
            case Stopped =>
              && !led
              && (ptr < end ==> !RunOk(run, base) && !TooBig(run, base, 0, half))
              && (ptr == end ==> RunOk(run, base) && tmp == Accumulate(run, base, 0))
  {
    hide RunOk, Accumulate, TooBig;
    ptr, tmp := first, 0;
    while true
      invariant first <= ptr <= end && tmp < 2 * half
      invariant RunOk(s[first..end], base) <==> RunOk(s[ptr..end], base)
      invariant Accumulate(s[first..end], base, 0) == Accumulate(s[ptr..end], base, tmp)
      invariant TooBig(s[first..end], base, 0, half) <==> TooBig(s[ptr..end], base, tmp, half)
      invariant decimal && first < ptr ==> s[first] != '_'
      decreases end - ptr
    {
      ghost var rest := s[ptr..end];
      var c := At(s, ptr);
      if IsDigitIn(c, base) {
        RestAt(s, ptr, end);
        DigitTurn(rest, base, tmp, half);
        if tmp > half / base {
          return Overflow, ptr, tmp;
        }
        GuardKeepsSmall(tmp, base, DigitIn(c, base).value, half);
        tmp := Unsigned(tmp * base + DigitIn(c, base).value, half);
        ptr := ptr + 1;
      } else if c == '_' {
        RestAt(s, ptr, end);
        UnderscoreTurn(rest, base, tmp, half);
        if decimal && ptr == first {
          return Bad, ptr, tmp;
        }
        ptr := ptr + 1;
        if !IsDigitIn(At(s, ptr), base) {
          return Bad, ptr, tmp;
        }
      } else {
        StopTurn(rest, base, tmp, half);
        return Stopped, ptr, tmp;
      }
    }
  }

  /** The rest of a text, one character on. */
  lemma RestAt(s: string, ptr: nat, end: nat)
    requires '\0' !in s && ptr <= end <= |s| && At(s, ptr) != '\0' && !IsSpace(At(s, ptr))
    requires forall k :: end <= k < |s| ==> IsSpace(s[k])
    ensures ptr < end && s[ptr..end][0] == s[ptr] && s[ptr..end][1..] == s[ptr + 1..end]
    ensures ptr + 1 < end ==> s[ptr..end][1] == s[ptr + 1]
  {
  }

  /** The end of the text, or where the numeral would start if there is none. */
  function BodyEnd(s: string): (e: nat)
    ensures BodyStart(s) <= e <= |s| && Body(s) == s[BodyStart(s)..e]
    ensures forall k :: e <= k < |s| ==> IsSpace(s[k])
    ensures e > BodyStart(s) ==> !IsSpace(s[e - 1])
  {
    if BodyStart(s) <= TextEnd(s) then TextEnd(s) else BodyStart(s)
  }

  method SkipSpacesFrom(s: string, i: nat) returns (j: nat)
    requires '\0' !in s && i <= |s|
    ensures j == SkipSpaces(s, i)
  {
    j := i;
    while IsSpace(At(s, j))
      invariant i <= j <= |s| && SkipSpaces(s, j) == SkipSpaces(s, i)
      decreases |s| - j
    {
      j := j + 1;
    }
  }

  /** The base and the first digit position, by the two characters at the start. */
  method Prefix(s: string, start: nat, ghost end: nat) returns (base: Base, first: nat)
    requires '\0' !in s && start <= end <= |s|
    requires forall k :: end <= k < |s| ==> IsSpace(s[k])
    ensures first == start || first == start + 2 <= end
    ensures Form(s[start..end]) == (base, s[first..end])
    ensures (first == start) <==> s[first..end] == s[start..end]
  {
    var body := s[start..end];
    if At(s, start) == '0' && (At(s, start + 1) == 'x' || At(s, start + 1) == 'X') {
      assert body[0] == s[start] && body[1] == s[start + 1] && body[2..] == s[start + 2..end];
      return 16, start + 2;
    }
    if At(s, start) == '0' && (At(s, start + 1) == 'o' || At(s, start + 1) == 'O') {
      assert body[0] == s[start] && body[1] == s[start + 1] && body[2..] == s[start + 2..end];
      return 8, start + 2;
    }
    if At(s, start) == '0' && (At(s, start + 1) == 'b' || At(s, start + 1) == 'B') {
      assert body[0] == s[start] && body[1] == s[start + 1] && body[2..] == s[start + 2..end];
      return 2, start + 2;
    }
    assert |body| >= 2 ==> body[0] == s[start] && body[1] == s[start + 1];
    return 10, start;
  }

  lemma OnlySpacesLeft(s: string, ptr: nat, end: nat)
    requires ptr <= end <= |s|
    requires forall k :: end <= k < |s| ==> IsSpace(s[k])
    requires end > ptr ==> !IsSpace(s[end - 1])
    ensures SkipSpaces(s, ptr) == |s| <==> ptr == end
  {
    var last := SkipSpaces(s, ptr);
    assert forall k :: ptr <= k < last ==> IsSpace(s[k]);
  }

  method ReadSign(s: string) returns (start: nat, neg: bool)
    requires '\0' !in s
    ensures start == BodyStart(s) && neg == Negative(s)
  {
    start := SkipSpacesFrom(s, 0);
    neg := false;
    if At(s, start) == '-' {
      start, neg := start + 1, true;
    } else if At(s, start) == '+' {
      start := start + 1;
    }
  }

  method ReadNumeral(s: string, start: nat, neg: bool, half: nat, ghost end: nat) returns (r: Parsed)
    requires '\0' !in s && IsHalf(half) && start <= end <= |s|
    requires forall k :: end <= k < |s| ==> IsSpace(s[k])
    requires end > start ==> !IsSpace(s[end - 1])
    ensures Right(s[start..end], neg, half, r)
  {
    hide RunOk, Accumulate, SkipSpaces, Form;
    var base, first := Prefix(s, start, end);
    var how, ptr, tmp := ScanRun(s, first, base, first == start, half, end);
    if how == Bad {
      return Invalid;
    }
    if how == Overflow {
      TooBigIsLarge(s[first..end], base, 0, half);
      return OutOfRange;
    }
    if ptr == first {
      return Invalid;
    }
    var last := SkipSpacesFrom(s, ptr);
    OnlySpacesLeft(s, ptr, end);
    if last < |s| {
      return Invalid;
    }
    r := Finish(tmp, neg, half);
  }

  /** All bases, signs, underscores and surrounding spaces. */
  method SlowPath(s: string, half: nat) returns (r: Parsed)
    requires '\0' !in s && IsHalf(half)
    ensures Correct(s, half, r)
  {
    var start, neg := ReadSign(s);
    r := ReadNumeral(s, start, neg, half, BodyEnd(s));
  }

  /** The fast path's loop, over digits alone. */
  method FastDigits(s: string, start: nat, half: nat, ghost end: nat) returns (over: bool, ptr: nat, tmp: nat)
    requires '\0' !in s && IsHalf(half) && start < end <= |s| && IsDigitIn(s[start], 10)
    requires forall k :: end <= k < |s| ==> IsSpace(s[k])
    ensures start < ptr <= end && tmp < 2 * half
    ensures over || ptr > start + 1 ==> start + 1 < end && IsDigitIn(s[start + 1], 10)
    ensures over ==> TooBig(s[start..end], 10, 0, half)
    ensures !over && ptr == end ==> RunOk(s[start..end], 10) && tmp == Accumulate(s[start..end], 10, 0)
  {
    hide RunOk, Accumulate, TooBig;
    RestAt(s, start, end);
    DigitTurn(s[start..end], 10, 0, half);
    ptr, tmp := start + 1, DigitIn(s[start], 10).value;
    while IsDigitIn(At(s, ptr), 10)
      invariant start < ptr <= end && tmp < 2 * half
      invariant ptr > start + 1 ==> IsDigitIn(s[start + 1], 10)
      invariant RunOk(s[start..end], 10) <==> RunOk(s[ptr..end], 10)
      invariant Accumulate(s[start..end], 10, 0) == Accumulate(s[ptr..end], 10, tmp)
      invariant TooBig(s[ptr..end], 10, tmp, half) ==> TooBig(s[start..end], 10, 0, half)
      decreases end - ptr
    {
      RestAt(s, ptr, end);
      DigitTurn(s[ptr..end], 10, tmp, half);
      if tmp > half / 10 {
        return true, ptr, tmp;
      }
      GuardKeepsSmall(tmp, 10, DigitIn(At(s, ptr), 10).value, half);
      tmp := Unsigned(tmp * 10 + DigitIn(At(s, ptr), 10).value, half);
      ptr := ptr + 1;
    }
    if ptr == end { StopTurn(s[ptr..end], 10, tmp, half); }
    return false, ptr, tmp;
  }

  /** A text that starts with a digit, or a minus and a digit, starts its numeral there. */
  lemma FastBody(s: string, start: nat, neg: bool)
    requires '\0' !in s && start == (if neg then 1 else 0) && (neg <==> At(s, 0) == '-') && IsDigitIn(At(s, start), 10)
    ensures start == BodyStart(s) && neg == Negative(s) && start < BodyEnd(s)
    ensures Body(s)[0] == s[start] && (start + 1 < BodyEnd(s) ==> Body(s)[1] == s[start + 1])
  {
  }

  /** Plain decimal digits up to the end of the string; anything else is left to the slow path. */
  method FastPath(s: string, half: nat) returns (done: bool, r: Parsed)
    requires '\0' !in s && IsHalf(half)
    ensures done ==> Correct(s, half, r)
  {
    hide SkipSpaces, TextEnd, RunOk, Accumulate, TooBig, BodyStart, BodyEnd, Body, Negative;
    var start, neg := 0, false;
    if At(s, 0) == '-' {
      start, neg := 1, true;
    }
    if !IsDigitIn(At(s, start), 10) {
      return false, Invalid;
    }
    FastBody(s, start, neg);
    ghost var end := BodyEnd(s);
    var over, ptr, tmp := FastDigits(s, start, half, end);
    if over {
      DecimalForm(Body(s));
      TooBigIsLarge(Body(s), 10, 0, half);
      return true, OutOfRange;
    }
    if ptr < |s| {
      return false, Invalid;
    }
    DecimalForm(Body(s));
    return true, Finish(tmp, neg, half);
  }

  lemma DecimalForm(body: string)
    requires |body| >= 1 && IsDigitIn(body[0], 10) && (|body| >= 2 ==> IsDigitIn(body[1], 10))
    ensures Form(body) == (10, body) && body[0] != '_'
  {
  }

  /** The whole parser: a value exactly when the text denotes one in range. */
  method StrToInt(s: string, half: nat) returns (r: Parsed)
    requires '\0' !in s && IsHalf(half)
    ensures Correct(s, half, r)
    ensures r.Value? ==> (!Documented(Body(s)) <==> UnderscoreLed(Body(s)))
  {
    hide Correct, Documented, UnderscoreLed;
    var done;
    done, r := FastPath(s, half);
    if !done {
      r := SlowPath(s, half);
    }
    if r.Value? { ValueAgainstTheRule(s, half, r); }
  }

  // ---- the documented rule about underscores -------------------------------------------------------------

  /** Digits, with every underscore between two of them. */
  predicate DocumentedRun(t: string, base: Base) {
    && t != ""
    && (forall i :: 0 <= i < |t| ==> IsDigitIn(t[i], base) || t[i] == '_')
    && Between(t, base)
  }

  predicate Between(t: string, base: Base) {
    forall i :: 0 <= i < |t| && t[i] == '_' ==> 0 < i < |t| - 1 && IsDigitIn(t[i - 1], base) && IsDigitIn(t[i + 1], base)
  }

  predicate Documented(body: string) {
    var (base, digits) := Form(body);
    DocumentedRun(digits, base)
  }

  /** The family the code lets through beyond the rule: an underscore right after a base prefix. */
  predicate UnderscoreLed(body: string) {
    var (base, digits) := Form(body);
    digits != body && digits != "" && digits[0] == '_' && DocumentedRun(digits[1..], base)
  }

  /** Each character is a digit or an underscore with a digit after it. */
  predicate Followed(t: string, base: Base) {
    forall i :: 0 <= i < |t| ==> FollowedAt(t, i, base)
  }

  predicate FollowedAt(t: string, i: nat, base: Base)
    requires i < |t|
  {
    IsDigitIn(t[i], base) || (t[i] == '_' && i + 1 < |t| && IsDigitIn(t[i + 1], base))
  }

  lemma FollowedTail(t: string, base: Base)
    requires t != ""
    ensures Followed(t, base) <==> FollowedAt(t, 0, base) && Followed(t[1..], base)
  {
    if FollowedAt(t, 0, base) && Followed(t[1..], base) {
      forall i | 0 <= i < |t|
        ensures FollowedAt(t, i, base)
      {
        if i > 0 { assert FollowedAt(t[1..], i - 1, base); }
      }
    }
    if Followed(t, base) {
      forall i | 0 <= i < |t| - 1
        ensures FollowedAt(t[1..], i, base)
      {
        assert FollowedAt(t, i + 1, base);
      }
    }
  }

  lemma {:induction false} RunIsFollowed(t: string, base: Base)
    ensures RunOk(t, base) <==> Followed(t, base)
  {
    if t != "" {
      FollowedTail(t, base);
      RunIsFollowed(t[1..], base);
    }
  }

  /** A run the code accepts keeps the documented rule if and only if it does not start with an underscore. */
  lemma RunDocumentedIff(t: string, base: Base)
    requires t != ""
    ensures DocumentedRun(t, base) <==> RunOk(t, base) && t[0] != '_'
  {
    RunIsFollowed(t, base);
    if Followed(t, base) && t[0] != '_' {
      forall i | 0 <= i < |t| && t[i] == '_'
        ensures 0 < i < |t| - 1 && IsDigitIn(t[i - 1], base) && IsDigitIn(t[i + 1], base)
      {
        assert FollowedAt(t, i, base) && FollowedAt(t, i - 1, base);
      }
      forall i | 0 <= i < |t|
        ensures IsDigitIn(t[i], base) || t[i] == '_'
      {
        assert FollowedAt(t, i, base);
      }
    }
    if DocumentedRun(t, base) {
      assert forall i :: 0 <= i < |t| ==> FollowedAt(t, i, base);
      assert t[0] == '_' ==> 0 < 0;
    }
  }

  /** Position k holds a digit reached by a legal run that already counts more than the limit allows. */
  predicate Breaks(t: string, base: Base, acc: nat, half: nat, k: nat) {
    k < |t| && IsDigitIn(t[k], base) && Followed(t[..k + 1], base) && Accumulate(t[..k], base, acc) > half / base
  }

  lemma BreaksNow(t: string, base: Base, acc: nat, half: nat)
    ensures Breaks(t, base, acc, half, 0) <==> t != "" && IsDigitIn(t[0], base) && acc > half / base
  {
    if t != "" && IsDigitIn(t[0], base) {
      assert FollowedAt(t[..1], 0, base);
      assert t[..0] == "";
    }
  }

  lemma BreaksLater(t: string, base: Base, acc: nat, half: nat, k: nat)
    requires k + 1 < |t|
    ensures var acc' := match DigitIn(t[0], base) case Some(d) => acc * base + d case None => acc;
            Breaks(t, base, acc, half, k + 1) <==> FollowedAt(t, 0, base) && Breaks(t[1..], base, acc', half, k)
  {
    FollowedTail(t[..k + 2], base);
    assert t[..k + 2][1..] == t[1..][..k + 1];
    assert t[..k + 1][0] == t[0] && t[..k + 1][1..] == t[1..][..k];
  }

  lemma {:induction false} OverrunBreaks(t: string, base: Base, acc: nat, half: nat) returns (k: nat)
    requires TooBig(t, base, acc, half)
    ensures Breaks(t, base, acc, half, k)
    decreases |t|
  {
    hide Followed, Accumulate;
    BreaksNow(t, base, acc, half);
    match DigitIn(t[0], base)
    case Some(d) =>
      if acc > half / base {
        k := 0;
      } else {
        k := OverrunBreaks(t[1..], base, acc * base + d, half);
        BreaksLater(t, base, acc, half, k);
        k := k + 1;
      }
    case None =>
      k := OverrunBreaks(t[1..], base, acc, half);
      BreaksLater(t, base, acc, half, k);
      k := k + 1;
  }

  lemma {:induction false} BreakOverruns(t: string, base: Base, acc: nat, half: nat, k: nat)
    requires Breaks(t, base, acc, half, k)
    ensures TooBig(t, base, acc, half)
    decreases |t|
  {
    hide Followed, Accumulate;
    if k == 0 {
      BreaksNow(t, base, acc, half);
    } else {
      BreaksLater(t, base, acc, half, k - 1);
      match DigitIn(t[0], base)
      case Some(d) => BreakOverruns(t[1..], base, acc * base + d, half, k - 1);
      case None => BreakOverruns(t[1..], base, acc, half, k - 1);
    }
  }

  /** The range error comes before the syntax error if and only if the limit is passed at some digit before the fault. */
  lemma TooBigMeaning(t: string, base: Base, half: nat)
    ensures TooBig(t, base, 0, half) <==> exists k: nat :: Breaks(t, base, 0, half, k)
  {
    hide TooBig, Breaks;
    if TooBig(t, base, 0, half) {
      var k := OverrunBreaks(t, base, 0, half);
    }
    if k: nat :| Breaks(t, base, 0, half, k) {
      BreakOverruns(t, base, 0, half, k);
    }
  }

  /** The code accepts the documented numerals, those with one underscore right after a base prefix, and no others. */
  lemma AcceptedIff(body: string)
    ensures BodyOk(body) <==> Documented(body) || UnderscoreLed(body)
    ensures BodyOk(body) ==> (Documented(body) <==> !UnderscoreLed(body))
  {
    var (base, digits) := Form(body);
    if digits != "" {
      RunDocumentedIff(digits, base);
      if digits[0] == '_' && |digits| > 1 { RunDocumentedIff(digits[1..], base); }
    }
  }

  /** A value is returned against the documented rule exactly for the underscore right after a base prefix. */
  lemma ValueAgainstTheRule(s: string, half: nat, r: Parsed)
    requires Correct(s, half, r) && r.Value?
    ensures !Documented(Body(s)) <==> UnderscoreLed(Body(s))
    ensures UnderscoreLed(Body(s)) <==> Form(Body(s)).1 != Body(s) && Form(Body(s)).1[0] == '_'
  {
    hide RunOk, Form, Body;
    AcceptedIff(Body(s));
    var (base, digits) := Form(Body(s));
    RunDocumentedIff(digits, base);
  }

  /** An underscore right after a base prefix is let through, although underscores are meant to stand between digits. */
  lemma UnderscoreAfterPrefix()
    ensures Meaning("0x_1F") == Some(31) && Meaning("_1") == None
  {
    assert SkipSpaces("0x_1F", 0) == 0 && TextEnd("0x_1F") == 5;
    assert "0x_1F"[0..5] == "0x_1F" && "0x_1F"[2..] == "_1F" && "_1F"[1..] == "1F" && "1F"[1..] == "F" && "F"[1..] == "";
    assert Accumulate("_1F", 16, 0) == Accumulate("1F", 16, 0) == Accumulate("F", 16, 1) == Accumulate("", 16, 31);
    assert SkipSpaces("_1", 0) == 0 && TextEnd("_1") == 2 && "_1"[0..2] == "_1";
  }

  // ---- numerals written out --------------------------------------------------------------------------------

  /** The digits in their order, in one case or the other. */
  function Alphabet(upper: bool): (s: string)
    ensures |s| == 16
  {
    if upper then "0123456789ABCDEF" else "0123456789abcdef"
  }

  /** Each digit counts its place in the alphabet, in every base that has it. */
  lemma DigitsSpelled(d: nat, upper: bool, base: Base)
    requires d < 16
    ensures DigitIn(Alphabet(upper)[d], base) == if d < base then Some(d) else None
  {
  }

  /** Nothing else is a digit. */
  lemma DigitsOnly(c: char, base: Base)
    ensures IsDigitIn(c, base) <==> exists d :: 0 <= d < base && (Alphabet(false)[d] == c || Alphabet(true)[d] == c)
  {
    if IsDigitIn(c, base) {
      var d := DigitIn(c, base).value;
      assert Alphabet(false)[d] == c || Alphabet(true)[d] == c;
    }
    if d :| 0 <= d < base && (Alphabet(false)[d] == c || Alphabet(true)[d] == c) {
      DigitsSpelled(d, false, base);
      DigitsSpelled(d, true, base);
    }
  }

  /** A number's digits by repeated division. */
  function Spelled(n: nat, base: Base, upper: bool): (s: string)
    ensures s != ""
  {
    if n < base then [Alphabet(upper)[n]] else Spelled(n / base, base, upper) + [Alphabet(upper)[n % base]]
  }

  predicate AllDigits(t: string, base: Base) { forall i :: 0 <= i < |t| ==> IsDigitIn(t[i], base) }

  lemma {:induction false} AccumulateSnoc(t: string, base: Base, acc: nat, c: char)
    requires IsDigitIn(c, base)
    ensures Accumulate(t + [c], base, acc) == Accumulate(t, base, acc) * base + DigitIn(c, base).value
    decreases |t|
  {
    if t == "" {
      assert t + [c] == [c];
    } else {
      assert (t + [c])[1..] == t[1..] + [c];
      match DigitIn(t[0], base)
      case Some(d) => AccumulateSnoc(t[1..], base, acc * base + d, c);
      case None => AccumulateSnoc(t[1..], base, acc, c);
    }
  }

  lemma {:induction false} DigitsRunOk(t: string, base: Base)
    requires AllDigits(t, base)
    ensures RunOk(t, base)
    decreases |t|
  {
    if t != "" { DigitsRunOk(t[1..], base); }
  }

  lemma Divided(n: nat, base: Base)
    ensures (n / base) * base + n % base == n && n % base < base && (n >= base ==> n / base < n)
  {
  }

  lemma DigitsSnoc(t: string, base: Base, c: char)
    requires AllDigits(t, base) && IsDigitIn(c, base)
    ensures AllDigits(t + [c], base)
  {
  }

  lemma {:induction false} SpelledReads(n: nat, base: Base, upper: bool)
    ensures var t := Spelled(n, base, upper); AllDigits(t, base) && Accumulate(t, base, 0) == n
    decreases n
  {
    hide DigitIn, Alphabet, AllDigits;
    Divided(n, base);
    if n < base {
      DigitsSpelled(n, upper, base);
      OneDigit(Alphabet(upper)[n], base);
    } else {
      var front, last := Spelled(n / base, base, upper), Alphabet(upper)[n % base];
      SpelledReads(n / base, base, upper);
      DigitsSpelled(n % base, upper, base);
      AccumulateSnoc(front, base, 0, last);
      DigitsSnoc(front, base, last);
    }
  }

  lemma OneDigit(c: char, base: Base)
    requires IsDigitIn(c, base)
    ensures AllDigits([c], base) && Accumulate([c], base, 0) == DigitIn(c, base).value
  {
    hide DigitIn;
    AccumulateSnoc("", base, 0, c);
    assert "" + [c] == [c];
  }

  /** A run without its underscores. */
  function Plainly(t: string): string {
    if t == "" then "" else (if t[0] == '_' then "" else [t[0]]) + Plainly(t[1..])
  }

  /** Underscores do not change the number. */
  lemma {:induction false} UnderscoresCountNothing(t: string, base: Base, acc: nat)
    requires RunOk(t, base)
    ensures AllDigits(Plainly(t), base) && Accumulate(t, base, acc) == Accumulate(Plainly(t), base, acc)
    decreases |t|
  {
    if t != "" {
      if IsDigitIn(t[0], base) {
        UnderscoresCountNothing(t[1..], base, acc * base + DigitIn(t[0], base).value);
        assert Plainly(t)[1..] == Plainly(t[1..]) && Plainly(t)[0] == t[0];
      } else {
        UnderscoresCountNothing(t[1..], base, acc);
        assert Plainly(t) == Plainly(t[1..]);
      }
    }
  }

  /** The letter that announces a base, in either case; decimal has none. */
  function Letter(base: Base, upper: bool): string {
    if base == 16 then (if upper then "0X" else "0x")
    else if base == 8 then (if upper then "0O" else "0o")
    else if base == 2 then (if upper then "0B" else "0b")
    else ""
  }

  function Numeral(n: nat, base: Base, upperLetter: bool, upper: bool): (s: string)
    ensures s != ""
  {
    Letter(base, upperLetter) + Spelled(n, base, upper)
  }

  lemma FormOfPrefixed(base: Base, upper: bool, t: string)
    requires base != 10
    ensures Form(Letter(base, upper) + t) == (base, t)
  {
    assert (Letter(base, upper) + t)[2..] == t;
  }

  lemma FormOfDecimal(t: string)
    requires AllDigits(t, 10)
    ensures Form(t) == (10, t)
  {
    if |t| > 1 { assert IsDigitIn(t[1], 10); }
  }

  lemma FormOfNumeral(n: nat, base: Base, upperLetter: bool, upper: bool)
    ensures Form(Numeral(n, base, upperLetter, upper)) == (base, Spelled(n, base, upper))
  {
    hide Spelled, Form, AllDigits;
    var t := Spelled(n, base, upper);
    SpelledReads(n, base, upper);
    if base == 10 {
      assert Numeral(n, base, upperLetter, upper) == t;
      FormOfDecimal(t);
    } else {
      FormOfPrefixed(base, upperLetter, t);
    }
  }

  lemma NumeralMeans(n: nat, base: Base, upperLetter: bool, upper: bool)
    ensures var body := Numeral(n, base, upperLetter, upper); BodyOk(body) && Magnitude(body) == n
  {
    hide Spelled, RunOk, Accumulate;
    var t := Spelled(n, base, upper);
    SpelledReads(n, base, upper);
    DigitsRunOk(t, base);
    FormOfNumeral(n, base, upperLetter, upper);
    assert IsDigitIn(t[0], base);
  }

  datatype Sign = Bare | Plus | Minus

  function SignText(sign: Sign): string {
    match sign
    case Bare => ""
    case Plus => "+"
    case Minus => "-"
  }

  /** The blanks a text may be surrounded with. */
  predicate Blank(t: string) { forall i :: 0 <= i < |t| ==> t[i] in {' ', '\t', '\n', '\r', 11 as char, 12 as char} }

  lemma BlanksAreSpaces(t: string)
    ensures Blank(t) <==> forall i :: 0 <= i < |t| ==> IsSpace(t[i])
  {
    forall c: char
      ensures c in {' ', '\t', '\n', '\r', 11 as char, 12 as char} <==> IsSpace(c)
    {
      assert c as int == 9 ==> c == '\t';
      assert c as int == 10 ==> c == '\n';
      assert c as int == 11 ==> c == 11 as char;
      assert c as int == 12 ==> c == 12 as char;
      assert c as int == 13 ==> c == '\r';
    }
  }

  /** Where the parts of a text lie whose middle neither starts nor ends with a space. */
  lemma {:induction false} SkipsTo(s: string, i: nat, j: nat)
    requires i <= j < |s| && (forall k :: i <= k < j ==> IsSpace(s[k])) && !IsSpace(s[j])
    ensures SkipSpaces(s, i) == j
    decreases j - i
  {
    if i < j { SkipsTo(s, i + 1, j); }
  }

  lemma {:induction false} EndsAt(s: string, e: nat)
    requires 0 < e <= |s| && (forall k :: e <= k < |s| ==> IsSpace(s[k])) && !IsSpace(s[e - 1])
    ensures TextEnd(s) == e
    decreases |s|
  {
    if e < |s| { EndsAt(s[..|s| - 1], e); }
  }

  lemma PartsOf(before: string, sign: Sign, body: string, after: string)
    requires Blank(before) && Blank(after) && body != "" && !IsSpace(body[0]) && !IsSpace(body[|body| - 1])
    requires body[0] != '-' && body[0] != '+'
    ensures var s := before + SignText(sign) + body + after; Body(s) == body && (Negative(s) <==> sign.Minus?)
  {
    BlanksAreSpaces(before);
    BlanksAreSpaces(after);
    var s := before + SignText(sign) + body + after;
    var i := |before|;
    assert s[i] == (SignText(sign) + body)[0];
    SkipsTo(s, 0, i);
    var e := i + |SignText(sign)| + |body|;
    assert s[e - 1] == body[|body| - 1];
    assert forall k :: e <= k < |s| ==> s[k] == after[k - e];
    EndsAt(s, e);
    hide SkipSpaces, TextEnd;
    assert s[i + |SignText(sign)|..e] == body;
  }

  /** Every number, written in any base and case, with any sign and any blanks around it, denotes itself. */
  lemma NumeralRoundTrip(n: nat, base: Base, upperLetter: bool, upper: bool, before: string, sign: Sign, after: string)
    requires Blank(before) && Blank(after)
    ensures Meaning(before + SignText(sign) + Numeral(n, base, upperLetter, upper) + after)
         == Some(if sign.Minus? then 0 - n else n)
  {
    hide Numeral, BodyOk, Magnitude, Body, Negative, Blank;
    NumeralMeans(n, base, upperLetter, upper);
    NumeralEnds(n, base, upperLetter, upper);
    PartsOf(before, sign, Numeral(n, base, upperLetter, upper), after);
  }

  lemma NumeralEnds(n: nat, base: Base, upperLetter: bool, upper: bool)
    ensures var t := Numeral(n, base, upperLetter, upper);
            !IsSpace(t[0]) && !IsSpace(t[|t| - 1]) && t[0] != '-' && t[0] != '+'
  {
    hide Spelled;
    var t, d := Numeral(n, base, upperLetter, upper), Spelled(n, base, upper);
    SpelledReads(n, base, upper);
    assert IsDigitIn(d[0], base) && IsDigitIn(d[|d| - 1], base);
    assert t[|t| - 1] == d[|d| - 1];
  }

  /** The parser on such a text: the number if the type holds it, the range error otherwise. */
  method ParseNumeral(n: nat, base: Base, upperLetter: bool, upper: bool, sign: Sign, half: nat) returns (r: Parsed)
    requires IsHalf(half)
    ensures var v := if sign.Minus? then 0 - n else n;
            r == if 0 - half <= v < half then Value(v) else OutOfRange
  {
    hide Numeral, Body, Correct, Documented, UnderscoreLed, Meaning;
    var s := SignText(sign) + Numeral(n, base, upperLetter, upper);
    NumeralPlain(n, base, upperLetter, upper);
    r := StrToInt(s, half);
    NumeralRoundTrip(n, base, upperLetter, upper, "", sign, "");
    assert "" + SignText(sign) + Numeral(n, base, upperLetter, upper) + "" == s;
    CorrectMeans(s, half, r, if sign.Minus? then 0 - n else n);
  }

  lemma CorrectMeans(s: string, half: nat, r: Parsed, v: int)
    requires Correct(s, half, r) && Meaning(s) == Some(v)
    ensures r == if 0 - half <= v < half then Value(v) else OutOfRange
  {
    hide Body, BodyOk, Magnitude;
  }

  lemma NumeralPlain(n: nat, base: Base, upperLetter: bool, upper: bool)
    ensures '\0' !in Numeral(n, base, upperLetter, upper)
  {
    hide Spelled;
    var d := Spelled(n, base, upper);
    SpelledReads(n, base, upper);
    assert forall i :: 0 <= i < |d| ==> IsDigitIn(d[i], base);
  }

}
