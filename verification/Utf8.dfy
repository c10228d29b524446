/**
  The UTF-8 verifier: a packed shift-based automaton that skips ahead in strides, with backtracking,
  against the plain character-by-character check and against section 4 of RFC 3629.
 */
module Utf8 {

  type Byte = bv8

  // ---- section 4 of RFC 3629, without NUL -------------------------------------

  predicate Tail(b: Byte) { 0x80 <= b <= 0xBF }

  /** UTF8-char of RFC 3629, minus the NUL byte, which the server's strings cannot hold. */
  predicate RfcChar(x: seq<Byte>) {
    if |x| == 1 then 0x01 <= x[0] <= 0x7F
    else if |x| == 2 then 0xC2 <= x[0] <= 0xDF && Tail(x[1])
    else if |x| == 3 then
      && (|| (x[0] == 0xE0 && 0xA0 <= x[1] <= 0xBF)
          || (0xE1 <= x[0] <= 0xEC && Tail(x[1]))
          || (x[0] == 0xED && 0x80 <= x[1] <= 0x9F)
          || (0xEE <= x[0] <= 0xEF && Tail(x[1])))
      && Tail(x[2])
    else if |x| == 4 then
      && (|| (x[0] == 0xF0 && 0x90 <= x[1] <= 0xBF)
          || (0xF1 <= x[0] <= 0xF3 && Tail(x[1]))
          || (x[0] == 0xF4 && 0x80 <= x[1] <= 0x8F))
      && Tail(x[2]) && Tail(x[3])
    else false
  }

  /** A string of characters: some first character, then a string of characters. */
  ghost predicate RfcString(x: seq<Byte>)
    decreases |x|
  {
    x == [] || exists n :: 1 <= n <= |x| && RfcChar(x[..n]) && RfcString(x[n..])
  }

  // ---- the plain checker ---------------------------------------------------------

  /** The length a lead byte announces; 1 for anything that is not a lead byte. */
  function MbLen(b: Byte): (n: int)
    ensures 1 <= n <= 4
  {
    if b & 0x80 == 0 then 1
    else if b & 0xe0 == 0xc0 then 2
    else if b & 0xf0 == 0xe0 then 3
    else if b & 0xf8 == 0xf0 then 4
    else 1
  }

  predicate SecondByteLegal(lead: Byte, a: Byte) {
    if lead == 0xE0 then !(a < 0xA0 || a > 0xBF)
    else if lead == 0xED then !(a < 0x80 || a > 0x9F)
    else if lead == 0xF0 then !(a < 0x90 || a > 0xBF)
    else if lead == 0xF4 then !(a < 0x80 || a > 0x8F)
    else !(a < 0x80 || a > 0xBF)
  }

  /** Is one character of the given length legal? The cases fall through from long to short. */
  predicate IsLegal(x: seq<Byte>, length: int)
    requires 1 <= length <= 4 ==> length <= |x|
  {
    if length < 1 || length > 4 then false
    else if length >= 4 && (x[3] < 0x80 || x[3] > 0xBF) then false
    else if length >= 3 && (x[2] < 0x80 || x[2] > 0xBF) then false
    else if length >= 2 && !SecondByteLegal(x[0], x[1]) then false
    else !(x[0] >= 0x80 && x[0] < 0xC2) && !(x[0] > 0xF4)
  }

  /** The length of the character at the front, or -1. */
  function VerifyChar(x: seq<Byte>): (l: int)
    requires x != []
    ensures l == -1 || 1 <= l <= |x|
  {
    if x[0] & 0x80 == 0 then (if x[0] == 0 then -1 else 1)
    else
      var l := MbLen(x[0]);
      if l > |x| then -1
      else if !IsLegal(x, l) then -1
      else l
  }

  /** Where the character-by-character loop stops. */
  function VerifyFrom(s: seq<Byte>, i: nat): (r: nat)
    requires i <= |s|
    ensures i <= r <= |s|
    decreases |s| - i
  {
    if i == |s| then i
    else
      var l := VerifyChar(s[i..]);
      if l == -1 then i else VerifyFrom(s, i + l)
  }

  // ---- the checker decides RFC 3629 -----------------------------------------------

  lemma VerifyCharIsRfc(x: seq<Byte>, n: nat)
    requires 1 <= n <= |x|
    ensures RfcChar(x[..n]) <==> VerifyChar(x) == n
  {
    var y := x[..n];
    if n == 1 {
      assert y[0] == x[0];
    } else if n == 2 {
      assert y[0] == x[0] && y[1] == x[1];
    } else if n == 3 {
      assert y[0] == x[0] && y[1] == x[1] && y[2] == x[2];
    } else if n == 4 {
      assert y[0] == x[0] && y[1] == x[1] && y[2] == x[2] && y[3] == x[3];
    }
  }

  /** The lead byte of a legal character announces its length. */
  lemma LeadAnnounces(x: seq<Byte>)
    requires RfcChar(x)
    ensures x != [] && MbLen(x[0]) == |x|
  {
    assert x[..|x|] == x;
    VerifyCharIsRfc(x, |x|);
  }

  /** A legal string from a position on is verified to its end. */
  lemma {:induction false} RfcIsVerified(s: seq<Byte>, i: nat, n: nat)
    requires i <= n <= |s| && RfcString(s[i..n])
    ensures VerifyFrom(s, i) >= n
    decreases n - i
  {
    hide VerifyChar, RfcChar;
    if i < n {
      var x := s[i..n];
      var m :| 1 <= m <= |x| && RfcChar(x[..m]) && RfcString(x[m..]);
      assert x[..m] == s[i..][..m] && x[m..] == s[i + m..n];
      VerifyCharIsRfc(s[i..], m);
      RfcIsVerified(s, i + m, n);
    }
  }

  lemma RfcCons(x: seq<Byte>, m: nat)
    requires 1 <= m <= |x| && RfcChar(x[..m]) && RfcString(x[m..])
    ensures RfcString(x)
  {
    hide RfcChar;
  }

  /** What is verified up to a position is legal. */
  lemma {:induction false} VerifiedIsRfc(s: seq<Byte>, i: nat, n: nat)
    requires i <= n <= |s| && VerifyFrom(s, i) == n
    ensures RfcString(s[i..n])
    decreases n - i
  {
    hide VerifyChar, RfcChar, RfcString;
    if i == n {
      assert s[i..n] == [];
      NothingIsRfc();
    } else {
      var m := VerifyChar(s[i..]);
      var x := s[i..n];
      VerifyCharIsRfc(s[i..], m);
      VerifiedIsRfc(s, i + m, n);
      assert x[..m] == s[i..][..m] && x[m..] == s[i + m..n];
      RfcCons(x, m);
    }
  }

  lemma NothingIsRfc()
    ensures RfcString([])
  {
  }

  /** The plain loop stops at the end of the longest prefix that is a string of RFC 3629 characters. */
  lemma VerifyFromIsLongestPrefix(s: seq<Byte>)
    ensures RfcString(s[..VerifyFrom(s, 0)])
    ensures forall n :: VerifyFrom(s, 0) < n <= |s| ==> !RfcString(s[..n])
  {
    hide RfcString, VerifyFrom;
    var r := VerifyFrom(s, 0);
    assert s[0..r] == s[..r];
    VerifiedIsRfc(s, 0, r);
    forall n | r < n <= |s|
      ensures !RfcString(s[..n])
    {
      assert s[0..n] == s[..n];
      if RfcString(s[..n]) { RfcIsVerified(s, 0, n); }
    }
  }

  // ---- the automaton -----------------------------------------------------------------

  datatype Dfa = ERR | BGN | CS1 | CS2 | CS3 | P3A | P3B | P4A | P4B

  /** The state numbers, chosen so that the transitions pack into 32 bits. */
  function Code(q: Dfa): bv32 {
    match q
    case ERR => 0
    case BGN => 11
    case CS1 => 16
    case CS2 => 1
    case CS3 => 5
    case P3A => 6
    case P3B => 20
    case P4A => 25
    case P4B => 30
  }

  const ASC: bv32 := 11 << 11
  const L2A: bv32 := 16 << 11
  const L3A: bv32 := 6 << 11
  const L3B: bv32 := 1 << 11
  const L3C: bv32 := 20 << 11
  const L4A: bv32 := 25 << 11
  const L4B: bv32 := 5 << 11
  const L4C: bv32 := 30 << 11
  const CR1: bv32 := (11 << 16) | (16 << 1) | (1 << 5) | (16 << 20) | (1 << 30)
  const CR2: bv32 := (11 << 16) | (16 << 1) | (1 << 5) | (16 << 20) | (1 << 25)
  const CR3: bv32 := (11 << 16) | (16 << 1) | (1 << 5) | (16 << 6) | (1 << 25)

  /** The 256-entry transition table. */
  function Transition(b: Byte): bv32 {
    if b == 0 then 0
    else if b < 0x80 then ASC
    else if b < 0x90 then CR1
    else if b < 0xA0 then CR2
    else if b < 0xC0 then CR3
    else if b < 0xC2 then 0
    else if b < 0xE0 then L2A
    else if b == 0xE0 then L3A
    else if b < 0xED then L3B
    else if b == 0xED then L3C
    else if b < 0xF0 then L3B
    else if b == 0xF0 then L4A
    else if b < 0xF4 then L4B
    else if b == 0xF4 then L4C
    else 0
  }

  /** The automaton the packing encodes. */
  function Next(q: Dfa, b: Byte): Dfa {
    match q
    case ERR => ERR
    case BGN =>
      if b == 0 then ERR
      else if b < 0x80 then BGN
      else if b < 0xC2 then ERR
      else if b < 0xE0 then CS1
      else if b == 0xE0 then P3A
      else if b == 0xED then P3B
      else if b < 0xF0 then CS2
      else if b == 0xF0 then P4A
      else if b < 0xF4 then CS3
      else if b == 0xF4 then P4B
      else ERR
    case CS1 => if Tail(b) then BGN else ERR
    case CS2 => if Tail(b) then CS1 else ERR
    case CS3 => if Tail(b) then CS2 else ERR
    case P3A => if 0xA0 <= b <= 0xBF then CS1 else ERR
    case P3B => if 0x80 <= b <= 0x9F then CS1 else ERR
    case P4A => if 0x90 <= b <= 0xBF then CS2 else ERR
    case P4B => if 0x80 <= b <= 0x8F then CS2 else ERR
  }

  function Drive(q: Dfa, x: seq<Byte>): Dfa
    decreases |x|
  {
    if x == [] then q else Drive(Next(q, x[0]), x[1..])
  }

  /** One masked shift of the table entry is one step of the automaton, for every state and byte. */
  lemma ShiftIsNext(q: Dfa, b: Byte)
    ensures (Transition(b) >> Code(q)) & 31 == Code(Next(q, b))
  {
    match q
    case ERR => case BGN => case CS1 => case CS2 => case CS3 =>
    case P3A => case P3B => case P4A => case P4B =>
  }

  lemma CodeInjective(p: Dfa, q: Dfa)
    ensures Code(p) == Code(q) ==> p == q
  {
  }

  lemma {:induction false} DriveConcat(q: Dfa, x: seq<Byte>, y: seq<Byte>)
    ensures Drive(q, x + y) == Drive(Drive(q, x), y)
    decreases |x|
  {
    if x == [] {
      assert x + y == y;
    } else {
      assert (x + y)[1..] == x[1..] + y;
      DriveConcat(Next(q, x[0]), x[1..], y);
    }
  }

  lemma {:induction false} ErrPersists(x: seq<Byte>)
    ensures Drive(ERR, x) == ERR
    decreases |x|
  {
    if x != [] { ErrPersists(x[1..]); }
  }

  predicate PlainAscii(x: seq<Byte>) {
    forall i :: 0 <= i < |x| ==> 0x00 < x[i] < 0x80
  }

  lemma {:induction false} AsciiStaysPut(x: seq<Byte>)
    requires PlainAscii(x)
    ensures Drive(BGN, x) == BGN
    decreases |x|
  {
    if x != [] { AsciiStaysPut(x[1..]); }
  }

  // ---- the automaton against the plain checker -------------------------------------------

  lemma DriveOne(q: Dfa, a: Byte)
    ensures Drive(q, [a]) == Next(q, a) && Drive(q, []) == q
  {
    assert [a][1..] == [];
  }

  /** The state after the first bytes of a string, one unfolding at a time. */
  lemma DriveSplit(x: seq<Byte>, n: nat)
    requires n <= |x|
    ensures Drive(BGN, x) == Drive(Drive(BGN, x[..n]), x[n..])
    ensures n > 0 ==> Drive(BGN, x[..n]) == Next(Drive(BGN, x[..n - 1]), x[n - 1])
  {
    hide Drive, Next;
    assert x == x[..n] + x[n..];
    DriveConcat(BGN, x[..n], x[n..]);
    if n > 0 {
      assert x[..n] == x[..n - 1] + [x[n - 1]];
      DriveConcat(BGN, x[..n - 1], [x[n - 1]]);
      DriveOne(Drive(BGN, x[..n - 1]), x[n - 1]);
    }
  }

  /** A verified character takes the automaton from its start state back to it. */
  lemma CharReturnsToStart(x: seq<Byte>)
    requires x != [] && VerifyChar(x) != -1
    ensures Drive(BGN, x[..VerifyChar(x)]) == BGN
  {
    var n := VerifyChar(x);
    DriveSplit(x, 1);
    if n >= 2 { DriveSplit(x, 2); }
    if n >= 3 { DriveSplit(x, 3); }
    if n >= 4 { DriveSplit(x, 4); }
  }

  /** What is left over when no character can be verified, yet the automaton has not rejected: the beginning
      of one character, lead byte first, continuation bytes after. */
  ghost predicate Unfinished(x: seq<Byte>) {
    && 1 <= |x| < MbLen(x[0])
    && (forall i :: 1 <= i < |x| ==> Tail(x[i]))
  }

  lemma NoCharMeansErrOrUnfinished(x: seq<Byte>)
    requires x != [] && VerifyChar(x) == -1
    ensures Drive(BGN, x) == ERR || (Drive(BGN, x) != BGN && Unfinished(x))
  {
    DriveSplit(x, 1);
    ErrPersists(x[1..]);
    if |x| == 1 {
      assert x[1..] == [];
    } else {
      DriveSplit(x, 2);
      ErrPersists(x[2..]);
      if |x| == 2 {
        assert x[2..] == [];
      } else {
        DriveSplit(x, 3);
        ErrPersists(x[3..]);
        if |x| == 3 {
          assert x[3..] == [];
        } else {
          DriveSplit(x, 4);
          ErrPersists(x[4..]);
        }
      }
    }
  }

  /** A character verified inside a prefix is the character of the whole string. */
  lemma VerifyCharPrefix(x: seq<Byte>, n: nat)
    requires 0 < n <= |x|
    requires VerifyChar(x[..n]) != -1
    ensures VerifyChar(x) == VerifyChar(x[..n])
  {
  }

  /** The state after a prefix tells where the plain loop over that prefix stopped. */
  lemma {:induction false} StateLocatesStop(s: seq<Byte>, i: nat, k: nat)
    requires i <= k <= |s|
    ensures
      var j := VerifyFrom(s[..k], i);
      var q := Drive(BGN, s[i..k]);
      && VerifyFrom(s, i) == VerifyFrom(s, j)
      && (q == BGN ==> j == k)
      && (q != BGN && q != ERR ==> Unfinished(s[j..k]))
    decreases k - i
  {
    hide VerifyChar, Drive, Next, Unfinished;
    var p := s[..k];
    if i == k {
      assert s[i..k] == [];
      DriveOne(BGN, 0);
    } else {
      assert p[i..] == s[i..k] == s[i..][..k - i];
      var l := VerifyChar(p[i..]);
      if l == -1 {
        NoCharMeansErrOrUnfinished(s[i..k]);
      } else {
        VerifyCharPrefix(s[i..], k - i);
        CharReturnsToStart(p[i..]);
        assert s[i..k] == p[i..][..l] + s[i + l..k];
        DriveConcat(BGN, p[i..][..l], s[i + l..k]);
        StateLocatesStop(s, i + l, k);
      }
    }
  }

  // ---- the fast verifier -------------------------------------------------------------------

  /** Push bytes through the packed table; high bits of the running state are garbage until the final mask. */
  method Advance(x: seq<Byte>, state: bv32, ghost q: Dfa) returns (state': bv32)
    requires state & 31 == Code(q)
    ensures state' == Code(Drive(q, x))
  {
    state' := state;
    var n := 0;
    ghost var current := q;
    while n < |x|
      invariant 0 <= n <= |x|
      invariant state' & 31 == Code(current)
      invariant Drive(q, x) == Drive(current, x[n..])
    {
      ShiftIsNext(current, x[n]);
      assert x[n..][0] == x[n] && x[n..][1..] == x[n + 1..];
      state' := Transition(x[n]) >> (state' & 31);
      current := Next(current, x[n]);
      n := n + 1;
    }
    state' := state' & 31;
  }

  /** From a lead byte seen unfinished, walk back to it. */
  method Backtrack(s: seq<Byte>, end: nat, ghost lead: nat) returns (p: nat)
    requires lead < end <= |s|
    requires Unfinished(s[lead..end])
    ensures p == lead
  {
    p := end;
    ghost var x := s[lead..end];
    assert forall i :: lead <= i < end ==> s[i] == x[i - lead];
    while true
      invariant lead < p <= end
      decreases p
    {
      p := p - 1;
      assert s[p] & 0x80 != 0;
      if MbLen(s[p]) > 1 {
        assert p == lead;
        return;
      }
    }
  }

  /** The strided fast path: where may the slow path resume? */
  method FastPath(s: seq<Byte>, stride: nat) returns (p: nat)
    requires stride > 0
    ensures p <= |s|
    ensures VerifyFrom(s, p) == VerifyFrom(s, 0)
  {
    p := 0;
    var state: bv32 := 11;
    if |s| >= stride {
      while |s| - p >= stride
        invariant 0 <= p <= |s|
        invariant state == Code(Drive(BGN, s[..p]))
        decreases |s| - p
      {
        var chunk := s[p..p + stride];
        ghost var q := Drive(BGN, s[..p]);
        assert s[..p + stride] == s[..p] + chunk;
        DriveConcat(BGN, s[..p], chunk);
        if state != 11 || !PlainAscii(chunk) {
          assert Code(q) & 31 == Code(q);
          state := Advance(chunk, state, q);
        } else {
          CodeInjective(q, BGN);
          AsciiStaysPut(chunk);
        }
        p := p + stride;
      }
      ghost var q := Drive(BGN, s[..p]);
      assert s[0..p] == s[..p];
      StateLocatesStop(s, 0, p);
      CodeInjective(q, BGN);
      CodeInjective(q, ERR);
      if state == 0 {
        p := 0;
      } else if state != 11 {
        p := Backtrack(s, p, VerifyFrom(s[..p], 0));
      }
    }
  }

  /** The verifier: fast path, then the plain loop over what remains. It returns exactly what the plain loop
      from the start returns, whatever the stride. */
  method VerifyStr(s: seq<Byte>, stride: nat) returns (r: nat)
    requires stride > 0
    ensures r == VerifyFrom(s, 0)
    ensures r <= |s| && RfcString(s[..r])
    ensures forall n :: r < n <= |s| ==> !RfcString(s[..n])
  {
    r := FastPath(s, stride);
    while r < |s|
      invariant 0 <= r <= |s|
      invariant VerifyFrom(s, r) == VerifyFrom(s, 0)
      decreases |s| - r
    {
      var l;
      if s[r] & 0x80 == 0 {
        if s[r] == 0 {
          break;
        }
        l := 1;
      } else {
        l := VerifyChar(s[r..]);
        if l == -1 {
          break;
        }
      }
      r := r + l;
    }
    VerifyFromIsLongestPrefix(s);
  }
}
