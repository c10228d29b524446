/** Integer to text: digit count by an approximate logarithm, digits written two at a time into a buffer. */
module IntPrint {
  import opened Common
  import opened Bits
  import opened Decimal
  import opened IntParse

  // ---- powers --------------------------------------------------------------------------------------------

  function Pow10(k: nat): (p: nat)
    ensures p > 0
  {
    if k == 0 then 1 else 10 * Pow10(k - 1)
  }

  /** The number of decimal digits, by definition. */
  predicate HasDigits(v: nat, len: nat) {
    len > 0 && Pow10(len - 1) <= v < Pow10(len)
  }

  // ---- position of the leftmost one bit ------------------------------------------------------------------

  function Repeat(v: nat, n: nat): (r: seq<nat>)
    ensures |r| == n && forall i :: 0 <= i < n ==> r[i] == v
  {
    seq(n, _ => v)
  }

  /** For every byte the position of its highest set bit. */
  function ByteTable(): (t: seq<nat>)
    ensures |t| == 256
  {
    [0, 0] + Repeat(1, 2) + Repeat(2, 4) + Repeat(3, 8) + Repeat(4, 16) + Repeat(5, 32) + Repeat(6, 64) + Repeat(7, 128)
  }

  predicate LeftmostOne(word: nat, p: nat) {
    Pow2(p) <= word < Pow2(p + 1)
  }

  lemma SmallPowers()
    ensures Pow2(0) == 1 && Pow2(1) == 2 && Pow2(2) == 4 && Pow2(3) == 8 && Pow2(4) == 16
    ensures Pow2(5) == 32 && Pow2(6) == 64 && Pow2(7) == 128 && Pow2(8) == 256
  {
    assert Pow2(4) == 16;
    assert Pow2(8) == 256;
  }

  lemma ByteTableRight(b: nat)
    requires 0 < b < 256
    ensures LeftmostOne(b, ByteTable()[b]) && ByteTable()[b] <= 7
  {
    SmallPowers();
    var t := ByteTable();
    if b < 2 {
      assert t[b] == 0;
    } else if b < 4 {
      assert t[b] == 1;
    } else if b < 8 {
      assert t[b] == 2;
    } else if b < 16 {
      assert t[b] == 3;
    } else if b < 32 {
      assert t[b] == 4;
    } else if b < 64 {
      assert t[b] == 5;
    } else if b < 128 {
      assert t[b] == 6;
    } else {
      assert t[b] == 7;
    }
  }

  /** Shifting right by some places is halving that often. */
  lemma {:induction false} ShiftedOne(word: nat, shift: nat, p: nat)
    requires LeftmostOne(Halved(word, shift), p)
    ensures LeftmostOne(word, shift + p)
    decreases shift
  {
    if shift > 0 { ShiftedOne(word / 2, shift - 1, p); }
  }

  lemma {:induction false} HalvedAdd(word: nat, a: nat, b: nat)
    ensures Halved(word, a + b) == Halved(Halved(word, a), b)
    decreases a
  {
    if a > 0 { HalvedAdd(word / 2, a - 1, b); }
  }

  lemma {:induction false} HalvedZeroIff(word: nat, k: nat)
    ensures Halved(word, k) == 0 <==> word < Pow2(k)
    decreases k
  {
    if k > 0 { HalvedZeroIff(word / 2, k - 1); }
  }

  lemma HalvedNone(word: nat)
    ensures Halved(word, 0) == word
  {
  }

  method LeftmostOnePos(word: nat, bits: nat) returns (p: nat)
    requires bits == 32 || bits == 64
    requires 0 < word < Pow2(bits)
    ensures LeftmostOne(word, p) && p < bits
  {
    hide ByteTable, Halved, Pow2, LeftmostOne;
    var shift: nat := bits - 8;
    HalvedZeroIff(word, bits);
    HalvedNone(word);
    while Halved(word, shift) == 0
      invariant shift <= bits - 8 && shift % 8 == 0
      invariant Halved(word, shift + 8) == 0
      decreases shift
    {
      shift := shift - 8;
    }
    var b := Halved(word, shift);
    HalvedAdd(word, shift, 8);
    HalvedZeroIff(b, 8);
    assert Pow2(8) == 256 by { SmallPowers(); }
    ByteTableRight(b);
    ShiftedOne(word, shift, ByteTable()[b]);
    p := shift + ByteTable()[b];
  }

  // ---- the number of digits --------------------------------------------------------------------------------

  /** What the approximation of the logarithm must satisfy at one bit position. */
  predicate Near(p: nat) {
    var t := (p + 1) * 1233 / 4096;
    Pow2(p + 1) <= Pow10(t + 1) && (t > 0 ==> Pow10(t - 1) <= Pow2(p))
  }

  lemma {:induction false} Pow2Monotone(a: nat, b: nat)
    requires a <= b
    ensures Pow2(a) <= Pow2(b)
    decreases b - a
  {
    if a < b { Pow2Monotone(a, b - 1); }
  }

  /** Bit positions with the same estimate share their bounds. */
  lemma NearGroup(p: nat, t: nat, lo: nat, hi: nat)
    requires lo <= p <= hi && t == (p + 1) * 1233 / 4096
    requires 2 * Pow2(hi) <= 10 * Pow10(t) && Pow10(t) <= 10 * Pow2(lo)
    ensures Near(p)
  {
    Pow2Monotone(lo, p);
    Pow2Monotone(p, hi);
  }

  /** From one power of two to the next four. */
  lemma NextTwos(k: nat)
    ensures Pow2(k + 1) == 2 * Pow2(k) && Pow2(k + 2) == 4 * Pow2(k) && Pow2(k + 3) == 8 * Pow2(k) && Pow2(k + 4) == 16 * Pow2(k)
  {
  }

  lemma NextTens(k: nat)
    ensures Pow10(k + 1) == 10 * Pow10(k) && Pow10(k + 2) == 100 * Pow10(k) && Pow10(k + 3) == 1000 * Pow10(k)
  {
  }

  lemma TwosByFour()
    ensures Pow2(0) == 1
    ensures Pow2(4) == 16
    ensures Pow2(8) == 256
    ensures Pow2(12) == 4096
    ensures Pow2(16) == 65536
    ensures Pow2(20) == 1048576
    ensures Pow2(24) == 16777216
    ensures Pow2(28) == 268435456
    ensures Pow2(32) == 4294967296
    ensures Pow2(36) == 68719476736
    ensures Pow2(40) == 1099511627776
    ensures Pow2(44) == 17592186044416
    ensures Pow2(48) == 281474976710656
    ensures Pow2(52) == 4503599627370496
    ensures Pow2(56) == 72057594037927936
    ensures Pow2(60) == 1152921504606846976
  {
    NextTwos(0);
    NextTwos(4);
    NextTwos(8);
    NextTwos(12);
    NextTwos(16);
    NextTwos(20);
    NextTwos(24);
    NextTwos(28);
    NextTwos(32);
    NextTwos(36);
    NextTwos(40);
    NextTwos(44);
    NextTwos(48);
    NextTwos(52);
    NextTwos(56);
  }

  lemma TensByThree()
    ensures Pow10(0) == 1
    ensures Pow10(3) == 1000
    ensures Pow10(6) == 1000000
    ensures Pow10(9) == 1000000000
    ensures Pow10(12) == 1000000000000
    ensures Pow10(15) == 1000000000000000
    ensures Pow10(18) == 1000000000000000000
  {
    NextTens(0);
    NextTens(3);
    NextTens(6);
    NextTens(9);
    NextTens(12);
    NextTens(15);
  }

  lemma NearFrom0(p: nat)
    requires 0 <= p < 16
    ensures Near(p)
  {
    TwosByFour();
    TensByThree();
    if p <= 2 {
      NextTens(0);
      NextTwos(0);
      NearGroup(p, 0, 0, 2);
    } else if p <= 5 {
      NextTens(0);
      NextTwos(0);
      NextTwos(4);
      NearGroup(p, 1, 3, 5);
    } else if p <= 8 {
      NextTens(0);
      NextTwos(4);
      NextTwos(8);
      NearGroup(p, 2, 6, 8);
    } else if p <= 12 {
      NextTens(3);
      NextTwos(8);
      NextTwos(12);
      NearGroup(p, 3, 9, 12);
    } else if p <= 15 {
      NextTens(3);
      NextTwos(12);
      NearGroup(p, 4, 13, 15);
    }
  }

  lemma NearFrom16(p: nat)
    requires 16 <= p < 32
    ensures Near(p)
  {
    TwosByFour();
    TensByThree();
    if p <= 18 {
      NextTens(3);
      NextTwos(16);
      NearGroup(p, 5, 16, 18);
    } else if p <= 22 {
      NextTens(6);
      NextTwos(16);
      NextTwos(20);
      NearGroup(p, 6, 19, 22);
    } else if p <= 25 {
      NextTens(6);
      NextTwos(20);
      NextTwos(24);
      NearGroup(p, 7, 23, 25);
    } else if p <= 28 {
      NextTens(6);
      NextTwos(24);
      NextTwos(28);
      NearGroup(p, 8, 26, 28);
    } else if p <= 31 {
      NextTens(9);
      NextTwos(28);
      NearGroup(p, 9, 29, 31);
    }
  }

  lemma NearFrom32(p: nat)
    requires 32 <= p < 48
    ensures Near(p)
  {
    TwosByFour();
    TensByThree();
    if p <= 32 {
      NextTens(9);
      NextTwos(32);
      NearGroup(p, 9, 32, 32);
    } else if p <= 35 {
      NextTens(9);
      NextTwos(32);
      NearGroup(p, 10, 33, 35);
    } else if p <= 38 {
      NextTens(9);
      NextTwos(36);
      NearGroup(p, 11, 36, 38);
    } else if p <= 42 {
      NextTens(12);
      NextTwos(36);
      NextTwos(40);
      NearGroup(p, 12, 39, 42);
    } else if p <= 45 {
      NextTens(12);
      NextTwos(40);
      NextTwos(44);
      NearGroup(p, 13, 43, 45);
    } else if p <= 47 {
      NextTens(12);
      NextTwos(44);
      NearGroup(p, 14, 46, 47);
    }
  }

  lemma NearFrom48(p: nat)
    requires 48 <= p < 64
    ensures Near(p)
  {
    TwosByFour();
    TensByThree();
    if p <= 48 {
      NextTens(12);
      NextTwos(48);
      NearGroup(p, 14, 48, 48);
    } else if p <= 52 {
      NextTens(15);
      NextTwos(48);
      NextTwos(52);
      NearGroup(p, 15, 49, 52);
    } else if p <= 55 {
      NextTens(15);
      NextTwos(52);
      NearGroup(p, 16, 53, 55);
    } else if p <= 58 {
      NextTens(15);
      NextTwos(56);
      NearGroup(p, 17, 56, 58);
    } else if p <= 62 {
      NextTens(18);
      NextTwos(56);
      NextTwos(60);
      NearGroup(p, 18, 59, 62);
    } else if p <= 63 {
      NextTens(18);
      NextTwos(60);
      NearGroup(p, 19, 63, 63);
    }
  }

  lemma NearEverywhere(p: nat)
    requires p < 64
    ensures Near(p)
  {
    if p < 16 { NearFrom0(p); } else if p < 32 { NearFrom16(p); } else if p < 48 { NearFrom32(p); } else { NearFrom48(p); }
  }

  /** Digits by logarithm: bits times 1233/4096, and one more if the value reaches that power of ten. */
  method DecimalLength(v: nat, bits: nat) returns (len: nat)
    requires bits == 32 || bits == 64
    requires 0 < v < Pow2(bits)
    ensures HasDigits(v, len)
  {
    var p := LeftmostOnePos(v, bits);
    var t := (p + 1) * 1233 / 4096;
    NearEverywhere(p);
    len := t + if v >= Pow10(t) then 1 else 0;
  }

  // ---- digits two at a time -----------------------------------------------------------------------------------

  /** The entry of the table of two-digit numbers. */
  function Pair(k: nat): string
    requires k < 100
  {
    [DigitChar(k / 10), DigitChar(k % 10)]
  }

  lemma DecTwo(v: nat)
    requires v >= 100
    ensures Dec(v) == Dec(v / 100) + Pair(v % 100)
  {
    assert v / 10 / 10 == v / 100 && v / 10 % 10 == v % 100 / 10 && v % 10 == v % 100 % 10;
    assert Dec(v) == Dec(v / 10) + [DigitChar(v % 10)];
    assert Dec(v / 10) == Dec(v / 10 / 10) + [DigitChar(v / 10 % 10)];
  }

  lemma DecFour(v: nat)
    requires v >= 10000
    ensures Dec(v) == Dec(v / 10000) + Pair(v % 10000 / 100) + Pair(v % 10000 % 100)
  {
    assert v / 100 / 100 == v / 10000 && v / 100 % 100 == v % 10000 / 100 && v % 100 == v % 10000 % 100;
    DecTwo(v);
    DecTwo(v / 100);
  }

  lemma DecEight(v: nat)
    requires v >= 100000000
    ensures var c, d := v % 100000000 % 10000, v % 100000000 / 10000;
            Dec(v) == Dec(v / 100000000) + Pair(d / 100) + Pair(d % 100) + Pair(c / 100) + Pair(c % 100)
  {
    assert v / 10000 / 10000 == v / 100000000 && v / 10000 % 10000 == v % 100000000 / 10000;
    assert v % 10000 == v % 100000000 % 10000;
    DecFour(v);
    DecFour(v / 10000);
  }

  lemma {:induction false} DecHasDigits(v: nat)
    requires v > 0
    ensures HasDigits(v, |Dec(v)|)
  {
    if v >= 10 { DecHasDigits(v / 10); }
  }

  lemma {:induction false} Pow10Grows(a: nat, b: nat)
    requires a < b
    ensures 10 * Pow10(a) <= Pow10(b)
    decreases b - a
  {
    if a + 1 < b { Pow10Grows(a, b - 1); }
  }

  lemma DigitsUnique(v: nat, len: nat)
    requires v > 0 && HasDigits(v, len)
    ensures len == |Dec(v)|
  {
    DecHasDigits(v);
    var n := |Dec(v)|;
    if len < n { Pow10Grows(len - 1, n - 1); }
    if n < len { Pow10Grows(n - 1, len - 1); }
  }

  lemma {:induction false} DigitsBound(v: nat, k: nat)
    requires v < Pow10(k) && k > 0
    ensures |Dec(v)| <= k
    decreases k
  {
    if v >= 10 { DigitsBound(v / 10, k - 1); }
  }

  /** Copy one two-digit entry into the buffer. */
  method CopyPair(a: array<char>, pos: nat, k: nat)
    requires pos + 2 <= a.Length && k < 100
    modifies a
    ensures a[..] == old(a[..pos]) + Pair(k) + old(a[pos + 2..])
  {
    a[pos] := Pair(k)[0];
    a[pos + 1] := Pair(k)[1];
  }

  /** The last digits are in place: the text is what is left of the number followed by what the buffer holds. */
  ghost predicate TailWritten(value: nat, v: nat, buf: seq<char>, from: nat, end: nat) {
    && from <= end <= |buf| && Dec(value) == Dec(v) + buf[from..end]
  }

  /** A buffer differs from another only inside a range. */
  ghost predicate OnlyInside(was: seq<char>, now: seq<char>, from: nat, end: nat) {
    from <= end <= |was| == |now| && now[..from] == was[..from] && now[end..] == was[end..]
  }

  lemma PairInside(was: seq<char>, now: seq<char>, pos: nat, k: nat, from: nat, end: nat)
    requires k < 100 && from <= pos && pos + 2 <= end <= |was|
    requires now == was[..pos] + Pair(k) + was[pos + 2..]
    ensures OnlyInside(was, now, from, end) && now[pos..end] == Pair(k) + was[pos + 2..end]
  {
  }

  /** Printing has reached a position: what is left of the number fits exactly in front of it. */
  ghost predicate Progress(value: nat, v: nat, was: seq<char>, now: seq<char>, at: nat, pos: nat, end: nat) {
    pos == at + |Dec(v)| && TailWritten(value, v, now, pos, end) && OnlyInside(was, now, at, end)
  }

  lemma RoomForTwo(value: nat, v: nat, was: seq<char>, now: seq<char>, at: nat, pos: nat, end: nat)
    requires v >= 100 && Progress(value, v, was, now, at, pos, end)
    ensures at + 2 <= pos <= end <= |now|
  {
    DecTwo(v);
  }

  /** Two digits written in front of what is there. */
  lemma TwoMore(value: nat, v: nat, was: seq<char>, before: seq<char>, now: seq<char>, at: nat, pos: nat, end: nat)
    requires v >= 100 && Progress(value, v, was, before, at, pos, end)
    requires 2 <= pos <= |before| && now == before[..pos - 2] + Pair(v % 100) + before[pos..]
    ensures Progress(value, v / 100, was, now, at, pos - 2, end)
  {
    hide Dec;
    DecTwo(v);
    RoomForTwo(value, v, was, before, at, pos, end);
    PairInside(before, now, pos - 2, v % 100, at, end);
    InsideTwice(was, before, now, at, end);
    var rest := before[pos..end];
    assert Dec(v / 100) + (Pair(v % 100) + rest) == Dec(v / 100) + Pair(v % 100) + rest;
  }

  /** The last four digits at most: pairs, and a single digit in front if one is left. */
  method PrintTail(ghost value: nat, v0: nat, a: array<char>, at: nat, pos0: nat, ghost end: nat, ghost was: seq<char>)
    requires 0 < v0 < 10000 && Progress(value, v0, was, a[..], at, pos0, end)
    modifies a
    ensures OnlyInside(was, a[..], at, end) && a[at..end] == Dec(value)
  {
    hide Dec, Progress, OnlyInside;
    var v, pos := v0, pos0;
    if v >= 100 {
      RoomForTwo(value, v, was, a[..], at, pos, end);
      ghost var before := a[..];
      CopyPair(a, pos - 2, v % 100);
      TwoMore(value, v, was, before, a[..], at, pos, end);
      pos := pos - 2;
      v := v / 100;
    }
    PrintLast(value, v, a, at, pos, end, was);
  }

  method PrintLast(ghost value: nat, v: nat, a: array<char>, at: nat, pos: nat, ghost end: nat, ghost was: seq<char>)
    requires 0 < v < 100 && Progress(value, v, was, a[..], at, pos, end)
    modifies a
    ensures OnlyInside(was, a[..], at, end) && a[at..end] == Dec(value)
  {
    ghost var before := a[..];
    if v >= 10 {
      TwoDigits(v);
      CopyPair(a, pos - 2, v);
      PairInside(before, a[..], pos - 2, v, at, end);
    } else {
      assert Dec(v) == [DigitChar(v)];
      a[at] := DigitChar(v);
      assert a[at..end] == [a[at]] + before[pos..end];
    }
  }

  lemma TwoDigits(v: nat)
    requires 10 <= v < 100
    ensures Dec(v) == Pair(v)
  {
    assert Dec(v) == Dec(v / 10) + [DigitChar(v % 10)];
  }

  /** Four digits, the two lower ones first. */
  method CopyFour(a: array<char>, pos: nat, c: nat)
    requires 4 <= pos <= a.Length && c < 10000
    modifies a
    ensures a[..] == old(a[..pos - 4]) + (Pair(c / 100) + Pair(c % 100)) + old(a[pos..])
  {
    ghost var was := a[..];
    CopyPair(a, pos - 2, c % 100);
    ghost var mid := a[..];
    assert mid[pos - 2..] == Pair(c % 100) + was[pos..] && mid[..pos - 4] == was[..pos - 4];
    CopyPair(a, pos - 4, c / 100);
  }

  lemma FourInside(was: seq<char>, now: seq<char>, pos: nat, four: string, from: nat, end: nat)
    requires |four| == 4 && from + 4 <= pos <= end <= |was|
    requires now == was[..pos - 4] + four + was[pos..]
    ensures OnlyInside(was, now, from, end) && now[pos - 4..end] == four + was[pos..end]
  {
  }

  lemma InsideTwice(a: seq<char>, b: seq<char>, c: seq<char>, from: nat, end: nat)
    requires OnlyInside(a, b, from, end) && OnlyInside(b, c, from, end)
    ensures OnlyInside(a, c, from, end)
  {
  }

  /** One turn of the 32-bit loop. */
  method PrintFour(ghost value: nat, v: nat, a: array<char>, ghost at: nat, pos: nat, ghost end: nat, ghost was: seq<char>)
    requires v >= 10000 && Progress(value, v, was, a[..], at, pos, end)
    modifies a
    ensures pos >= 4 && Progress(value, v / 10000, was, a[..], at, pos - 4, end)
  {
    DecFour(v);
    ghost var before := a[..];
    CopyFour(a, pos, v % 10000);
    var high, low := v % 10000 / 100, v % 10000 % 100;
    FourInside(before, a[..], pos, Pair(high) + Pair(low), at, end);
    InsideTwice(was, before, a[..], at, end);
    Grouped(Dec(v / 10000), Pair(high), Pair(low), before[pos..end]);
  }

  lemma Grouped(q: string, x: string, y: string, w: string)
    ensures q + x + y + w == q + ((x + y) + w)
  {
  }

  /** One turn of the 64-bit loop. */
  method PrintEight(ghost value: nat, v: nat, a: array<char>, ghost at: nat, pos: nat, ghost end: nat, ghost was: seq<char>)
    requires v >= 100000000 && Progress(value, v, was, a[..], at, pos, end)
    modifies a
    ensures pos >= 8 && Progress(value, v / 100000000, was, a[..], at, pos - 8, end)
  {
    var value3 := v % 100000000;
    var c, d := value3 % 10000, value3 / 10000;
    DecEight(v);
    ghost var before := a[..];
    CopyFour(a, pos, c);
    ghost var mid := a[..];
    CopyFour(a, pos - 4, d);
    ghost var low, high := Pair(c / 100) + Pair(c % 100), Pair(d / 100) + Pair(d % 100);
    Grouped(Dec(v / 100000000) + Pair(d / 100) + Pair(d % 100), Pair(c / 100), Pair(c % 100), before[pos..end]);
    Grouped(Dec(v / 100000000), Pair(d / 100), Pair(d % 100), low + before[pos..end]);
    EightInside(before, mid, a[..], at, pos, end, high, low);
    InsideTwice(was, before, a[..], at, end);
  }

  lemma EightInside(before: seq<char>, mid: seq<char>, now: seq<char>, at: nat, pos: nat, end: nat,
                    high: string, low: string)
    requires |high| == |low| == 4 && at + 8 <= pos <= end <= |before|
    requires mid == before[..pos - 4] + low + before[pos..]
    requires now == mid[..pos - 8] + high + mid[pos - 4..]
    ensures now[pos - 8..end] == high + (low + before[pos..end]) && OnlyInside(before, now, at, end)
  {
    FourInside(before, mid, pos, low, at, end);
    FourInside(mid, now, pos - 4, high, at, end);
    InsideTwice(before, mid, now, at, end);
  }

  lemma StartPrinting(value: nat, buf: seq<char>, at: nat, olength: nat)
    requires olength == |Dec(value)| && at + olength <= |buf|
    ensures Progress(value, value, buf, buf, at, at + olength, at + olength)
  {
    assert buf[at + olength..at + olength] == [];
  }

  method Length32(value: nat) returns (olength: nat)
    requires 0 < value < 0x1_0000_0000
    ensures olength == |Dec(value)| <= 10
  {
    TwosByFour();
    olength := DecimalLength(value, 32);
    DigitsUnique(value, olength);
    assert value < Pow10(10) by {
      TensByThree();
      NextTens(9);
    }
    DigitsBound(value, 10);
  }

  method Length64(value: nat) returns (olength: nat)
    requires 0 < value < 0x1_0000_0000_0000_0000
    ensures olength == |Dec(value)| <= 20
  {
    assert Pow2(64) == 0x1_0000_0000_0000_0000 by {
      TwosByFour();
      NextTwos(60);
    }
    olength := DecimalLength(value, 64);
    DigitsUnique(value, olength);
    assert value < Pow10(20) by {
      TensByThree();
      NextTens(18);
    }
    DigitsBound(value, 20);
  }

  /** An unsigned 32-bit number; at least ten bytes of room. */
  method PrintU32(value: nat, a: array<char>, at: nat) returns (olength: nat)
    requires value < 0x1_0000_0000 && at + 10 <= a.Length
    modifies a
    ensures olength == |Dec(value)| <= 10 && a[at..at + olength] == Dec(value)
    ensures OnlyInside(old(a[..]), a[..], at, at + olength)
  {
    if value == 0 {
      a[at] := '0';
      assert a[at..at + 1] == ['0'];
      return 1;
    }
    olength := Length32(value);
    PrintBelow(value, a, at, olength);
  }

  method PrintBelow(value: nat, a: array<char>, at: nat, olength: nat)
    requires 0 < value && olength == |Dec(value)| && at + olength <= a.Length
    modifies a
    ensures a[at..at + olength] == Dec(value) && OnlyInside(old(a[..]), a[..], at, at + olength)
  {
    StartPrinting(value, a[..], at, olength);
    hide Progress, OnlyInside, Dec;
    ghost var end := at + olength;
    var v: nat, pos: nat := value, at + olength;
    while v >= 10000
      invariant 0 < v && Progress(value, v, old(a[..]), a[..], at, pos, end)
    {
      PrintFour(value, v, a, at, pos, end, old(a[..]));
      v := v / 10000;
      pos := pos - 4;
    }
    PrintTail(value, v, a, at, pos, end, old(a[..]));
  }

  /** An unsigned 64-bit number; at least twenty bytes of room. */
  method PrintU64(value: nat, a: array<char>, at: nat) returns (olength: nat)
    requires value < 0x1_0000_0000_0000_0000 && at + 20 <= a.Length
    modifies a
    ensures olength == |Dec(value)| <= 20 && a[at..at + olength] == Dec(value)
    ensures OnlyInside(old(a[..]), a[..], at, at + olength)
  {
    if value == 0 {
      a[at] := '0';
      assert a[at..at + 1] == ['0'];
      return 1;
    }
    olength := Length64(value);
    PrintBelow64(value, a, at, olength);
  }

  method PrintBelow64(value: nat, a: array<char>, at: nat, olength: nat)
    requires 0 < value && olength == |Dec(value)| && at + olength <= a.Length
    modifies a
    ensures a[at..at + olength] == Dec(value) && OnlyInside(old(a[..]), a[..], at, at + olength)
  {
    StartPrinting(value, a[..], at, olength);
    hide Progress, OnlyInside, Dec;
    ghost var end := at + olength;
    var v: nat, pos: nat := value, at + olength;
    while v >= 100000000
      invariant 0 < v && Progress(value, v, old(a[..]), a[..], at, pos, end)
    {
      PrintEight(value, v, a, at, pos, end, old(a[..]));
      v := v / 100000000;
      pos := pos - 8;
    }
    if v >= 10000 {
      PrintFour(value, v, a, at, pos, end, old(a[..]));
      v := v / 10000;
      pos := pos - 4;
    }
    PrintTail(value, v, a, at, pos, end, old(a[..]));
  }

  // ---- signed numbers ---------------------------------------------------------------------------------------------

  /** The canonical text of an integer. */
  function IntText(v: int): string {
    if v < 0 then "-" + Dec(0 - v) else Dec(v)
  }

  /** The magnitude of a negative number by unsigned negation. */
  function Negated(value: int, size: nat): nat
    requires 0 - size < value < 0
    ensures Negated(value, size) == 0 - value
  {
    var unsigned := value + size;
    (size - unsigned) % size
  }

  /** Digits written behind a sign leave the sign alone. */
  lemma SignKept(was: seq<char>, now: seq<char>, n: nat, digits: string)
    requires |was| > 0 && was[0] == '-' && OnlyInside(was, now, 1, 1 + n) && now[1..1 + n] == digits
    ensures now[..1 + n] == "-" + digits
  {
    assert now[0] == now[..1][0] == was[..1][0];
    assert now[..1 + n] == now[..1] + now[1..1 + n];
  }

  lemma MagnitudeFits(u: nat)
    requires u <= 0x8000_0000_0000_0000
    ensures |Dec(u)| < 20
  {
    hide Dec;
    TensByThree();
    NextTens(18);
    DigitsBound(u, 19);
  }

  /** A signed 32-bit number with its terminating NUL; at least twelve bytes of room. */
  method PrintI32(value: int, a: array<char>) returns (len: nat)
    requires -0x8000_0000 <= value < 0x8000_0000 && a.Length >= 12
    modifies a
    ensures len < a.Length && a[..len] == IntText(value) && a[len] == '\0'
  {
    hide Dec, Negated, OnlyInside;
    if value < 0 {
      var u := Negated(value, 0x1_0000_0000);
      a[0] := '-';
      ghost var signed := a[..];
      var n := PrintU32(u, a, 1);
      SignKept(signed, a[..], n, Dec(u));
      len := 1 + n;
    } else {
      len := PrintU32(value, a, 0);
      assert a[..len] == a[0..len];
    }
    ghost var text := a[..len];
    a[len] := '\0';
    assert a[..len] == text;
  }

  /** A signed 64-bit number with its terminating NUL; at least twenty-one bytes of room. */
  method PrintI64(value: int, a: array<char>) returns (len: nat)
    requires -0x8000_0000_0000_0000 <= value < 0x8000_0000_0000_0000 && a.Length >= 21
    modifies a
    ensures len < a.Length && a[..len] == IntText(value) && a[len] == '\0'
  {
    hide Dec, Negated, OnlyInside;
    if value < 0 {
      var u := Negated(value, 0x1_0000_0000_0000_0000);
      a[0] := '-';
      ghost var signed := a[..];
      var n := PrintU64(u, a, 1);
      SignKept(signed, a[..], n, Dec(u));
      MagnitudeFits(u);
      len := 1 + n;
    } else {
      len := PrintU64(value, a, 0);
      assert a[..len] == a[0..len];
    }
    ghost var text := a[..len];
    a[len] := '\0';
    assert a[..len] == text;
  }

  // ---- printing, then parsing -----------------------------------------------------------------------------------------

  lemma {:induction false} AccumulateConcat(t: string, u: string, acc: nat)
    ensures Accumulate(t + u, 10, acc) == Accumulate(u, 10, Accumulate(t, 10, acc))
    decreases |t|
  {
    if t == "" {
      assert t + u == u;
    } else {
      assert (t + u)[0] == t[0] && (t + u)[1..] == t[1..] + u;
      match DigitIn(t[0], 10)
      case Some(d) => AccumulateConcat(t[1..], u, acc * 10 + d);
      case None => AccumulateConcat(t[1..], u, acc);
    }
  }

  lemma {:induction false} DigitsRun(t: string)
    requires Digits(t)
    ensures RunOk(t, 10)
  {
    if t != "" {
      assert IsDigit(t[0]);
      DigitsRun(t[1..]);
    }
  }

  lemma {:induction false} DecRun(n: nat)
    ensures RunOk(Dec(n), 10) && Accumulate(Dec(n), 10, 0) == n
  {
    DigitsRun(Dec(n));
    if n < 10 {
      assert Dec(n)[1..] == "";
    } else {
      DecRun(n / 10);
      AccumulateConcat(Dec(n / 10), [DigitChar(n % 10)], 0);
      assert [DigitChar(n % 10)][1..] == "";
      assert Accumulate([DigitChar(n % 10)], 10, n / 10) == n / 10 * 10 + n % 10;
    }
  }

  lemma DecBody(n: nat)
    ensures BodyOk(Dec(n)) && Magnitude(Dec(n)) == n
  {
    DecRun(n);
    assert IsDigit(Dec(n)[0]);
    assert Form(Dec(n)) == (10, Dec(n));
  }

  lemma TextParts(v: int)
    ensures var s := IntText(v);
            && Body(s) == Dec(if v < 0 then 0 - v else v) && Negative(s) == (v < 0) && '\0' !in s
  {
    var s := IntText(v);
    var d := Dec(if v < 0 then 0 - v else v);
    assert forall i :: 0 <= i < |d| ==> IsDigit(d[i]);
    assert !IsSpace(s[0]) && SkipSpaces(s, 0) == 0;
    assert s[|s| - 1] == d[|d| - 1] && !IsSpace(s[|s| - 1]) && TextEnd(s) == |s|;
    assert IsDigit(d[0]);
    if v < 0 { assert s[1..] == d; } else { assert s[0..] == d; }
  }

  /** The printed text of an integer denotes that integer. */
  lemma MeaningOfText(v: int)
    ensures Meaning(IntText(v)) == Some(v)
  {
    TextParts(v);
    DecBody(if v < 0 then 0 - v else v);
  }

  /** Printed and parsed back, for the 32-bit type. */
  method PrintThenParse32(v: int) returns (r: Parsed)
    requires -0x8000_0000 <= v < 0x8000_0000
    ensures r == Value(v)
  {
    var a := new char[12](_ => '\0');
    var len := PrintI32(v, a);
    MeaningOfText(v);
    TextParts(v);
    r := StrToInt(a[..len], 0x8000_0000);
  }

  /** Printed and parsed back, for the 64-bit type. */
  method PrintThenParse64(v: int) returns (r: Parsed)
    requires -0x8000_0000_0000_0000 <= v < 0x8000_0000_0000_0000
    ensures r == Value(v)
  {
    var a := new char[21](_ => '\0');
    var len := PrintI64(v, a);
    MeaningOfText(v);
    TextParts(v);
    r := StrToInt(a[..len], 0x8000_0000_0000_0000);
  }
}
